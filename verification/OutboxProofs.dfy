/** Exactly once, in order: what a consumer that deduplicates sees of the outbox, over every run. */
module OutboxProofs {
  import opened Options
  import opened Outbox

  predicate Present(rows: seq<Row>, e: Event) { Row(e, false) in rows || Row(e, true) in rows }

  // -------------------------------------------------------------------------- invariant

  /** Commit order is time order, and ids are unique. */
  ghost predicate LogOk(s: State)
  {
    && (forall i, j | 0 <= i < j < |s.log| :: s.log[i].id != s.log[j].id && s.log[i].at <= s.log[j].at)
    && (forall e | e in s.log :: e.at <= s.clock && e.sequence > 0)
  }

  /** Nothing is announced or kept that was not committed; what is no longer waiting was announced. */
  ghost predicate TableOk(s: State)
  {
    && (forall r | r in s.rows :: r.event in s.log)
    && (forall e | e in s.emitted :: e in s.log)
    && (forall e | e in s.log :: Waiting(s.rows, e) || e in s.emitted)
    && (forall r | r in s.rows && r.published :: r.event in s.emitted && !Waiting(s.rows, r.event))
  }

  /** Within one task the table is consumed from the front: of two events the earlier one is published
      first and pruned first, and the sequence numbers still present increase. */
  ghost predicate FrontFirst(rows: seq<Row>, log: seq<Event>)
  {
    forall i, j | 0 <= i < j < |log| && log[i].task == log[j].task ::
      && (Waiting(rows, log[i]) ==> Waiting(rows, log[j]))
      && (Present(rows, log[i]) ==> Present(rows, log[j]) && log[i].sequence < log[j].sequence)
  }

  /** The batch being published takes the waiting events of a task from the front, in order. */
  ghost predicate BatchOk(rows: seq<Row>, log: seq<Event>, batch: seq<Event>)
  {
    && (forall e | e in batch :: Waiting(rows, e))
    && (forall i, j, b | 0 <= i < j < |log| && log[i].task == log[j].task && 0 <= b < |batch| && batch[b] == log[j] ::
          Waiting(rows, log[i]) ==> log[i] in batch[..b])
  }

  ghost predicate DrainOk(s: State)
  {
    s.drain.Some? ==>
      var d := s.drain.value;
      && d.sent <= |d.batch|
      && BatchOk(s.rows, s.log, d.batch)
      && forall e | e in d.batch[..d.sent] :: e in s.emitted
  }

  ghost predicate PrefixOk(s: State)
  {
    forall task :: OfTask(Deduplicated(s.emitted), task) <= OfTask(s.log, task)
  }

  ghost predicate Inv(s: State)
  {
    LogOk(s) && TableOk(s) && FrontFirst(s.rows, s.log) && DrainOk(s) && PrefixOk(s)
  }

  // -------------------------------------------------------------------------- sequences

  lemma {:induction false} OfTaskAppend(events: seq<Event>, e: Event, task: Task)
    ensures OfTask(events + [e], task) == OfTask(events, task) + if e.task == task then [e] else []
  {
    assert (events + [e])[..|events|] == events;
  }

  lemma DeduplicatedAppend(events: seq<Event>, e: Event)
    ensures Deduplicated(events + [e]) == Deduplicated(events) + if e.id in Ids(events) then [] else [e]
  {
    assert (events + [e])[..|events|] == events;
  }

  lemma {:induction false} DeduplicatedFrom(events: seq<Event>)
    ensures forall e | e in Deduplicated(events) :: e in events
    ensures Ids(Deduplicated(events)) == Ids(events)
  {
    if events != [] {
      var rest, e := events[..|events| - 1], events[|events| - 1];
      DeduplicatedFrom(rest);
      assert events == rest + [e];
      assert Ids(events) == Ids(rest) + {e.id};
      if e.id !in Ids(rest) {
        assert Ids(Deduplicated(rest) + [e]) == Ids(Deduplicated(rest)) + {e.id};
      }
    }
  }

  /** Where the events of a task sit in the log: position `i` of the log is position `OfTask` of its
      prefix in the projection. */
  lemma {:induction false} OfTaskIndex(log: seq<Event>, i: nat)
    requires i < |log|
    ensures var task := log[i].task; var before := OfTask(log[..i], task);
            && before + [log[i]] <= OfTask(log, task)
    decreases |log|
  {
    var n := |log| - 1;
    var rest, task := log[..n], log[i].task;
    if i < n {
      assert rest[..i] == log[..i] && rest[i] == log[i];
      OfTaskIndex(rest, i);
      PrefixMore(OfTask(rest[..i], task) + [rest[i]], OfTask(rest, task), if log[n].task == task then [log[n]] else []);
    }
  }

  lemma PrefixMore(a: seq<Event>, b: seq<Event>, more: seq<Event>)
    requires a <= b
    ensures a <= b + more
  {
  }

  ghost predicate Distinct(events: seq<Event>)
  {
    forall i, j | 0 <= i < j < |events| :: events[i].id != events[j].id
  }

  lemma {:induction false} OfTaskDistinct(log: seq<Event>, task: Task)
    requires Distinct(log)
    ensures Distinct(OfTask(log, task))
  {
    if log != [] {
      var rest, e := log[..|log| - 1], log[|log| - 1];
      OfTaskDistinct(rest, task);
      forall x | x in OfTask(rest, task)
        ensures x.id != e.id
      {
        assert x in rest;
      }
    }
  }

  lemma PrefixCovers(seen: seq<Event>, all: seq<Event>, n: nat)
    requires seen <= all && n <= |all| && Distinct(all)
    requires forall e | e in all[..n] :: e in seen
    ensures n <= |seen|
  {
    if n > 0 {
      assert all[..n][n - 1] in seen;
      var k :| 0 <= k < |seen| && seen[k] == all[n - 1];
      assert all[k] == all[n - 1];
    }
  }

  /** `seen` is a prefix of `all` that has everything before `x` and not `x`: it ends just before `x`. */
  lemma EndsBefore(seen: seq<Event>, before: seq<Event>, all: seq<Event>, x: Event)
    requires seen <= all && before + [x] <= all && Distinct(all)
    requires x !in seen && forall e | e in before :: e in seen
    ensures seen == before
  {
    assert all[|before|] == x && before == all[..|before|] && seen == all[..|seen|];
    assert |seen| <= |before|;
    PrefixCovers(seen, all, |before|);
  }

  /** What the consumer already has of a task includes every event of it that was published. */
  lemma SeenHas(s: State, e: Event)
    requires LogOk(s) && TableOk(s) && e in s.emitted
    ensures e in OfTask(Deduplicated(s.emitted), e.task)
  {
    DeduplicatedFrom(s.emitted);
    assert e.id in Ids(s.emitted);
    var x :| x in Deduplicated(s.emitted) && x.id == e.id;
    assert x in s.log && e in s.log;
    var i, j :| 0 <= i < |s.log| && 0 <= j < |s.log| && s.log[i] == x && s.log[j] == e;
    assert i == j;
  }

  // ------------------------------------------------------------------------------ steps

  lemma StageFrontFirst(s: State, e: Event)
    requires TableOk(s) && FrontFirst(s.rows, s.log) && e !in s.log
    requires e.sequence > LastSequence(s.rows, e.task)
    ensures FrontFirst(s.rows + [Row(e, false)], s.log + [e])
  {
    var rows', log' := s.rows + [Row(e, false)], s.log + [e];
    forall i, j | 0 <= i < j < |log'| && log'[i].task == log'[j].task
      ensures Waiting(rows', log'[i]) ==> Waiting(rows', log'[j])
      ensures Present(rows', log'[i]) ==> Present(rows', log'[j]) && log'[i].sequence < log'[j].sequence
    {
      var x, y := log'[i], log'[j];
      assert x == s.log[i] && x != e;
      assert Waiting(rows', x) == Waiting(s.rows, x) && Present(rows', x) == Present(s.rows, x);
      if j < |s.log| {
        assert y == s.log[j];
      } else {
        assert rows'[|s.rows|] == Row(y, false);
      }
    }
  }

  lemma StageTable(s: State, e: Event)
    requires TableOk(s) && e !in s.log
    ensures TableOk(s.(rows := s.rows + [Row(e, false)], log := s.log + [e], clock := e.at))
  {
    var rows' := s.rows + [Row(e, false)];
    assert rows'[|s.rows|] == Row(e, false);
    forall x | Waiting(s.rows, x) ensures Waiting(rows', x) {}
  }

  lemma StageInv(s: State, step: Step)
    requires Inv(s) && Enabled(s, step) && step.Stage? && step.committed
    ensures Inv(Next(s, step))
  {
    var e := Staged(s.rows, step.id, step.topic, step.task, step.payload, step.now);
    StageTable(s, e);
    StageFrontFirst(s, e);
    if s.drain.Some? {
      StageKeepsBatch(s, e, s.rows + [Row(e, false)], s.drain.value.batch);
    }
    forall task
      ensures OfTask(Deduplicated(s.emitted), task) <= OfTask(s.log + [e], task)
    {
      OfTaskAppend(s.log, e, task);
    }
  }

  lemma StageKeepsBatch(s: State, e: Event, rows': seq<Row>, batch: seq<Event>)
    requires TableOk(s) && BatchOk(s.rows, s.log, batch) && e !in s.log
    requires rows' == s.rows + [Row(e, false)]
    ensures BatchOk(rows', s.log + [e], batch)
  {
    var log' := s.log + [e];
    forall i, j, b | 0 <= i < j < |log'| && log'[i].task == log'[j].task && 0 <= b < |batch| && batch[b] == log'[j]
      ensures Waiting(rows', log'[i]) ==> log'[i] in batch[..b]
    {
      assert Waiting(s.rows, batch[b]);
      assert Row(batch[b], false).event in s.log;
      assert j < |s.log|;
      assert log'[i] == s.log[i] && log'[j] == s.log[j];
    }
  }

  lemma FetchInv(s: State, limit: int, batch: seq<Event>)
    requires Inv(s) && Enabled(s, Fetch(limit, batch))
    ensures Inv(Next(s, Fetch(limit, batch)))
  {
    forall i, j, b | 0 <= i < j < |s.log| && s.log[i].task == s.log[j].task
                     && 0 <= b < |batch| && batch[b] == s.log[j] && Waiting(s.rows, s.log[i])
      ensures s.log[i] in batch[..b]
    {
      var x := s.log[i];
      assert Present(s.rows, x) && Before(x, s.log[j]);
      assert batch[b] in batch;
      assert x in batch;
      var a :| 0 <= a < |batch| && batch[a] == x;
      assert a < b && batch[..b][a] == x;
    }
  }

  lemma EmitInv(s: State)
    requires Inv(s) && Enabled(s, Emit)
    ensures Inv(Next(s, Emit))
  {
    var d := s.drain.value;
    var x := d.batch[d.sent];
    assert x in s.log by { assert Waiting(s.rows, x) && Row(x, false).event in s.log; }
    EmitDrain(s, x);
    EmitPrefix(s, x);
  }

  lemma EmitDrain(s: State, x: Event)
    requires TableOk(s) && DrainOk(s) && Enabled(s, Emit) && x == s.drain.value.batch[s.drain.value.sent] && x in s.log
    ensures TableOk(Next(s, Emit)) && DrainOk(Next(s, Emit))
  {
    var d := s.drain.value;
    assert d.batch[..d.sent + 1] == d.batch[..d.sent] + [x];
    forall e
      ensures e in s.emitted + [x] <==> e in s.emitted || e == x
    {
    }
  }

  lemma EmitPrefix(s: State, x: Event)
    requires Inv(s) && Enabled(s, Emit) && x == s.drain.value.batch[s.drain.value.sent] && x in s.log
    ensures PrefixOk(Next(s, Emit))
  {
    DeduplicatedAppend(s.emitted, x);
    forall task
      ensures OfTask(Deduplicated(s.emitted + [x]), task) <= OfTask(s.log, task)
    {
      OfTaskAppend(Deduplicated(s.emitted), x, task);
      if x.id !in Ids(s.emitted) {
        EmitExtends(s, x);
      } else {
        assert Deduplicated(s.emitted + [x]) == Deduplicated(s.emitted);
      }
    }
  }

  lemma EmitExtends(s: State, x: Event)
    requires Inv(s) && Enabled(s, Emit) && x == s.drain.value.batch[s.drain.value.sent]
    requires x.id !in Ids(s.emitted) && x in s.log
    ensures OfTask(Deduplicated(s.emitted), x.task) + [x] <= OfTask(s.log, x.task)
  {
    var d := s.drain.value;
    var j :| 0 <= j < |s.log| && s.log[j] == x;
    var seen, before := OfTask(Deduplicated(s.emitted), x.task), OfTask(s.log[..j], x.task);
    OfTaskIndex(s.log, j);
    OfTaskDistinct(s.log, x.task);
    DeduplicatedFrom(s.emitted);
    assert x !in s.emitted;
    forall e | e in before
      ensures e in seen
    {
      var i :| 0 <= i < j && s.log[i] == e;
      assert e in s.emitted by {
        assert Waiting(s.rows, s.log[i]) ==> s.log[i] in d.batch[..d.sent];
      }
      SeenHas(s, e);
    }
    EndsBefore(seen, before, OfTask(s.log, x.task), x);
  }

  lemma MarkInv(s: State)
    requires Inv(s) && Enabled(s, MarkPublished)
    ensures Inv(Next(s, MarkPublished))
  {
    var batch := s.drain.value.batch;
    var rows' := Mark(s.rows, batch);
    MarkMeans(s, batch);
    assert batch[..|batch|] == batch;
    MarkFrontFirst(s, batch);
    forall r | r in rows'
      ensures r.event in s.log && (r.published ==> r.event in s.emitted && !Waiting(rows', r.event))
    {
      assert Present(rows', r.event);
    }
  }

  /** Marking by id publishes exactly the events of the batch. */
  lemma MarkMeans(s: State, batch: seq<Event>)
    requires LogOk(s) && TableOk(s) && forall e | e in batch :: Waiting(s.rows, e)
    ensures var rows' := Mark(s.rows, batch);
            && (forall e :: Present(rows', e) <==> Present(s.rows, e))
            && (forall e :: Waiting(rows', e) <==> Waiting(s.rows, e) && e !in batch)
            && (forall e :: Row(e, true) in rows' <==> Row(e, true) in s.rows || (Waiting(s.rows, e) && e in batch))
  {
    var rows' := Mark(s.rows, batch);
    forall i | 0 <= i < |rows'|
      ensures rows'[i] == Row(s.rows[i].event, s.rows[i].published || s.rows[i].event in batch)
    {
      var e := s.rows[i].event;
      assert s.rows[i] in s.rows;
      if e.id in Ids(batch) {
        var x :| x in batch && x.id == e.id;
        assert Row(x, false).event in s.log;
        SameId(s, x, e);
      }
    }
    forall e
      ensures Waiting(rows', e) <==> Waiting(s.rows, e) && e !in batch
      ensures Row(e, true) in rows' <==> Row(e, true) in s.rows || (Waiting(s.rows, e) && e in batch)
    {
      if Waiting(s.rows, e) {
        var i :| 0 <= i < |s.rows| && s.rows[i] == Row(e, false);
        assert rows'[i] in rows';
      }
      if Row(e, true) in s.rows {
        var i :| 0 <= i < |s.rows| && s.rows[i] == Row(e, true);
        assert rows'[i] in rows';
      }
    }
  }

  lemma SameId(s: State, x: Event, y: Event)
    requires LogOk(s) && x in s.log && y in s.log && x.id == y.id
    ensures x == y
  {
    var i, j :| 0 <= i < |s.log| && 0 <= j < |s.log| && s.log[i] == x && s.log[j] == y;
    assert i == j;
  }

  lemma MarkFrontFirst(s: State, batch: seq<Event>)
    requires LogOk(s) && TableOk(s) && FrontFirst(s.rows, s.log) && BatchOk(s.rows, s.log, batch)
    ensures FrontFirst(Mark(s.rows, batch), s.log)
  {
    MarkMeans(s, batch);
    var rows' := Mark(s.rows, batch);
    forall i, j | 0 <= i < j < |s.log| && s.log[i].task == s.log[j].task
      ensures Waiting(rows', s.log[i]) ==> Waiting(rows', s.log[j])
      ensures Present(rows', s.log[i]) ==> Present(rows', s.log[j]) && s.log[i].sequence < s.log[j].sequence
    {
      if s.log[j] in batch {
        var b :| 0 <= b < |batch| && batch[b] == s.log[j];
        assert Waiting(s.rows, s.log[i]) ==> s.log[i] in batch[..b];
      }
    }
  }

  lemma PruneInv(s: State, keepAfter: real)
    requires Inv(s)
    ensures Inv(Next(s, PruneOld(keepAfter)))
  {
    var rows' := Prune(s.rows, keepAfter);
    forall i, j | 0 <= i < j < |s.log| && s.log[i].task == s.log[j].task
      ensures Waiting(rows', s.log[i]) ==> Waiting(rows', s.log[j])
      ensures Present(rows', s.log[i]) ==> Present(rows', s.log[j]) && s.log[i].sequence < s.log[j].sequence
    {
      if Present(rows', s.log[i]) {
        assert Present(s.rows, s.log[i]) && Present(s.rows, s.log[j]);
      }
    }
    forall e
      ensures Waiting(rows', e) <==> Waiting(s.rows, e)
    {
    }
  }

  lemma StepInv(s: State, step: Step)
    requires Inv(s) && Enabled(s, step)
    ensures Inv(Next(s, step))
  {
    match step
    case Stage(_, _, _, _, _, committed) => if committed { StageInv(s, step); }
    case Fetch(limit, batch) => FetchInv(s, limit, batch);
    case Emit => EmitInv(s);
    case MarkPublished => MarkInv(s);
    case Crash =>
    case PruneOld(keepAfter) => PruneInv(s, keepAfter);
  }

  // ------------------------------------------------------------------------------- runs

  ghost predicate Runs(s: State, steps: seq<Step>)
    decreases |steps|
  {
    steps == [] || (Enabled(s, steps[0]) && Runs(Next(s, steps[0]), steps[1..]))
  }

  ghost function After(s: State, steps: seq<Step>): State
    requires Runs(s, steps)
    decreases |steps|
  {
    if steps == [] then s else After(Next(s, steps[0]), steps[1..])
  }

  lemma {:induction false} RunInv(s: State, steps: seq<Step>)
    requires Inv(s) && Runs(s, steps)
    ensures Inv(After(s, steps))
    decreases |steps|
  {
    if steps != [] {
      StepInv(s, steps[0]);
      RunInv(Next(s, steps[0]), steps[1..]);
    }
  }

  lemma StartInv()
    ensures Inv(START)
  {
    forall task ensures OfTask(Deduplicated(START.emitted), task) <= OfTask(START.log, task) {
      assert Deduplicated(START.emitted) == [] && OfTask([], task) == [];
    }
  }

  /** Whatever was staged, drained, cut short and pruned: a consumer that deduplicates has seen, of every
      task, a prefix of what was committed for it, in commit order and nothing else; and once nothing
      waits it has seen all of it. */
  lemma ExactlyOnceInOrder(steps: seq<Step>, task: Task)
    requires Runs(START, steps)
    ensures var s := After(START, steps);
            && OfTask(Deduplicated(s.emitted), task) <= OfTask(s.log, task)
            && (forall e | e in s.emitted :: e in s.log)
            && (forall e | e in s.log :: e in s.emitted || Waiting(s.rows, e))
            && ((forall e | e in s.log && e.task == task :: !Waiting(s.rows, e))
                ==> OfTask(Deduplicated(s.emitted), task) == OfTask(s.log, task))
  {
    StartInv();
    RunInv(START, steps);
    var s := After(START, steps);
    if forall e | e in s.log && e.task == task :: !Waiting(s.rows, e) {
      AllSeen(s, task);
    }
  }

  lemma AllSeen(s: State, task: Task)
    requires Inv(s) && forall e | e in s.log && e.task == task :: !Waiting(s.rows, e)
    ensures OfTask(Deduplicated(s.emitted), task) == OfTask(s.log, task)
  {
    var seen, all := OfTask(Deduplicated(s.emitted), task), OfTask(s.log, task);
    OfTaskDistinct(s.log, task);
    forall e | e in all
      ensures e in seen
    {
      SeenHas(s, e);
    }
    PrefixCovers(seen, all, |all|);
  }

  // --------------------------------------------------------------------------- sequence

  ghost predicate AnyRow(rows: seq<Row>, task: Task) { exists r :: r in rows && r.event.task == task }

  /** The next sequence number of a task continues its history exactly as long as pruning has left the
      task a row; once its last row is gone the numbering starts again at 1. */
  lemma SequenceContinuesIff(steps: seq<Step>, s: State, task: Task)
    requires Reaches(steps, s) && OfTask(s.log, task) != []
    ensures var history := OfTask(s.log, task);
            LastSequence(s.rows, task) == history[|history| - 1].sequence <==> AnyRow(s.rows, task)
    ensures !AnyRow(s.rows, task) ==> LastSequence(s.rows, task) == 0
  {
    var last := LastOfTask(s.log, task);
    if AnyRow(s.rows, task) {
      SequenceContinues(steps, s, task, last);
    } else {
      SequenceRestarts(steps, s, task, last);
    }
  }

  ghost predicate Reaches(steps: seq<Step>, s: State) { Runs(START, steps) && s == After(START, steps) }

  lemma Reached(steps: seq<Step>, s: State)
    requires Reaches(steps, s)
    ensures LogOk(s) && TableOk(s) && FrontFirst(s.rows, s.log)
  {
    StartInv();
    RunInv(START, steps);
  }

  /** The last event of a task, at `last` in the log. */
  ghost predicate IsLast(log: seq<Event>, task: Task, last: nat)
  {
    last < |log| && log[last].task == task && forall k | last < k < |log| :: log[k].task != task
  }

  lemma SequenceRestarts(steps: seq<Step>, s: State, task: Task, last: nat)
    requires Reaches(steps, s) && !AnyRow(s.rows, task) && IsLast(s.log, task, last)
    ensures LastSequence(s.rows, task) == 0 < s.log[last].sequence
  {
    Reached(steps, s);
    assert s.log[last] in s.log;
  }

  lemma SequenceContinues(steps: seq<Step>, s: State, task: Task, last: nat)
    requires Reaches(steps, s) && AnyRow(s.rows, task) && IsLast(s.log, task, last)
    ensures LastSequence(s.rows, task) == s.log[last].sequence
  {
    var r := RowOf(s.rows, task);
    LastIsLargest(steps, s, task, r, last);
    if LastSequence(s.rows, task) > 0 {
      var m := LargestRow(s.rows, task);
      LastIsLargest(steps, s, task, m, last);
    }
    PresentIsCounted(s.rows, s.log[last]);
  }

  /** A row of the task. */
  lemma RowOf(rows: seq<Row>, task: Task) returns (r: Row)
    requires AnyRow(rows, task)
    ensures r in rows && r.event.task == task
  {
    r :| r in rows && r.event.task == task;
  }

  /** The row of the task with the largest number. */
  lemma LargestRow(rows: seq<Row>, task: Task) returns (r: Row)
    requires LastSequence(rows, task) > 0
    ensures r in rows && r.event.task == task && r.event.sequence == LastSequence(rows, task)
  {
    r :| r in rows && r.event.task == task && r.event.sequence == LastSequence(rows, task);
  }

  lemma PresentIsCounted(rows: seq<Row>, e: Event)
    requires Present(rows, e)
    ensures e.sequence <= LastSequence(rows, e.task)
  {
  }

  lemma LastIsLargest(steps: seq<Step>, s: State, task: Task, r: Row, last: nat)
    requires Reaches(steps, s) && IsLast(s.log, task, last) && r in s.rows && r.event.task == task
    ensures Present(s.rows, s.log[last]) && r.event.sequence <= s.log[last].sequence
  {
    Reached(steps, s);
    var i :| 0 <= i < |s.log| && s.log[i] == r.event;
    assert i <= last;
    assert Present(s.rows, s.log[i]);
  }

  /** Where the last event of a task sits in the log. */
  lemma {:induction false} LastOfTask(log: seq<Event>, task: Task) returns (last: nat)
    requires OfTask(log, task) != []
    ensures last < |log| && log[last].task == task
    ensures log[last] == OfTask(log, task)[|OfTask(log, task)| - 1]
    ensures forall k | last < k < |log| :: log[k].task != task
  {
    var n := |log| - 1;
    if log[n].task == task {
      last := n;
    } else {
      assert OfTask(log, task) == OfTask(log[..n], task);
      last := LastOfTask(log[..n], task);
    }
  }

  // ----------------------------------------------------------------- what an event says

  /** The event says just what was committed with the step: its id, topic, task, payload and time. */
  ghost predicate Reports(e: Event, step: Step)
  {
    && step.Stage? && step.committed
    && e.id == step.id && e.topic == step.topic && e.task == step.task && e.payload == step.payload && e.at == step.now
  }

  predicate Commits(step: Step, task: Task) { step.Stage? && step.committed && step.task == task }

  /** The steps of a run that committed an event of a task, in order. */
  function CommitsOf(steps: seq<Step>, task: Task): (out: seq<Step>)
    ensures forall step :: step in out <==> step in steps && Commits(step, task)
  {
    if steps == [] then []
    else (if Commits(steps[0], task) then [steps[0]] else []) + CommitsOf(steps[1..], task)
  }

  /** The events from `n` on report these steps one by one. */
  ghost predicate ReportsFrom(events: seq<Event>, n: nat, steps: seq<Step>)
  {
    |events| == n + |steps| && forall i | 0 <= i < |steps| :: Reports(events[n + i], steps[i])
  }

  lemma StageReports(s: State, step: Step, task: Task)
    requires Enabled(s, step)
    ensures var before, after := OfTask(s.log, task), OfTask(Next(s, step).log, task);
            && before <= after
            && if Commits(step, task) then |after| == |before| + 1 && Reports(after[|before|], step)
               else after == before
  {
    if step.Stage? && step.committed {
      OfTaskAppend(s.log, Next(s, step).log[|s.log|], task);
    }
  }

  lemma {:induction false} RunReports(s: State, steps: seq<Step>, task: Task)
    requires Runs(s, steps)
    ensures OfTask(s.log, task) <= OfTask(After(s, steps).log, task)
    ensures ReportsFrom(OfTask(After(s, steps).log, task), |OfTask(s.log, task)|, CommitsOf(steps, task))
    decreases |steps|
  {
    if steps != [] {
      StageReports(s, steps[0], task);
      RunReports(Next(s, steps[0]), steps[1..], task);
      ReportsMore(OfTask(s.log, task), OfTask(Next(s, steps[0]).log, task), OfTask(After(s, steps).log, task),
                  steps[0], CommitsOf(steps[1..], task), task);
    }
  }

  lemma ReportsMore(before: seq<Event>, next: seq<Event>, events: seq<Event>, step: Step, rest: seq<Step>, task: Task)
    requires before <= next <= events && ReportsFrom(events, |next|, rest)
    requires if Commits(step, task) then |next| == |before| + 1 && Reports(next[|before|], step) else next == before
    ensures ReportsFrom(events, |before|, (if Commits(step, task) then [step] else []) + rest)
  {
    if Commits(step, task) {
      var all := [step] + rest;
      forall i | 0 <= i < |all|
        ensures Reports(events[|before| + i], all[i])
      {
        if i > 0 {
          assert events[|next| + (i - 1)] == events[|before| + i] && all[i] == rest[i - 1];
        }
      }
    } else {
      assert [] + rest == rest;
    }
  }

  /** All that was ever committed for a task, as the run committed it. */
  lemma HistoryReports(steps: seq<Step>, s: State, task: Task)
    requires Reaches(steps, s)
    ensures ReportsFrom(OfTask(s.log, task), 0, CommitsOf(steps, task))
  {
    RunReports(START, steps, task);
    assert OfTask(START.log, task) == [];
  }

  /** Every event of the list reports the step at its place. */
  ghost predicate AllReport(events: seq<Event>, steps: seq<Step>)
  {
    |events| <= |steps| && forall i | 0 <= i < |events| :: Reports(events[i], steps[i])
  }

  lemma PrefixReports(seen: seq<Event>, history: seq<Event>, commits: seq<Step>)
    requires seen <= history && ReportsFrom(history, 0, commits)
    ensures AllReport(seen, commits) && (seen == history ==> |seen| == |commits|)
  {
    forall i | 0 <= i < |seen|
      ensures Reports(seen[i], commits[i])
    {
      assert history[0 + i] == seen[i];
    }
  }

  /** Nothing of the task waits. */
  ghost predicate Drained(s: State, task: Task) { forall e | e in s.log && e.task == task :: !Waiting(s.rows, e) }

  lemma SeenOf(steps: seq<Step>, s: State, task: Task, seen: seq<Event>, history: seq<Event>)
    requires Reaches(steps, s) && seen == OfTask(Deduplicated(s.emitted), task) && history == OfTask(s.log, task)
    ensures seen <= history && (Drained(s, task) ==> seen == history)
  {
    ExactlyOnceInOrder(steps, task);
  }

  /** Over every run: what a deduplicating consumer has of a task says, event by event and in order, what was committed
      for the task, with its id, topic, payload and time; and all of it once nothing waits. */
  lemma DeliveredAsStaged(steps: seq<Step>, s: State, task: Task, seen: seq<Event>)
    requires Reaches(steps, s) && seen == OfTask(Deduplicated(s.emitted), task)
    ensures AllReport(seen, CommitsOf(steps, task))
    ensures Drained(s, task) ==> |seen| == |CommitsOf(steps, task)|
  {
    HistoryReports(steps, s, task);
    SeenOf(steps, s, task, seen, OfTask(s.log, task));
    PrefixReports(seen, OfTask(s.log, task), CommitsOf(steps, task));
  }

  lemma ReportedBy(history: seq<Event>, commits: seq<Step>, e: Event)
    requires ReportsFrom(history, 0, commits) && e in history
    ensures exists step :: step in commits && Reports(e, step)
  {
    var i :| 0 <= i < |history| && history[i] == e;
    assert Reports(history[0 + i], commits[i]) && commits[i] in commits;
  }

  /** Every event ever put on the bus, a repetition or not, says what some step of the run committed. */
  lemma EmittedAsStaged(steps: seq<Step>, s: State, e: Event)
    requires Reaches(steps, s) && e in s.emitted
    ensures exists step :: step in steps && Reports(e, step)
  {
    Reached(steps, s);
    HistoryReports(steps, s, e.task);
    ReportedBy(OfTask(s.log, e.task), CommitsOf(steps, e.task), e);
    var step :| step in CommitsOf(steps, e.task) && Reports(e, step);
  }

  /** Pruning takes exactly the published rows from before the cutoff. */
  lemma PrunedIff(s: State, keepAfter: real, r: Row)
    ensures r in Next(s, PruneOld(keepAfter)).rows <==> r in s.rows && !(r.published && r.event.at < keepAfter)
  {
  }

  // ----------------------------------------------------------- sequence without pruning

  /** The events of a task carry the numbers 1, 2, 3, ... */
  ghost predicate Numbered(s: State, task: Task)
  {
    Counted(OfTask(s.log, task), LastSequence(s.rows, task))
  }

  ghost predicate Counted(history: seq<Event>, last: nat)
  {
    last == |history| && forall i | 0 <= i < |history| :: history[i].sequence == i + 1
  }

  lemma {:induction false} MarkKeepsLast(rows: seq<Row>, batch: seq<Event>, task: Task)
    ensures LastSequence(Mark(rows, batch), task) == LastSequence(rows, task)
  {
    if rows != [] {
      var n := |rows| - 1;
      MarkKeepsLast(rows[..n], batch, task);
      assert Mark(rows, batch)[..n] == Mark(rows[..n], batch);
    }
  }

  lemma NumberedStage(s: State, step: Step, task: Task)
    requires Enabled(s, step) && step.Stage? && step.committed && Numbered(s, task)
    ensures Numbered(Next(s, step), task)
  {
    var e := Staged(s.rows, step.id, step.topic, step.task, step.payload, step.now);
    OfTaskAppend(s.log, e, task);
    LastOfMore(s.rows, Row(e, false), task);
    CountedStage(OfTask(s.log, task), LastSequence(s.rows, task), e, task);
  }

  lemma CountedStage(history: seq<Event>, last: nat, e: Event, task: Task)
    requires Counted(history, last) && (e.task == task ==> e.sequence == last + 1)
    ensures if e.task == task then Counted(history + [e], last + 1) else Counted(history + [], last)
  {
  }

  lemma LastOfMore(rows: seq<Row>, r: Row, task: Task)
    ensures LastSequence(rows + [r], task)
         == if r.event.task == task && r.event.sequence > LastSequence(rows, task) then r.event.sequence
            else LastSequence(rows, task)
  {
    assert (rows + [r])[..|rows|] == rows;
  }

  lemma {:induction false} NumberedRun(s: State, steps: seq<Step>, task: Task)
    requires Runs(s, steps) && Numbered(s, task)
    requires forall i | 0 <= i < |steps| :: !steps[i].PruneOld?
    ensures Numbered(After(s, steps), task)
    decreases |steps|
  {
    if steps != [] {
      var step, s' := steps[0], Next(s, steps[0]);
      if step.Stage? && step.committed {
        NumberedStage(s, step, task);
      } else if step.MarkPublished? {
        MarkKeepsLast(s.rows, s.drain.value.batch, task);
      }
      NumberedRun(s', steps[1..], task);
    }
  }

  /** As long as nothing is pruned, what the consumer has of a task is numbered 1, 2, 3, ... */
  lemma SeenInSequence(steps: seq<Step>, task: Task, i: nat)
    requires Runs(START, steps) && forall k | 0 <= k < |steps| :: !steps[k].PruneOld?
    requires i < |OfTask(Deduplicated(After(START, steps).emitted), task)|
    ensures OfTask(Deduplicated(After(START, steps).emitted), task)[i].sequence == i + 1
  {
    assert OfTask([], task) == [];
    NumberedRun(START, steps, task);
    ExactlyOnceInOrder(steps, task);
  }

  // ------------------------------------------------------------- the uninterrupted drain

  function Emits(n: nat): seq<Step> { if n == 0 then [] else [Emit] + Emits(n - 1) }

  lemma {:induction false} EmitsThenMark(s: State, left: nat, steps: seq<Step>)
    requires s.drain.Some? && s.drain.value.sent + left == |s.drain.value.batch|
    requires steps == Emits(left) + [MarkPublished]
    ensures Runs(s, steps)
    ensures After(s, steps)
         == s.(rows := Mark(s.rows, s.drain.value.batch),
               emitted := s.emitted + s.drain.value.batch[s.drain.value.sent..], drain := None)
    decreases left
  {
    var d := s.drain.value;
    if left == 0 {
      assert steps == [MarkPublished] && steps[1..] == [];
      assert s.emitted + d.batch[d.sent..] == s.emitted;
    } else {
      var s' := Next(s, Emit);
      assert steps[0] == Emit && steps[1..] == Emits(left - 1) + [MarkPublished];
      EmitsThenMark(s', left - 1, steps[1..]);
      assert s.emitted + d.batch[d.sent..] == s'.emitted + d.batch[d.sent + 1..];
    }
  }

  /** A drain that is not cut short is a run of the steps above, with the effect the method states. */
  lemma DrainIsARun(s: State, limit: int, batch: seq<Event>, steps: seq<Step>)
    requires s.drain.None? && IsPending(s.rows, limit, batch)
    requires steps == [Fetch(limit, batch)] + (Emits(|batch|) + [MarkPublished])
    ensures Runs(s, steps)
    ensures After(s, steps) == s.(rows := Mark(s.rows, batch), emitted := s.emitted + batch)
  {
    var s' := Next(s, Fetch(limit, batch));
    assert steps[0] == Fetch(limit, batch) && steps[1..] == Emits(|batch|) + [MarkPublished];
    EmitsThenMark(s', |batch|, steps[1..]);
    assert batch[0..] == batch;
  }

  /** What waits to be published. */
  function WaitingIn(rows: seq<Row>): (waiting: set<Event>)
    ensures forall e :: e in waiting <==> Waiting(rows, e)
  {
    set r | r in rows && !r.published :: r.event
  }

  /** A batch takes as many as there are, up to the limit, and leaves none behind that comes before one it takes. */
  lemma PendingMeans(rows: seq<Row>, limit: int, batch: seq<Event>, waiting: set<Event>)
    requires IsPending(rows, limit, batch) && waiting == WaitingIn(rows)
    ensures |batch| == if 0 <= limit < |waiting| then limit else |waiting|
    ensures forall e, x | e in waiting && e !in batch && x in batch :: !Before(e, x)
  {
    var taken := set e | e in batch;
    SetOfDistinct(batch, taken);
    AllOrLimit(rows, limit, batch, waiting, taken);
    PartOf(taken, waiting);
    forall e, x | e in waiting && e !in batch && x in batch
      ensures !Before(e, x)
    {
      assert Waiting(rows, e);
    }
  }

  lemma AllOrLimit(rows: seq<Row>, limit: int, batch: seq<Event>, waiting: set<Event>, taken: set<Event>)
    requires IsPending(rows, limit, batch) && waiting == WaitingIn(rows) && taken == set e | e in batch
    ensures taken <= waiting && (taken == waiting || |batch| == limit)
    ensures limit >= 0 ==> |batch| <= limit
  {
    if taken != waiting {
      var e :| e in waiting && e !in taken;
      assert Waiting(rows, e);
    }
  }

  lemma PartOf<T>(part: set<T>, whole: set<T>)
    requires part <= whole
    ensures |part| <= |whole| && (|part| == |whole| <==> part == whole)
  {
    assert whole == part + (whole - part);
  }

  lemma {:induction false} SetOfDistinct(events: seq<Event>, elements: set<Event>)
    requires elements == (set e | e in events) && forall i, j | 0 <= i < j < |events| :: events[i] != events[j]
    ensures |elements| == |events|
  {
    if events != [] {
      var n := |events| - 1;
      var rest := set e | e in events[..n];
      SetOfDistinct(events[..n], rest);
      assert elements == rest + {events[n]};
    }
  }

  /** After a drain that is not cut off exactly the batch waits no longer: with a positive limit every drain makes the
      outbox shorter until nothing waits. */
  lemma DrainTakes(s: State, limit: int, batch: seq<Event>, steps: seq<Step>, drained: State)
    requires Inv(s) && s.drain.None? && IsPending(s.rows, limit, batch)
    requires steps == [Fetch(limit, batch)] + (Emits(|batch|) + [MarkPublished])
    requires Runs(s, steps) ==> drained == After(s, steps)
    ensures Runs(s, steps)
    ensures WaitingIn(drained.rows) == WaitingIn(s.rows) - set e | e in batch
    ensures var before := |WaitingIn(s.rows)|;
            |WaitingIn(drained.rows)| == if 0 <= limit < before then before - limit else 0
  {
    DrainIsARun(s, limit, batch, steps);
    MarkTakes(s, batch);
    PendingMeans(s.rows, limit, batch, WaitingIn(s.rows));
    SetOfDistinct(batch, set e | e in batch);
    assert (set e | e in batch) <= WaitingIn(s.rows);
  }

  lemma OneOfItsId(s: State, batch: seq<Event>, e: Event)
    requires Inv(s) && (forall b | b in batch :: Waiting(s.rows, b)) && Waiting(s.rows, e) && e !in batch
    ensures e.id !in Ids(batch)
  {
    forall b | b in batch
      ensures b.id != e.id
    {
      assert Row(b, false).event in s.log && Row(e, false).event in s.log;
    }
  }

  lemma MarkTakes(s: State, batch: seq<Event>)
    requires Inv(s) && forall e | e in batch :: Waiting(s.rows, e)
    ensures WaitingIn(Mark(s.rows, batch)) == WaitingIn(s.rows) - set e | e in batch
  {
    var marked := Mark(s.rows, batch);
    forall e
      ensures Waiting(marked, e) <==> Waiting(s.rows, e) && e !in batch
    {
      if Waiting(s.rows, e) && e !in batch {
        var i :| 0 <= i < |s.rows| && s.rows[i] == Row(e, false);
        OneOfItsId(s, batch, e);
        assert marked[i] == Row(e, false);
      }
    }
  }

  /** A crash in the middle of a drain forgets the drain and nothing else: the next one reads again whatever waits, so
      what was published and not yet marked is published again. */
  lemma CrashForgetsTheDrain(s: State, limit: int, batch: seq<Event>)
    ensures var down := Next(s, Crash);
            && down.rows == s.rows && down.emitted == s.emitted && down.log == s.log
            && !Enabled(down, Emit) && !Enabled(down, MarkPublished)
            && (Enabled(down, Fetch(limit, batch)) <==> IsPending(s.rows, limit, batch))
  {
  }
}
