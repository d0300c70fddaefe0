/** A task over all its lives: every run of the agent loop reads the journal, may be cut off anywhere, and
    leaves its rows to the next one. */
module Lives {
  import opened Options
  import opened Journals

  // ------------------------------------------------------------------------ one life

  /** What every run does, whatever the planner and the tools answer: it touches no step that was done
      when it began, finishes only what it has just performed, and journals a success at once. */
  ghost predicate Orderly(rows: Rows, events: seq<Event>)
  {
    NothingDone(rows, events) && Prompt(events) && Justified(events)
  }

  ghost predicate NothingDone(rows: Rows, events: seq<Event>)
  {
    forall i | 0 <= i < |events| :: !IsDone(rows, events[i].key)
  }

  ghost predicate Prompt(events: seq<Event>)
  {
    forall i | 0 <= i < |events| && events[i].Performed? && events[i].ok ::
      i + 1 < |events| ==> events[i + 1].Finished? && events[i + 1].key == events[i].key && events[i + 1].ok
  }

  ghost predicate Justified(events: seq<Event>)
  {
    forall i | 0 <= i < |events| && events[i].Finished? ::
      && i > 0 && events[i - 1] == Performed(events[i].key, events[i].ok)
      && BeganIn(events[..i], events[i].key)
  }

  ghost predicate BeganIn(events: seq<Event>, k: Key) { exists e :: e in events && e.Started? && e.key == k }

  /** No step is touched again once it succeeded. Runs whose plans are well keyed have this. */
  ghost predicate NoReuse(events: seq<Event>)
  {
    forall i, j | 0 <= i < j < |events| && events[i].Finished? && events[i].ok :: events[j].key != events[i].key
  }

  /** The process died after an action succeeded and before its journal row. */
  predicate CutInWindow(events: seq<Event>, k: Key)
  {
    events != [] && events[|events| - 1] == Performed(k, true)
  }

  function Successes(events: seq<Event>, k: Key): nat
  {
    if events == [] then 0
    else Successes(events[..|events| - 1], k) + if events[|events| - 1] == Performed(k, true) then 1 else 0
  }

  /** A crash leaves a prefix of a run, and a prefix of an orderly run is orderly. */
  lemma CutIsOrderly(rows: Rows, events: seq<Event>, cut: nat)
    requires Orderly(rows, events) && NoReuse(events) && cut <= |events|
    ensures Orderly(rows, events[..cut]) && NoReuse(events[..cut])
  {
    forall i | 0 <= i < cut && events[i].Finished?
      ensures events[..cut][..i] == events[..i]
    {
    }
  }

  lemma {:induction false} NoneWithoutEvents(rows: Rows, events: seq<Event>, k: Key)
    requires forall i | 0 <= i < |events| :: events[i].key != k
    ensures Successes(events, k) == 0
    ensures (k in Replay(rows, events) <==> k in rows) && (k in rows ==> Replay(rows, events)[k] == rows[k])
  {
    if events != [] {
      NoneWithoutEvents(rows, events[..|events| - 1], k);
    }
  }

  lemma {:induction false} RowStays(rows: Rows, events: seq<Event>, k: Key)
    requires k in rows || BeganIn(events, k)
    ensures k in Replay(rows, events)
  {
    if events != [] {
      var rest := events[..|events| - 1];
      if k in rows || BeganIn(rest, k) {
        RowStays(rows, rest, k);
      } else {
        assert events == rest + [events[|events| - 1]];
      }
    }
  }

  /** One life performs a step successfully at most once; and unless it was cut in the window, the step
      is done in the journal it leaves. */
  lemma {:induction false} LifeOnce(rows: Rows, events: seq<Event>, k: Key)
    requires Orderly(rows, events) && NoReuse(events)
    ensures Successes(events, k) <= 1
    ensures Successes(events, k) == 1 ==> CutInWindow(events, k) || IsDone(Replay(rows, events), k)
    ensures CutInWindow(events, k) ==> Successes(events, k) == 1
    decreases |events|
  {
    if events != [] {
      var n := |events| - 1;
      var rest, e := events[..n], events[n];
      CutIsOrderly(rows, events, n);
      LifeOnce(rows, rest, k);
      if e == Performed(k, true) {
        FirstSuccess(rows, events, k);
      } else if CutInWindow(rest, k) {
        assert e.Finished? && e.key == k && e.ok;
        RowStays(rows, rest, k);
      } else if IsDone(Replay(rows, rest), k) && e.key == k {
        DoneWasFinished(rows, rest, k);
      }
    }
  }

  /** A step that is done after an orderly run was done before it, or was finished by it. */
  lemma {:induction false} DoneWasFinished(rows: Rows, events: seq<Event>, k: Key)
    requires IsDone(Replay(rows, events), k)
    ensures IsDone(rows, k)
         || exists i :: 0 <= i < |events| && events[i].Finished? && events[i].ok && events[i].key == k
  {
    if events != [] && !IsDone(rows, k) {
      var n := |events| - 1;
      if !(events[n].Finished? && events[n].ok && events[n].key == k) {
        DoneWasFinished(rows, events[..n], k);
        var i :| 0 <= i < n && events[i].Finished? && events[i].ok && events[i].key == k;
      }
    }
  }

  lemma FirstSuccess(rows: Rows, events: seq<Event>, k: Key)
    requires Orderly(rows, events) && NoReuse(events) && CutInWindow(events, k)
    ensures Successes(events[..|events| - 1], k) == 0
  {
    var n := |events| - 1;
    NoSuccessBefore(rows, events, k, n);
  }

  lemma {:induction false} NoSuccessBefore(rows: Rows, events: seq<Event>, k: Key, n: nat)
    requires Orderly(rows, events) && NoReuse(events) && CutInWindow(events, k) && n < |events|
    ensures Successes(events[..n], k) == 0
  {
    if n > 0 {
      NoSuccessBefore(rows, events, k, n - 1);
      assert events[..n][..n - 1] == events[..n - 1];
    }
  }

  lemma {:induction false} ReplayAppend(rows: Rows, first: seq<Event>, second: seq<Event>)
    ensures Replay(rows, first + second) == Replay(Replay(rows, first), second)
  {
    if second == [] {
      assert first + second == first;
    } else {
      var n := |second| - 1;
      ReplayAppend(rows, first, second[..n]);
      assert (first + second)[..|first| + n] == first + second[..n];
    }
  }

  // ------------------------------------------------------------------------ what a row says

  /** How often the step was started. */
  function Tries(events: seq<Event>, k: Key): nat
  {
    if events == [] then 0
    else
      var e := events[|events| - 1];
      Tries(events[..|events| - 1], k) + if e.Started? && e.key == k then 1 else 0
  }

  /** The last event that the journal was told of the step. */
  function LastTold(events: seq<Event>, k: Key): Option<Event>
  {
    if events == [] then None
    else
      var e := events[|events| - 1];
      if e.key == k && !e.Performed? then Some(e) else LastTold(events[..|events| - 1], k)
  }

  /** The value it was finished with last. */
  function LastValue(events: seq<Event>, k: Key): Option<Value>
  {
    if events == [] then None
    else
      var e := events[|events| - 1];
      if e.key == k && e.Finished? then Some(e.value) else LastValue(events[..|events| - 1], k)
  }

  /** The row after these events, told apart from the way the table is kept. */
  ghost predicate RowSays(was: Option<Row>, events: seq<Event>, k: Key, row: Row)
  {
    && row.attempts == (if was.Some? then was.value.attempts else 0) + Tries(events, k)
    && row.result == (match LastValue(events, k)
                      case Some(v) => Some(v)
                      case None => if was.Some? then was.value.result else None)
    && match LastTold(events, k)
       case None => was.Some? && row.state == was.value.state
       case Some(Finished(_, ok, _)) => row.state == if ok then Done else Failed
       case Some(_) => row.state.Running?
  }

  lemma PrefixJustified(events: seq<Event>, n: nat)
    requires Justified(events) && n <= |events|
    ensures Justified(events[..n])
  {
    forall i | 0 <= i < n && events[i].Finished?
      ensures events[..n][..i] == events[..i]
    {
    }
  }

  /** The row of a step counts its starts, has the value it was finished with last, and says whether it is under way,
      done or failed as the journal was last told. */
  lemma {:induction false} RowMeans(rows: Rows, events: seq<Event>, k: Key)
    requires Justified(events)
    ensures k in Replay(rows, events) ==>
              RowSays(if k in rows then Some(rows[k]) else None, events, k, Replay(rows, events)[k])
    ensures k !in Replay(rows, events) ==> Tries(events, k) == 0 && LastTold(events, k).None?
    ensures k !in Replay(rows, events) ==> LastValue(events, k).None? && k !in rows
  {
    if events != [] {
      var n := |events| - 1;
      PrefixJustified(events, n);
      RowMeans(rows, events[..n], k);
      if events[n].Finished? && events[n].key == k {
        RowStays(rows, events[..n], k);
      }
    }
  }

  // ---------------------------------------------------------------------- many lives

  /** One life: the run it would have made, and after how many of its events the process died. */
  datatype Life = Life(events: seq<Event>, cut: nat, recovered: bool) {
    function Seen(): seq<Event>
      requires cut <= |events|
    {
      events[..cut]
    }
  }

  /** The table a life starts from: recovery resets the steps that were running, resuming does not. */
  function Opened(rows: Rows, life: Life): Rows { if life.recovered then ResetRunning(rows) else rows }

  /** Recovery puts every step that was caught under way back to waiting, and nothing else changes. */
  lemma OpenedMeans(rows: Rows, life: Life, k: Key)
    ensures k in Opened(rows, life) <==> k in rows
    ensures k in rows ==>
              var row := Opened(rows, life)[k];
              && row == rows[k].(state := row.state)
              && (row.state == rows[k].state || (life.recovered && rows[k].state.Running? && row.state.Pending?))
              && (life.recovered ==> !row.state.Running?)
  {
  }

  /** Every life is an orderly, well-keyed run over the table the previous ones left. */
  ghost predicate History(rows: Rows, lives: seq<Life>)
  {
    lives == [] ||
    (var n := |lives| - 1;
     && lives[n].cut <= |lives[n].events|
     && History(rows, lives[..n])
     && Orderly(Opened(TableAfter(rows, lives[..n]), lives[n]), lives[n].events)
     && NoReuse(lives[n].events))
  }

  ghost function TableAfter(rows: Rows, lives: seq<Life>): Rows
  {
    if lives == [] then rows
    else
      var n := |lives| - 1;
      var life := lives[n];
      var start := Opened(TableAfter(rows, lives[..n]), life);
      if life.cut <= |life.events| then Replay(start, life.Seen()) else start
  }

  function TotalSuccesses(lives: seq<Life>, k: Key): nat
    requires forall i | 0 <= i < |lives| :: lives[i].cut <= |lives[i].events|
  {
    if lives == [] then 0
    else TotalSuccesses(lives[..|lives| - 1], k) + Successes(lives[|lives| - 1].Seen(), k)
  }

  /** The lives that died between the success of `k` and its journal row. */
  function Windows(lives: seq<Life>, k: Key): nat
    requires forall i | 0 <= i < |lives| :: lives[i].cut <= |lives[i].events|
  {
    if lives == [] then 0
    else Windows(lives[..|lives| - 1], k) + if CutInWindow(lives[|lives| - 1].Seen(), k) then 1 else 0
  }

  lemma {:induction false} CutsFit(rows: Rows, lives: seq<Life>)
    requires History(rows, lives)
    ensures forall i | 0 <= i < |lives| :: lives[i].cut <= |lives[i].events|
  {
    if lives != [] {
      CutsFit(rows, lives[..|lives| - 1]);
    }
  }

  /** Over any number of lives and crashes a step succeeds at most once, plus once for every crash that
      fell between its success and its journal row; once it is done it never runs again. */
  lemma {:induction false} AtMostOncePlusCrashes(rows: Rows, lives: seq<Life>, k: Key)
    requires History(rows, lives)
    ensures forall i | 0 <= i < |lives| :: lives[i].cut <= |lives[i].events|
    ensures TotalSuccesses(lives, k) <= Windows(lives, k) + if IsDone(TableAfter(rows, lives), k) then 1 else 0
    ensures IsDone(rows, k) ==> TotalSuccesses(lives, k) == 0
    ensures IsDone(rows, k) ==> k in TableAfter(rows, lives) && TableAfter(rows, lives)[k] == rows[k]
  {
    CutsFit(rows, lives);
    if lives != [] {
      var n := |lives| - 1;
      var life := lives[n];
      AtMostOncePlusCrashes(rows, lives[..n], k);
      var start := Opened(TableAfter(rows, lives[..n]), life);
      CutIsOrderly(start, life.events, life.cut);
      if IsDone(start, k) {
        NoneWithoutEvents(start, life.Seen(), k);
        assert !CutInWindow(life.Seen(), k);
      } else {
        LifeOnce(start, life.Seen(), k);
      }
    }
  }

  lemma {:induction false} HistoryPrefix(rows: Rows, lives: seq<Life>, i: nat)
    requires History(rows, lives) && i <= |lives|
    ensures History(rows, lives[..i])
  {
    if i < |lives| {
      HistoryPrefix(rows, lives[..|lives| - 1], i);
      assert lives[..|lives| - 1][..i] == lives[..i];
    } else {
      assert lives[..i] == lives;
    }
  }

  /** A step that is done keeps its row, result and all, through every later life, and no later life
      starts, performs or finishes it. */
  lemma {:induction false} DoneStays(rows: Rows, lives: seq<Life>, i: nat, k: Key)
    requires History(rows, lives) && i <= |lives| && IsDone(TableAfter(rows, lives[..i]), k)
    ensures k in TableAfter(rows, lives) && TableAfter(rows, lives)[k] == TableAfter(rows, lives[..i])[k]
    ensures forall j | i <= j < |lives| :: Avoids(lives[j].events, k)
  {
    if i == |lives| {
      assert lives[..i] == lives;
    } else {
      var n := |lives| - 1;
      assert lives[..n][..i] == lives[..i];
      DoneStays(rows, lives[..n], i, k);
      DoneAvoided(TableAfter(rows, lives[..n]), lives[n], k);
      forall j | i <= j < |lives|
        ensures Avoids(lives[j].events, k)
      {
        if j < n {
          assert lives[..n][j] == lives[j];
        }
      }
    }
  }

  ghost predicate Avoids(events: seq<Event>, k: Key) { forall m | 0 <= m < |events| :: events[m].key != k }

  lemma DoneAvoided(rows: Rows, life: Life, k: Key)
    requires IsDone(rows, k) && life.cut <= |life.events| && Orderly(Opened(rows, life), life.events)
    ensures Avoids(life.events, k)
    ensures var start, after := Opened(rows, life), Replay(Opened(rows, life), life.Seen());
            k in after && k in start && start[k] == rows[k] == after[k]
  {
    NoneWithoutEvents(Opened(rows, life), life.Seen(), k);
  }
}
