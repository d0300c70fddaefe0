/** When a run of the loop performs no step twice (agent/loop.py, agent/goal.py): the exact condition on what the
    planner answers, and a run that does perform one twice. */
module LoopRuns {
  import opened Options
  import opened Journals
  import opened Lives
  import opened LoopProofs
  import opened LoopSpec
  import opened Rekey

  // ---------------------------------------------------------------- what a run performed

  /** The keys of the actions that succeeded, in order. */
  function Succeeded(events: seq<Event>): seq<Key>
  {
    if events == [] then []
    else
      var e := events[|events| - 1];
      Succeeded(events[..|events| - 1]) + if e.Performed? && e.ok then [e.key] else []
  }

  lemma {:induction false} SucceededConcat(a: seq<Event>, b: seq<Event>)
    ensures Succeeded(a + b) == Succeeded(a) + Succeeded(b)
  {
    if b == [] {
      assert a + b == a;
    } else {
      SucceededConcat(a, b[..|b| - 1]);
      assert (a + b)[..|a + b| - 1] == a + b[..|b| - 1];
    }
  }

  lemma {:induction false} NoneSucceeded(events: seq<Event>)
    requires forall i | 0 <= i < |events| :: !(events[i].Performed? && events[i].ok)
    ensures Succeeded(events) == []
  {
    if events != [] {
      NoneSucceeded(events[..|events| - 1]);
    }
  }

  /** An executed step succeeds once or not at all. */
  lemma StepSucceeds(k: Key, events: seq<Event>, result: Option<ActionResult>)
    requires StepEvents(k, events, result)
    ensures Succeeded(events) == if result.Some? && result.value.ok then [k] else []
  {
    var n := |events|;
    if result.None? || !result.value.ok {
      NoneSucceeded(events);
    } else {
      NoneSucceeded(events[..n - 2]);
      LastTwo(events);
    }
  }

  lemma LastTwo(events: seq<Event>)
    requires |events| >= 2 && !events[|events| - 1].Performed? && Succeeded(events[..|events| - 2]) == []
    ensures var e := events[|events| - 2]; Succeeded(events) == if e.Performed? && e.ok then [e.key] else []
  {
    assert events[..|events| - 1][..|events| - 2] == events[..|events| - 2];
  }

  /** No key succeeded twice. */
  lemma {:induction false} SucceededOnceIff(events: seq<Event>)
    ensures forall k :: Successes(events, k) == multiset(Succeeded(events))[k]
    ensures Unique(Succeeded(events)) <==> forall k :: Successes(events, k) <= 1
  {
    SuccessesCount(events);
    UniqueMeans(Succeeded(events));
  }

  lemma {:induction false} SuccessesCount(events: seq<Event>)
    ensures forall k :: Successes(events, k) == multiset(Succeeded(events))[k]
  {
    if events != [] {
      SuccessesCount(events[..|events| - 1]);
    }
  }

  lemma {:induction false} UniqueMeans(keys: seq<Key>)
    ensures Unique(keys) <==> forall k :: multiset(keys)[k] <= 1
  {
    if keys != [] {
      var rest, last := keys[..|keys| - 1], keys[|keys| - 1];
      UniqueMeans(rest);
      assert keys == rest + [last];
      if Unique(keys) {
        assert last !in rest;
      } else if Unique(rest) {
        assert multiset(keys)[last] >= 2;
      } else {
        var k :| multiset(rest)[k] > 1;
        assert multiset(keys)[k] > 1;
      }
    }
  }

  // --------------------------------------------------------- what the planner's answers allow

  /** What becomes of a plan when the step at an index fails for good and so many repairs were asked for. */
  type Mending = (Plan, nat, nat) -> Option<Plan>

  function Mended(repair: nat -> Option<Plan>): Mending
  {
    (plan: Plan, at: nat, ask: nat) =>
      if at < |plan.steps| && !plan.steps[at].optional && ask < MAX_REPLANS && Repairs(repair, ask) then
        Some(Repaired(repair, plan, at, ask))
      else None
  }

  /** The keys that succeed from the step `start` of a plan on, if the steps of `path` fail, one plan after
      another, and all others succeed; nothing if the run cannot go that way. */
  function Trail(mend: Mending, plan: Plan, start: nat, ask: nat, path: seq<nat>): Option<seq<Key>>
    decreases |path|
  {
    if start > |plan.steps| then None
    else if path == [] then Some(Keys(plan.steps)[start..])
    else if !(start <= path[0] < |plan.steps|) || mend(plan, path[0], ask).None? then None
    else Prepended(Keys(plan.steps)[start..path[0]],
                   Trail(mend, mend(plan, path[0], ask).value, path[0], ask + 1, path[1..]))
  }

  function Prepended(keys: seq<Key>, trail: Option<seq<Key>>): Option<seq<Key>>
  {
    if trail.Some? then Some(keys + trail.value) else None
  }

  predicate NoRepeat(before: seq<Key>, trail: Option<seq<Key>>) { trail.Some? ==> Unique(before + trail.value) }

  /** Along this path no key comes twice or was among those `before`. */
  predicate FreshOn(mend: Mending, plan: Plan, start: nat, ask: nat, before: seq<Key>, path: seq<nat>)
  {
    NoRepeat(before, Trail(mend, plan, start, ask, path))
  }

  /** Whatever way is taken from here, no key comes twice or was among those `before`. */
  ghost predicate FreshFrom(mend: Mending, plan: Plan, start: nat, ask: nat, before: seq<Key>)
  {
    forall path :: FreshOn(mend, plan, start, ask, before, path)
  }

  /** The planner never gives a step the key of one that may have succeeded before it in the same run. */
  ghost predicate Fresh(planning: Planning, repair: nat -> Option<Plan>)
  {
    Open(planning).Planned? ==> FreshFrom(Mended(repair), Open(planning).plan, 0, 0, [])
  }

  lemma TrailNext(mend: Mending, plan: Plan, start: nat, ask: nat, path: seq<nat>)
    requires start < |plan.steps| && (path != [] ==> path[0] != start)
    ensures Trail(mend, plan, start, ask, path)
         == Prepended([plan.steps[start].key], Trail(mend, plan, start + 1, ask, path))
  {
    var keys, key := Keys(plan.steps), plan.steps[start].key;
    if path == [] {
      assert keys[start..] == [key] + keys[start + 1..];
    } else if start < path[0] < |plan.steps| && mend(plan, path[0], ask).Some? {
      var rest := Trail(mend, mend(plan, path[0], ask).value, path[0], ask + 1, path[1..]);
      assert keys[start..path[0]] == [key] + keys[start + 1..path[0]];
      PrependedTwice([key], keys[start + 1..path[0]], rest);
    }
  }

  lemma PrependedTwice(a: seq<Key>, b: seq<Key>, trail: Option<seq<Key>>)
    ensures Prepended(a, Prepended(b, trail)) == Prepended(a + b, trail)
  {
    if trail.Some? {
      assert a + (b + trail.value) == (a + b) + trail.value;
    }
  }

  lemma TrailMended(mend: Mending, plan: Plan, start: nat, ask: nat, path: seq<nat>, after: Plan)
    requires start < |plan.steps| && path != [] && path[0] == start && mend(plan, start, ask) == Some(after)
    ensures Trail(mend, plan, start, ask, path) == Trail(mend, after, start, ask + 1, path[1..])
  {
    var rest := Trail(mend, after, start, ask + 1, path[1..]);
    if rest.Some? {
      assert Keys(plan.steps)[start..start] + rest.value == rest.value;
    }
  }

  // --------------------------------------------------------------- fresh plans repeat nothing

  lemma UniquePrefix(a: seq<Key>, b: seq<Key>)
    requires Unique(a + b)
    ensures Unique(a)
  {
    assert forall i | 0 <= i < |a| :: (a + b)[i] == a[i];
  }

  lemma FreshNow(mend: Mending, plan: Plan, start: nat, ask: nat, before: seq<Key>)
    requires start < |plan.steps| && FreshFrom(mend, plan, start, ask, before)
    ensures Unique(before + [plan.steps[start].key])
  {
    var keys, key := Keys(plan.steps), plan.steps[start].key;
    assert FreshOn(mend, plan, start, ask, before, []);
    assert before + keys[start..] == (before + [key]) + keys[start + 1..];
    UniquePrefix(before + [key], keys[start + 1..]);
  }

  lemma FreshNext(mend: Mending, plan: Plan, start: nat, ask: nat, before: seq<Key>)
    requires start < |plan.steps| && FreshFrom(mend, plan, start, ask, before)
    ensures FreshFrom(mend, plan, start + 1, ask, before + [plan.steps[start].key])
  {
    var next, more := start + 1, before + [plan.steps[start].key];
    forall path: seq<nat>
      ensures FreshOn(mend, plan, next, ask, more, path)
    {
      if path == [] || path[0] != start {
        assert FreshOn(mend, plan, start, ask, before, path);
        TrailNext(mend, plan, start, ask, path);
        NoRepeatNext(before, plan.steps[start].key, Trail(mend, plan, next, ask, path));
      }
    }
  }

  lemma NoRepeatNext(before: seq<Key>, key: Key, trail: Option<seq<Key>>)
    requires NoRepeat(before, Prepended([key], trail))
    ensures NoRepeat(before + [key], trail)
  {
    if trail.Some? {
      assert before + ([key] + trail.value) == (before + [key]) + trail.value;
    }
  }

  lemma FreshMended(mend: Mending, plan: Plan, start: nat, ask: nat, before: seq<Key>, after: Plan)
    requires start < |plan.steps| && FreshFrom(mend, plan, start, ask, before)
    requires mend(plan, start, ask) == Some(after)
    ensures FreshFrom(mend, after, start, ask + 1, before)
  {
    var next := ask + 1;
    forall path: seq<nat>
      ensures FreshOn(mend, after, start, next, before, path)
    {
      assert FreshOn(mend, plan, start, ask, before, [start] + path);
      TrailMended(mend, plan, start, ask, [start] + path, after);
      assert ([start] + path)[1..] == path;
    }
  }

  /** The keys are pairwise distinct and all among those `before`. */
  predicate Within(keys: seq<Key>, before: seq<Key>) { Unique(keys) && forall k | k in keys :: k in before }

  lemma NewKey(keys: seq<Key>, before: seq<Key>, key: Key)
    requires Within(keys, before) && Unique(before + [key])
    ensures Within(keys, before + [key]) && Within(keys + [key], before + [key])
  {
    forall i | 0 <= i < |keys|
      ensures keys[i] != key
    {
      assert keys[i] in keys;
      var j :| 0 <= j < |before| && before[j] == keys[i];
      assert (before + [key])[j] != (before + [key])[|before|];
    }
  }

  /** What a turn makes of the plan: the next step of the same plan, or the same place in a mended one. */
  predicate Moved(mend: Mending, now: Progress, next: Progress)
  {
    || (next.replans == now.replans && next.plan == now.plan && next.index == now.index + 1)
    || (next.replans == now.replans + 1 && next.index == now.index
        && mend(now.plan, now.index, now.replans) == Some(next.plan))
  }

  lemma TurnMoves(world: World, rows: Rows, now: Progress, from: nat, turned: Turned)
    requires now.index < |now.plan.steps| && turned == Turn(world, rows, now, from) && turned.exit.Continue?
    ensures Moved(Mended(world.repair), now, turned.next)
  {
  }

  /** The keys that may have succeeded once a turn is over. */
  function After(now: Progress, next: Progress, before: seq<Key>): seq<Key>
    requires now.index < |now.plan.steps|
  {
    if next.replans == now.replans then before + [now.plan.steps[now.index].key] else before
  }

  ghost predicate FreshAt(mend: Mending, now: Progress, before: seq<Key>)
  {
    FreshFrom(mend, now.plan, now.index, now.replans, before)
  }

  lemma FreshTurn(mend: Mending, now: Progress, next: Progress, before: seq<Key>)
    requires FreshAt(mend, now, before) && now.index < |now.plan.steps| && Moved(mend, now, next)
    ensures FreshAt(mend, next, After(now, next, before))
  {
    if next.replans == now.replans {
      FreshNext(mend, now.plan, now.index, now.replans, before);
    } else {
      FreshMended(mend, now.plan, now.index, now.replans, before, next.plan);
    }
  }

  lemma EventsSucceed(before: seq<Event>, k: Key, events: seq<Event>, result: Option<ActionResult>)
    requires StepEvents(k, events, result)
    ensures Succeeded(before + events)
         == if result.Some? && result.value.ok then Succeeded(before) + [k] else Succeeded(before)
  {
    SucceededConcat(before, events);
    StepSucceeds(k, events, result);
  }

  /** What a turn adds to the successes: at most the key of the step, and nothing if the plan was replaced. */
  lemma TurnSucceeds(world: World, rows: Rows, now: Progress, from: nat, turned: Turned)
    requires now.index < |now.plan.steps| && turned == Turn(world, rows, now, from)
    ensures var keys, key := Succeeded(now.events), now.plan.steps[now.index].key;
            || Succeeded(turned.next.events) == keys
            || (Succeeded(turned.next.events) == keys + [key] && turned.next.replans == now.replans)
  {
    var key := now.plan.steps[now.index].key;
    if !IsDone(rows, key) {
      var done := StepOf(world, now.plan.steps[now.index], from);
      StepMeans(world, now.plan.steps[now.index], from);
      EventsSucceed(now.events, key, done.events, ResultOf(done.reply));
    }
  }

  lemma WithinTurn(world: World, rows: Rows, now: Progress, from: nat, before: seq<Key>, turned: Turned)
    requires now.index < |now.plan.steps| && Unique(before + [now.plan.steps[now.index].key])
    requires Within(Succeeded(now.events), before) && turned == Turn(world, rows, now, from)
    ensures Unique(Succeeded(turned.next.events))
    ensures turned.exit.Continue? ==> Within(Succeeded(turned.next.events), After(now, turned.next, before))
  {
    TurnSucceeds(world, rows, now, from, turned);
    NewKey(Succeeded(now.events), before, now.plan.steps[now.index].key);
  }

  lemma {:induction false} FreshWork(world: World, rows: Rows, now: Progress, from: nat, before: seq<Key>, done: Turned)
    requires now.replans <= MAX_REPLANS && done == WorkOf(world, rows, now, from)
    requires FreshAt(Mended(world.repair), now, before) && Within(Succeeded(now.events), before)
    ensures Unique(Succeeded(done.next.events))
    decreases MAX_REPLANS - now.replans, |now.plan.steps| - now.index
  {
    if now.index < |now.plan.steps| {
      var turned := Turn(world, rows, now, from);
      FreshNow(Mended(world.repair), now.plan, now.index, now.replans, before);
      WithinTurn(world, rows, now, from, before, turned);
      if turned.exit.Continue? {
        TurnMoves(world, rows, now, from, turned);
        FreshTurn(Mended(world.repair), now, turned.next, before);
        FreshWork(world, rows, turned.next, turned.performs, After(now, turned.next, before), done);
      }
    }
  }

  // ----------------------------------------------------------------- every path has its run

  const SUCCESS := Returned(Result(true, false, ""))
  const FAILURE := Returned(Result(false, false, ""))

  /** The replies that make a run take a path, as of the answer `from` for the step `start`. */
  function ReplyAt(path: seq<nat>, start: nat, from: nat, m: nat): Reply
    decreases |path|
  {
    if path == [] || path[0] < start || m + start < from + path[0] then SUCCESS
    else if m + start == from + path[0] then FAILURE
    else ReplyAt(path[1..], path[0], from + (path[0] - start) + 1, m)
  }

  /** The answers from `from` on make the run take a path. */
  ghost predicate Leads(perform: nat -> Reply, path: seq<nat>, start: nat, from: nat)
  {
    forall m | m >= from :: perform(m) == ReplyAt(path, start, from, m)
  }

  lemma LeadsOn(perform: nat -> Reply, path: seq<nat>, start: nat, from: nat)
    requires Leads(perform, path, start, from) && (path != [] ==> path[0] != start)
    ensures perform(from) == SUCCESS && Leads(perform, path, start + 1, from + 1)
  {
    assert perform(from) == ReplyAt(path, start, from, from);
    forall m | m >= from + 1
      ensures perform(m) == ReplyAt(path, start + 1, from + 1, m)
    {
      assert perform(m) == ReplyAt(path, start, from, m);
    }
  }

  lemma LeadsAside(perform: nat -> Reply, path: seq<nat>, start: nat, from: nat)
    requires Leads(perform, path, start, from) && path != [] && path[0] == start
    ensures perform(from) == FAILURE && Leads(perform, path[1..], start, from + 1)
  {
    assert perform(from) == ReplyAt(path, start, from, from);
    forall m | m >= from + 1
      ensures perform(m) == ReplyAt(path[1..], start, from + 1, m)
    {
      assert perform(m) == ReplyAt(path, start, from, m);
    }
  }

  /** The events of a step that is tried once. */
  function StepTrace(step: Step, ok: bool): seq<Event>
  {
    [Started(step.key, step.Does()), Performed(step.key, ok), Finished(step.key, ok, "")]
  }

  /** A step that succeeds at once: the loop moves on in the same plan. */
  lemma SucceedingStep(world: World, rows: Rows, now: Progress, from: nat, turned: Turned)
    requires now.index < |now.plan.steps| && world.perform(from) == SUCCESS
    requires !IsDone(rows, now.plan.steps[now.index].key) && turned == Turn(world, rows, now, from)
    ensures turned.exit.Continue? && turned.performs == from + 1
    ensures turned.next.plan == now.plan && turned.next.index == now.index + 1 && turned.next.replans == now.replans
    ensures turned.next.events == now.events + StepTrace(now.plan.steps[now.index], true)
    ensures Succeeded(turned.next.events) == Succeeded(now.events) + [now.plan.steps[now.index].key]
  {
    var step := now.plan.steps[now.index];
    var key, done := step.key, StepOf(world, step, from);
    assert done == Tried(SUCCESS, StepTrace(step, true), from + 1);
    EventsSucceed(now.events, key, done.events, Some(SUCCESS.result));
  }

  /** A step that fails for good where a repair is found: the loop goes on with the mended plan. */
  lemma FailingStep(world: World, rows: Rows, now: Progress, from: nat, after: Plan, turned: Turned)
    requires now.index < |now.plan.steps| && world.perform(from) == FAILURE
    requires Mended(world.repair)(now.plan, now.index, now.replans) == Some(after)
    requires !IsDone(rows, now.plan.steps[now.index].key) && turned == Turn(world, rows, now, from)
    ensures turned.exit.Continue? && turned.performs == from + 1
    ensures turned.next.plan == after && turned.next.index == now.index && turned.next.replans == now.replans + 1
    ensures turned.next.events == now.events + StepTrace(now.plan.steps[now.index], false)
    ensures Succeeded(turned.next.events) == Succeeded(now.events)
  {
    var step := now.plan.steps[now.index];
    var key, done := step.key, StepOf(world, step, from);
    assert done == Tried(FAILURE, StepTrace(step, false), from + 1);
    EventsSucceed(now.events, key, done.events, Some(FAILURE.result));
  }

  /** The run is on a path: the answers lead along it, and what succeeded and what is still to succeed make
      up `all`. */
  ghost predicate OnPath(mend: Mending, perform: nat -> Reply, now: Progress, from: nat, path: seq<nat>, all: seq<Key>)
  {
    && Leads(perform, path, now.index, from)
    && Completes(Succeeded(now.events), Trail(mend, now.plan, now.index, now.replans, path), all)
  }

  predicate Completes(keys: seq<Key>, trail: Option<seq<Key>>, all: seq<Key>)
  {
    trail.Some? && keys + trail.value == all
  }

  lemma CompletesNext(keys: seq<Key>, key: Key, trail: Option<seq<Key>>, all: seq<Key>)
    requires Completes(keys, Prepended([key], trail), all)
    ensures Completes(keys + [key], trail, all)
  {
    assert keys + ([key] + trail.value) == (keys + [key]) + trail.value;
  }

  lemma PathAside(mend: Mending, perform: nat -> Reply, now: Progress, from: nat, path: seq<nat>, all: seq<Key>,
                  next: Progress)
    requires OnPath(mend, perform, now, from, path, all) && now.index < |now.plan.steps|
    requires path != [] && path[0] == now.index && mend(now.plan, now.index, now.replans) == Some(next.plan)
    requires next.index == now.index && next.replans == now.replans + 1
    requires Succeeded(next.events) == Succeeded(now.events)
    ensures OnPath(mend, perform, next, from + 1, path[1..], all)
  {
    LeadsAside(perform, path, now.index, from);
    TrailMended(mend, now.plan, now.index, now.replans, path, next.plan);
  }

  lemma PathOn(mend: Mending, perform: nat -> Reply, now: Progress, from: nat, path: seq<nat>, all: seq<Key>,
               next: Progress)
    requires OnPath(mend, perform, now, from, path, all) && now.index < |now.plan.steps|
    requires path != [] ==> path[0] != now.index
    requires next.index == now.index + 1 && next.replans == now.replans && next.plan == now.plan
    requires Succeeded(next.events) == Succeeded(now.events) + [now.plan.steps[now.index].key]
    ensures OnPath(mend, perform, next, from + 1, path, all)
  {
    LeadsOn(perform, path, now.index, from);
    TrailNext(mend, now.plan, now.index, now.replans, path);
    CompletesNext(Succeeded(now.events), now.plan.steps[now.index].key,
                  Trail(mend, now.plan, now.index + 1, now.replans, path), all);
  }

  lemma PathTurn(world: World, now: Progress, from: nat, path: seq<nat>, all: seq<Key>, turned: Turned)
    returns (rest: seq<nat>)
    requires now.index < |now.plan.steps| && turned == Turn(world, map[], now, from)
    requires OnPath(Mended(world.repair), world.perform, now, from, path, all)
    ensures turned.exit.Continue? && turned.performs == from + 1
    ensures OnPath(Mended(world.repair), world.perform, turned.next, from + 1, rest, all)
  {
    var mend := Mended(world.repair);
    if path != [] && path[0] == now.index {
      rest := path[1..];
      LeadsAside(world.perform, path, now.index, from);
      FailingStep(world, map[], now, from, mend(now.plan, now.index, now.replans).value, turned);
      PathAside(mend, world.perform, now, from, path, all, turned.next);
    } else {
      rest := path;
      LeadsOn(world.perform, path, now.index, from);
      SucceedingStep(world, map[], now, from, turned);
      PathOn(mend, world.perform, now, from, path, all, turned.next);
    }
  }

  /** A run with these answers succeeds with exactly the keys of the path. */
  lemma {:induction false} PathRuns(world: World, now: Progress, from: nat, path: seq<nat>, all: seq<Key>, done: Turned)
    requires now.replans <= MAX_REPLANS && done == WorkOf(world, map[], now, from)
    requires OnPath(Mended(world.repair), world.perform, now, from, path, all)
    ensures Succeeded(done.next.events) == all
    decreases MAX_REPLANS - now.replans, |now.plan.steps| - now.index
  {
    if now.index < |now.plan.steps| {
      var turned := Turn(world, map[], now, from);
      var rest := PathTurn(world, now, from, path, all, turned);
      PathRuns(world, turned.next, from + 1, rest, all, done);
    } else {
      assert path == [] && Keys(now.plan.steps)[now.index..] == [];
    }
  }

  // ---------------------------------------------------------------------------- the theorem

  /** With these answers of the runtime, and over this table, no step of the run succeeds twice. */
  ghost predicate RunsOnce(world: World, perform: nat -> Reply, rows: Rows)
  {
    Unique(Succeeded(RunOf(world.(perform := perform), rows, 0).events))
  }

  /** No step of a run succeeds twice, whatever the runtime answers and whatever was done before, if and only
      if the planner's answers are fresh. */
  lemma NoStepSucceedsTwiceIff(world: World)
    ensures (forall perform, rows :: RunsOnce(world, perform, rows)) <==> Fresh(world.plan, world.repair)
  {
    if Fresh(world.plan, world.repair) {
      forall perform, rows
        ensures RunsOnce(world, perform, rows)
      {
        FreshRun(world.(perform := perform), rows);
      }
    } else {
      var path :| !FreshOn(Mended(world.repair), Open(world.plan).plan, 0, 0, [], path);
      var perform := RepeatingRun(world, Open(world.plan).plan, path);
      assert !RunsOnce(world, perform, map[]);
    }
  }

  lemma FreshRun(world: World, rows: Rows)
    requires Fresh(world.plan, world.repair)
    ensures Unique(Succeeded(RunOf(world, rows, 0).events))
  {
    if Open(world.plan).Planned? {
      var first := Open(world.plan).plan;
      FreshWork(world, rows, Begun(first), 0, [], WorkOf(world, rows, Begun(first), 0));
    }
  }

  lemma RepeatingRun(world: World, first: Plan, path: seq<nat>) returns (perform: nat -> Reply)
    requires Open(world.plan) == Planned(first) && !FreshOn(Mended(world.repair), first, 0, 0, [], path)
    ensures !RunsOnce(world, perform, map[])
  {
    perform := (m: nat) => ReplyAt(path, 0, 0, m);
    var w := world.(perform := perform);
    var trail := Trail(Mended(world.repair), first, 0, 0, path);
    assert [] + trail.value == trail.value;
    PathRuns(w, Begun(first), 0, path, trail.value, WorkOf(w, map[], Begun(first), 0));
  }

  /** Every plan that the loop can come to from here is well keyed. */
  ghost predicate KeyedAhead(mend: Mending, plan: Plan, start: nat, ask: nat)
    decreases MAX_REPLANS - ask
  {
    && WellKeyed(plan)
    && (ask < MAX_REPLANS ==>
          forall i | start <= i < |plan.steps| && mend(plan, i, ask).Some? ::
            KeyedAhead(mend, mend(plan, i, ask).value, i, ask + 1))
  }

  /** A mending leaves the keys of the steps before its place alone. */
  predicate SameBefore(plan: Plan, at: nat, after: Plan)
  {
    at <= |plan.steps| && at <= |after.steps| && Keys(after.steps)[..at] == Keys(plan.steps)[..at]
  }

  ghost predicate Keeping(mend: Mending)
  {
    forall plan, at: nat, ask: nat | WellKeyed(plan) && mend(plan, at, ask).Some? ::
      ask < MAX_REPLANS && SameBefore(plan, at, mend(plan, at, ask).value)
  }

  lemma MendedKeeps(repair: nat -> Option<Plan>)
    ensures Keeping(Mended(repair))
  {
    forall plan, at: nat, ask: nat | WellKeyed(plan) && Mended(repair)(plan, at, ask).Some?
      ensures ask < MAX_REPLANS && SameBefore(plan, at, Mended(repair)(plan, at, ask).value)
    {
      SplicedKeepsKeys(plan, at, Sanitised(repair(ask).value));
    }
  }

  lemma NoRepeatAll(before: seq<Key>, keys: seq<Key>, trail: Option<seq<Key>>)
    requires NoRepeat(before + keys, trail)
    ensures NoRepeat(before, Prepended(keys, trail))
  {
    if trail.Some? {
      assert before + (keys + trail.value) == (before + keys) + trail.value;
    }
  }

  /** Along this path no key comes twice or is the key of a step behind the loop. */
  predicate FreshBehind(mend: Mending, plan: Plan, start: nat, ask: nat, path: seq<nat>)
  {
    start <= |plan.steps| ==> FreshOn(mend, plan, start, ask, Keys(plan.steps)[..start], path)
  }

  lemma FreshThrough(mend: Mending, plan: Plan, start: nat, ask: nat, path: seq<nat>, after: Plan)
    requires path != [] && start <= path[0] < |plan.steps| && mend(plan, path[0], ask) == Some(after)
    requires SameBefore(plan, path[0], after) && FreshBehind(mend, after, path[0], ask + 1, path[1..])
    ensures FreshBehind(mend, plan, start, ask, path)
  {
    var keys, at := Keys(plan.steps), path[0];
    assert keys[..start] + keys[start..at] == keys[..at];
    NoRepeatAll(keys[..start], keys[start..at], Trail(mend, after, at, ask + 1, path[1..]));
  }

  lemma FreshToTheEnd(mend: Mending, plan: Plan, start: nat, ask: nat)
    requires start <= |plan.steps| && WellKeyed(plan)
    ensures FreshBehind(mend, plan, start, ask, [])
  {
    var keys := Keys(plan.steps);
    FixpointUnique(keys);
    assert keys[..start] + keys[start..] == keys;
  }

  lemma KeyedNext(mend: Mending, plan: Plan, start: nat, ask: nat, at: nat, after: Plan)
    requires Keeping(mend) && KeyedAhead(mend, plan, start, ask)
    requires start <= at < |plan.steps| && mend(plan, at, ask) == Some(after)
    ensures SameBefore(plan, at, after) && KeyedAhead(mend, after, at, ask + 1)
  {
  }

  lemma {:induction false} KeyedPathIsFresh(mend: Mending, plan: Plan, start: nat, ask: nat, path: seq<nat>)
    requires Keeping(mend) && start <= |plan.steps| && KeyedAhead(mend, plan, start, ask)
    ensures FreshBehind(mend, plan, start, ask, path)
    decreases |path|
  {
    if path == [] {
      FreshToTheEnd(mend, plan, start, ask);
    } else if start <= path[0] < |plan.steps| && mend(plan, path[0], ask).Some? {
      var after := mend(plan, path[0], ask).value;
      KeyedNext(mend, plan, start, ask, path[0], after);
      KeyedPathIsFresh(mend, after, path[0], ask + 1, path[1..]);
      FreshThrough(mend, plan, start, ask, path, after);
    }
  }

  /** Plans that are well keyed, all along every chain of repairs, are fresh: such a task performs no step twice in
      one run. */
  lemma WellKeyedIsFresh(planning: Planning, repair: nat -> Option<Plan>)
    requires Open(planning).Planned? ==> KeyedAhead(Mended(repair), Open(planning).plan, 0, 0)
    ensures Fresh(planning, repair)
  {
    if Open(planning).Planned? {
      var first := Open(planning).plan;
      MendedKeeps(repair);
      forall path: seq<nat>
        ensures FreshOn(Mended(repair), first, 0, 0, [], path)
      {
        KeyedPathIsFresh(Mended(repair), first, 0, 0, path);
        assert Keys(first.steps)[..0] == [];
      }
    }
  }

  // ------------------------------------------------------------- a run that repeats a step

  lemma FirstKeys(base: string)
    requires Stable(base)
    ensures Rekeyed([base]) == [base] && Rekeyed([base, base, base])[..2] == [base, base + "-2"]
  {
    ThirdUseIff(base);
    RekeyedPrefix([base], [base]);
    assert [base] + [base] == [base, base];
    RekeyedPrefix([base, base], [base]);
    assert [base, base] + [base] == [base, base, base];
  }

  /** The repaired plan gives its new step the key the second step ran under. */
  lemma RepairedKeys(base: string, first: Plan, repair: Plan, after: Plan)
    requires Stable(base) && |base| < SLUG_LIMIT && |first.steps| == 3 && after == Spliced(first, 2, repair)
    requires Keys(first.steps) == Rekeyed([base, base, base]) && Keys(repair.steps) == Rekeyed([base])
    ensures |after.steps| == 3 && Keys(first.steps)[..2] + Keys(after.steps)[2..] == [base, base + "-2", base + "-2"]
  {
    var second := base + "-2";
    FirstKeys(base);
    SplicedKeys(first, 2, repair);
    assert [base, second] + [base] == [base, second, base];
    ThirdUseIff(base);
  }

  lemma OneFailure(mend: Mending, first: Plan, at: nat, after: Plan)
    requires at < |first.steps| && at <= |after.steps| && mend(first, at, 0) == Some(after)
    ensures Trail(mend, first, 0, 0, [at]) == Some(Keys(first.steps)[..at] + Keys(after.steps)[at..])
  {
    assert [at][1..] == [];
    assert Trail(mend, after, at, 1, []) == Some(Keys(after.steps)[at..]);
  }

  lemma FailsOnce(world: World, first: Plan, at: nat, all: seq<Key>)
    requires Open(world.plan) == Planned(first) && Trail(Mended(world.repair), first, 0, 0, [at]) == Some(all)
    requires forall m: nat :: world.perform(m) == if m == at then FAILURE else SUCCESS
    ensures Succeeded(RunOf(world, map[], 0).events) == all
  {
    assert forall m: nat :: world.perform(m) == ReplyAt([at], 0, 0, m);
    assert [] + all == all;
    PathRuns(world, Begun(first), 0, [at], all, WorkOf(world, map[], Begun(first), 0));
  }

  lemma AskedSteps(plan: Plan)
    requires |plan.steps| <= MAX_STEPS
    ensures Keys(Sanitised(plan).steps) == Rekeyed(Keys(plan.steps))
    ensures forall i | 0 <= i < |plan.steps| :: Sanitised(plan).steps[i].optional == plan.steps[i].optional
  {
  }

  lemma MendedOnce(repair: nat -> Option<Plan>, first: Plan, at: nat, offer: Plan)
    requires repair(0) == Some(offer) && Sanitised(offer).steps != []
    requires at < |first.steps| && !first.steps[at].optional
    ensures Mended(repair)(first, at, 0) == Some(Spliced(first, at, Sanitised(offer)))
  {
  }

  lemma Twice(events: seq<Event>, once: Key, twice: Key)
    requires Succeeded(events) == [once, twice, twice] && once != twice
    ensures Successes(events, twice) == 2
  {
    SuccessesCount(events);
    assert multiset([once, twice, twice])[twice] == 2;
  }

  /** A model keys three steps alike, the third one fails, and the step that repairs it has that key too: then
      the key the second step ran under is performed successfully twice. So it is for every stable key
      shorter than the slug limit. */
  lemma ARunRepeatsAStep(world: World, asked: Plan, repair: Plan, base: string)
    requires Stable(base) && |base| < SLUG_LIMIT
    requires world.plan == Asked(asked) && Keys(asked.steps) == [base, base, base] && !asked.steps[2].optional
    requires world.repair(0) == Some(repair) && Keys(repair.steps) == [base]
    requires forall m: nat :: world.perform(m) == if m == 2 then FAILURE else SUCCESS
    ensures Successes(RunOf(world, map[], 0).events, base + "-2") == 2
  {
    var first, offer, second := Sanitised(asked), Sanitised(repair), base + "-2";
    var after := Spliced(first, 2, offer);
    AskedSteps(asked);
    AskedSteps(repair);
    RepairedKeys(base, first, offer, after);
    MendedOnce(world.repair, first, 2, repair);
    OneFailure(Mended(world.repair), first, 2, after);
    FailsOnce(world, first, 2, [base, second, second]);
    Twice(RunOf(world, map[], 0).events, base, second);
  }
}
