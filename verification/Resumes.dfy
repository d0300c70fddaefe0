/** What a resumed task stands on (agent/loop.py, tasks/store.py): a later life is planned again, and the
    journal knows a step by its key alone. When a key that is done names another step, when a step that is done
    comes under another key, and what "done" is worth then. */
module Resumes {
  import opened Options
  import opened Journals
  import opened Lives
  import opened LoopProofs
  import opened LoopRuns
  import opened LoopSpec
  import opened Rekey
  import opened Verifier

  // ------------------------------------------------------------------ what really happened

  /** An action that succeeded in the outside world, and the key it was performed under. */
  datatype Win = Win(key: Key, action: Action)

  /** What was last started under each key. */
  function Trying(events: seq<Event>): map<Key, Action>
  {
    if events == [] then map[]
    else
      var rest, e := Trying(events[..|events| - 1]), events[|events| - 1];
      if e.Started? then rest[e.key := e.action] else rest
  }

  /** The success that an event is, after those before it. */
  function WinBy(before: seq<Event>, e: Event): seq<Win>
  {
    if e.Performed? && e.ok && e.key in Trying(before) then [Win(e.key, Trying(before)[e.key])] else []
  }

  /** Everything that succeeded, in order. */
  function Wins(events: seq<Event>): seq<Win>
  {
    if events == [] then []
    else Wins(events[..|events| - 1]) + WinBy(events[..|events| - 1], events[|events| - 1])
  }

  function WinsOf(lives: seq<Life>): seq<Win>
    requires forall i | 0 <= i < |lives| :: lives[i].cut <= |lives[i].events|
  {
    if lives == [] then [] else WinsOf(lives[..|lives| - 1]) + Wins(lives[|lives| - 1].Seen())
  }

  /** The action that succeeded last under a key: it earned the key its row. */
  function Earner(wins: seq<Win>, k: Key): (earner: Option<Action>)
    ensures earner.Some? <==> exists w :: w in wins && w.key == k
    ensures earner.Some? ==> Win(k, earner.value) in wins
  {
    if wins == [] then None
    else if wins[|wins| - 1].key == k then Some(wins[|wins| - 1].action)
    else Earner(wins[..|wins| - 1], k)
  }

  lemma {:induction false} BeganIsTrying(events: seq<Event>, k: Key)
    ensures BeganIn(events, k) <==> k in Trying(events)
  {
    if events != [] {
      var before, e := events[..|events| - 1], events[|events| - 1];
      BeganIsTrying(before, k);
      assert events == before + [e];
    }
  }

  lemma LastApart(events: seq<Event>)
    requires events != []
    ensures events[..|events| - 1] + [events[|events| - 1]] == events
    ensures forall i | 0 <= i < |events| :: events[..|events| - 1][..i] == events[..i]
  {
  }

  lemma LastTwoApart(before: seq<Event>, more: seq<Event>)
    requires |more| >= 2
    ensures before + more == before + more[..|more| - 2] + [more[|more| - 2]] + [more[|more| - 1]]
  {
  }

  /** What one more event adds. */
  lemma Next(before: seq<Event>, e: Event)
    ensures Wins(before + [e]) == Wins(before) + WinBy(before, e)
    ensures Trying(before + [e]) == if e.Started? then Trying(before)[e.key := e.action] else Trying(before)
    ensures forall rows :: Replay(rows, before + [e]) == Apply(Replay(rows, before), e)
  {
    assert (before + [e])[..|before + [e]| - 1] == before;
  }

  lemma {:induction false} EarnerConcat(a: seq<Win>, b: seq<Win>, k: Key)
    ensures Earner(a + b, k) == if Earner(b, k).Some? then Earner(b, k) else Earner(a, k)
  {
    if b == [] {
      assert a + b == a;
    } else {
      EarnerConcat(a, b[..|b| - 1], k);
      assert (a + b)[..|a + b| - 1] == a + b[..|b| - 1];
    }
  }

  lemma EarnerNext(before: seq<Event>, e: Event, k: Key)
    ensures var earner := Earner(Wins(before + [e]), k);
            if e == Performed(k, true) && k in Trying(before) then earner == Some(Trying(before)[k])
            else earner == Earner(Wins(before), k)
  {
    Next(before, e);
    EarnerConcat(Wins(before), WinBy(before, e), k);
  }

  /** The last success under a key, and nothing performed under it since. */
  lemma {:induction false} LastWin(events: seq<Event>, i: nat, k: Key)
    requires i < |events| && events[i] == Performed(k, true) && k in Trying(events[..i])
    requires forall j | i < j < |events| :: !(events[j].Performed? && events[j].key == k)
    ensures Earner(Wins(events), k) == Some(Trying(events[..i])[k])
  {
    var n := |events| - 1;
    LastApart(events);
    EarnerNext(events[..n], events[n], k);
    if i < n {
      LastWin(events[..n], i, k);
    }
  }

  lemma {:induction false} NoWin(events: seq<Event>, k: Key)
    requires Avoids(events, k)
    ensures Earner(Wins(events), k).None?
  {
    if events != [] {
      var n := |events| - 1;
      LastApart(events);
      NoWin(events[..n], k);
      EarnerNext(events[..n], events[n], k);
    }
  }

  /** The key was journalled as done here, right after a success: the one that is its earner. */
  ghost predicate EarnedAt(lives: seq<Life>, n: nat, i: nat, k: Key)
    requires forall i | 0 <= i < |lives| :: lives[i].cut <= |lives[i].events|
  {
    && n < |lives| && 1 <= i < lives[n].cut
    && var seen := lives[n].Seen();
       && seen[i].Finished? && seen[i].ok && seen[i].key == k && seen[i - 1] == Performed(k, true)
       && k in Trying(seen[..i - 1]) && Earner(WinsOf(lives), k) == Some(Trying(seen[..i - 1])[k])
  }

  /** The row of the key has the value that this event journalled. */
  ghost predicate ShowsValue(rows: Rows, lives: seq<Life>, n: nat, i: nat, k: Key)
  {
    && n < |lives| && i < |lives[n].events| && lives[n].events[i].Finished?
    && k in rows && rows[k].result == Some(lives[n].events[i].value)
  }

  /** A key that is not touched again keeps the value it was finished with. */
  lemma {:induction false} ValueStays(rows: Rows, events: seq<Event>, i: nat, k: Key)
    requires i < |events| && events[i].Finished? && events[i].key == k && k in Replay(rows, events[..i])
    requires forall j | i < j < |events| :: events[j].key != k
    ensures k in Replay(rows, events) && Replay(rows, events)[k].result == Some(events[i].value)
  {
    if i < |events| - 1 {
      assert events[..|events| - 1][..i] == events[..i];
      ValueStays(rows, events[..|events| - 1], i, k);
    }
  }

  lemma EarnedInLife(seen: seq<Event>, i: nat, k: Key)
    requires Justified(seen) && NoReuse(seen) && i < |seen| && seen[i].Finished? && seen[i].ok && seen[i].key == k
    ensures i >= 1 && seen[i - 1] == Performed(k, true) && k in Trying(seen[..i - 1])
    ensures Earner(Wins(seen), k) == Some(Trying(seen[..i - 1])[k])
  {
    var e :| e in seen[..i] && e.Started? && e.key == k;
    var j :| 0 <= j < i && seen[j] == e;
    assert seen[..i - 1][j] == e;
    BeganIsTrying(seen[..i - 1], k);
    LastWin(seen, i - 1, k);
  }

  lemma EarnedBefore(lives: seq<Life>, m: nat, i: nat, k: Key)
    requires lives != [] && forall i | 0 <= i < |lives| :: lives[i].cut <= |lives[i].events|
    requires EarnedAt(lives[..|lives| - 1], m, i, k) && Avoids(lives[|lives| - 1].events, k)
    ensures EarnedAt(lives, m, i, k)
  {
    var n := |lives| - 1;
    NoWin(lives[n].Seen(), k);
    EarnerConcat(WinsOf(lives[..n]), Wins(lives[n].Seen()), k);
  }

  lemma EarnedNow(lives: seq<Life>, i: nat, k: Key)
    requires lives != [] && forall i | 0 <= i < |lives| :: lives[i].cut <= |lives[i].events|
    requires var seen := lives[|lives| - 1].Seen();
             Justified(seen) && NoReuse(seen) && i < |seen| && seen[i].Finished? && seen[i].ok && seen[i].key == k
    ensures EarnedAt(lives, |lives| - 1, i, k)
  {
    var n := |lives| - 1;
    EarnedInLife(lives[n].Seen(), i, k);
    EarnerConcat(WinsOf(lives[..n]), Wins(lives[n].Seen()), k);
  }

  lemma BeganStays(rows: Rows, events: seq<Event>, i: nat, k: Key)
    requires Justified(events) && i < |events| && events[i].Finished? && events[i].key == k
    ensures k in Replay(rows, events[..i])
  {
    RowStays(rows, events[..i], k);
  }

  /** A step that is done after some lives was journalled, with the result its row has, right after the success of its
      earner, in one of them. */
  lemma {:induction false} DoneIsEarned(lives: seq<Life>, k: Key)
    requires History(map[], lives) && IsDone(TableAfter(map[], lives), k)
    ensures forall i | 0 <= i < |lives| :: lives[i].cut <= |lives[i].events|
    ensures exists n, i :: EarnedAt(lives, n, i, k) && ShowsValue(TableAfter(map[], lives), lives, n, i, k)
  {
    CutsFit(map[], lives);
    if lives != [] {
      var n := |lives| - 1;
      var before, seen := TableAfter(map[], lives[..n]), lives[n].Seen();
      if IsDone(before, k) {
        DoneIsEarned(lives[..n], k);
        var m, i :| EarnedAt(lives[..n], m, i, k) && ShowsValue(before, lives[..n], m, i, k);
        DoneAvoided(before, lives[n], k);
        EarnedBefore(lives, m, i, k);
      } else {
        DoneWasFinished(Opened(before, lives[n]), seen, k);
        var i :| 0 <= i < |seen| && seen[i].Finished? && seen[i].ok && seen[i].key == k;
        CutIsOrderly(Opened(before, lives[n]), lives[n].events, lives[n].cut);
        EarnedNow(lives, i, k);
        BeganStays(Opened(before, lives[n]), seen, i, k);
        ValueStays(Opened(before, lives[n]), seen, i, k);
        assert ShowsValue(TableAfter(map[], lives), lives, n, i, k);
      }
    }
  }

  // ----------------------------------------------------------------- which steps a run takes

  /** A step that is done is never replaced. */
  function MendedOver(rows: Rows, repair: nat -> Option<Plan>): Mending
  {
    (plan: Plan, at: nat, ask: nat) =>
      if at < |plan.steps| && IsDone(rows, plan.steps[at].key) then None else Mended(repair)(plan, at, ask)
  }

  /** No plan that the loop can come to from here has a bad step ahead of it. */
  ghost predicate NoneAhead(mend: Mending, plan: Plan, start: nat, ask: nat, bad: Step -> bool)
    decreases MAX_REPLANS - ask
  {
    && (forall i | start <= i < |plan.steps| :: !bad(plan.steps[i]))
    && (ask < MAX_REPLANS ==>
          forall i | start <= i < |plan.steps| && mend(plan, i, ask).Some? ::
            NoneAhead(mend, mend(plan, i, ask).value, i, ask + 1, bad))
  }

  /** The loop is at this place of this plan. */
  predicate At(now: Progress, plan: Plan, index: nat, ask: nat)
  {
    now.plan == plan && now.index == index && now.replans == ask
  }

  predicate AllGood(taken: seq<Step>, bad: Step -> bool) { forall i | 0 <= i < |taken| :: !bad(taken[i]) }

  lemma TurnTakes(world: World, rows: Rows, now: Progress, from: nat, turned: Turned)
    requires now.index < |now.plan.steps| && turned == Turn(world, rows, now, from)
    ensures turned.next.taken == now.taken + [now.plan.steps[now.index]]
  {
  }

  lemma {:induction false} WorkTakes(world: World, rows: Rows, now: Progress, from: nat, done: Turned)
    requires now.replans <= MAX_REPLANS && done == WorkOf(world, rows, now, from)
    ensures now.taken <= done.next.taken
    decreases MAX_REPLANS - now.replans, |now.plan.steps| - now.index
  {
    if now.index < |now.plan.steps| {
      var turned := Turn(world, rows, now, from);
      TurnTakes(world, rows, now, from, turned);
      if turned.exit.Continue? {
        WorkTakes(world, rows, turned.next, turned.performs, done);
      }
    }
  }

  lemma TurnMovesOver(world: World, rows: Rows, now: Progress, from: nat, turned: Turned)
    requires now.index < |now.plan.steps| && turned == Turn(world, rows, now, from) && turned.exit.Continue?
    ensures Moved(MendedOver(rows, world.repair), now, turned.next)
  {
    TurnMoves(world, rows, now, from, turned);
  }

  lemma AheadTurn(mend: Mending, now: Progress, next: Progress, bad: Step -> bool)
    requires now.index < |now.plan.steps| && now.replans <= MAX_REPLANS && next.replans <= MAX_REPLANS
    requires NoneAhead(mend, now.plan, now.index, now.replans, bad) && Moved(mend, now, next)
    ensures NoneAhead(mend, next.plan, next.index, next.replans, bad)
  {
  }

  lemma {:induction false} GoodWork(world: World, rows: Rows, now: Progress, from: nat, bad: Step -> bool, done: Turned)
    requires now.replans <= MAX_REPLANS && done == WorkOf(world, rows, now, from) && AllGood(now.taken, bad)
    requires NoneAhead(MendedOver(rows, world.repair), now.plan, now.index, now.replans, bad)
    ensures AllGood(done.next.taken, bad)
    decreases MAX_REPLANS - now.replans, |now.plan.steps| - now.index
  {
    if now.index < |now.plan.steps| {
      var turned := Turn(world, rows, now, from);
      TurnTakes(world, rows, now, from, turned);
      if turned.exit.Continue? {
        TurnMovesOver(world, rows, now, from, turned);
        AheadTurn(MendedOver(rows, world.repair), now, turned.next, bad);
        GoodWork(world, rows, turned.next, turned.performs, bad, done);
      }
    }
  }

  // ---------------------------------------------- answers that lead the loop to a bad step

  /** The same answers from `from` on. */
  ghost predicate Agree(one: nat -> Reply, other: nat -> Reply, from: nat)
  {
    forall m | m >= from :: one(m) == other(m)
  }

  /** With these answers from `from` on, the loop takes a bad step from this place of this plan on. */
  ghost predicate LeadsToBad(repair: nat -> Option<Plan>, perform: nat -> Reply, rows: Rows, plan: Plan, index: nat,
                             ask: nat, from: nat, bad: Step -> bool)
  {
    forall w: World, now | w.repair == repair && Agree(w.perform, perform, from) && At(now, plan, index, ask) ::
      now.replans <= MAX_REPLANS ==> !AllGood(WorkOf(w, rows, now, from).next.taken, bad)
  }

  lemma BadNow(world: World, rows: Rows, now: Progress, from: nat, bad: Step -> bool, done: Turned)
    requires now.replans <= MAX_REPLANS && done == WorkOf(world, rows, now, from)
    requires now.index < |now.plan.steps| && bad(now.plan.steps[now.index])
    ensures !AllGood(done.next.taken, bad)
  {
    var turned := Turn(world, rows, now, from);
    TurnTakes(world, rows, now, from, turned);
    if turned.exit.Continue? {
      WorkTakes(world, rows, turned.next, turned.performs, done);
    }
    assert done.next.taken[|now.taken|] == now.plan.steps[now.index];
  }

  lemma BadAfterSkip(repair: nat -> Option<Plan>, perform: nat -> Reply, rows: Rows, plan: Plan, index: nat, ask: nat,
                     from: nat, bad: Step -> bool)
    requires index < |plan.steps| && IsDone(rows, plan.steps[index].key)
    requires LeadsToBad(repair, perform, rows, plan, index + 1, ask, from, bad)
    ensures LeadsToBad(repair, perform, rows, plan, index, ask, from, bad)
  {
    forall w: World, now | w.repair == repair && Agree(w.perform, perform, from) && At(now, plan, index, ask)
      ensures now.replans <= MAX_REPLANS ==> !AllGood(WorkOf(w, rows, now, from).next.taken, bad)
    {
      assert At(Turn(w, rows, now, from).next, plan, index + 1, ask);
    }
  }

  function Preceded(first: Reply, at: nat, rest: nat -> Reply): nat -> Reply
  {
    (m: nat) => if m == at then first else rest(m)
  }

  lemma BadAfterSuccess(repair: nat -> Option<Plan>, rest: nat -> Reply, rows: Rows, plan: Plan, index: nat, ask: nat,
                        from: nat, bad: Step -> bool)
    requires index < |plan.steps| && !IsDone(rows, plan.steps[index].key)
    requires LeadsToBad(repair, rest, rows, plan, index + 1, ask, from + 1, bad)
    ensures LeadsToBad(repair, Preceded(SUCCESS, from, rest), rows, plan, index, ask, from, bad)
  {
    var perform := Preceded(SUCCESS, from, rest);
    forall w: World, now | w.repair == repair && Agree(w.perform, perform, from) && At(now, plan, index, ask)
      ensures now.replans <= MAX_REPLANS ==> !AllGood(WorkOf(w, rows, now, from).next.taken, bad)
    {
      var turned := Turn(w, rows, now, from);
      SucceedingStep(w, rows, now, from, turned);
      assert At(turned.next, plan, index + 1, ask) && Agree(w.perform, rest, from + 1);
    }
  }

  lemma BadAfterFailure(repair: nat -> Option<Plan>, rest: nat -> Reply, rows: Rows, plan: Plan, index: nat, ask: nat,
                        from: nat, bad: Step -> bool, after: Plan)
    requires index < |plan.steps| && MendedOver(rows, repair)(plan, index, ask) == Some(after)
    requires LeadsToBad(repair, rest, rows, after, index, ask + 1, from + 1, bad)
    ensures LeadsToBad(repair, Preceded(FAILURE, from, rest), rows, plan, index, ask, from, bad)
  {
    var perform := Preceded(FAILURE, from, rest);
    forall w: World, now | w.repair == repair && Agree(w.perform, perform, from) && At(now, plan, index, ask)
      ensures now.replans <= MAX_REPLANS ==> !AllGood(WorkOf(w, rows, now, from).next.taken, bad)
    {
      var turned := Turn(w, rows, now, from);
      FailingStep(w, rows, now, from, after, turned);
      assert At(turned.next, after, index, ask + 1) && Agree(w.perform, rest, from + 1);
    }
  }

  lemma BadHere(repair: nat -> Option<Plan>, perform: nat -> Reply, rows: Rows, plan: Plan, index: nat, ask: nat,
                from: nat, bad: Step -> bool)
    requires index < |plan.steps| && bad(plan.steps[index])
    ensures LeadsToBad(repair, perform, rows, plan, index, ask, from, bad)
  {
    forall w: World, now | w.repair == repair && Agree(w.perform, perform, from) && At(now, plan, index, ask)
      ensures now.replans <= MAX_REPLANS ==> !AllGood(WorkOf(w, rows, now, from).next.taken, bad)
    {
      if now.replans <= MAX_REPLANS {
        BadNow(w, rows, now, from, bad, WorkOf(w, rows, now, from));
      }
    }
  }

  /** Where a bad step is ahead: at this place, in the plan that mends it, or behind this place. */
  lemma AheadCases(mend: Mending, plan: Plan, index: nat, ask: nat, bad: Step -> bool)
    requires !NoneAhead(mend, plan, index, ask, bad)
    ensures index < |plan.steps|
    ensures || bad(plan.steps[index]) || !NoneAhead(mend, plan, index + 1, ask, bad)
            || (ask < MAX_REPLANS && mend(plan, index, ask).Some?
                && !NoneAhead(mend, mend(plan, index, ask).value, index, ask + 1, bad))
  {
  }

  /** A bad step that some chain of repairs puts ahead of the loop is taken with the answers that lead there. */
  lemma {:induction false} BadAhead(repair: nat -> Option<Plan>, rows: Rows, plan: Plan, index: nat, ask: nat,
                                    from: nat, bad: Step -> bool) returns (perform: nat -> Reply)
    requires ask <= MAX_REPLANS && !NoneAhead(MendedOver(rows, repair), plan, index, ask, bad)
    ensures LeadsToBad(repair, perform, rows, plan, index, ask, from, bad)
    decreases MAX_REPLANS - ask, |plan.steps| - index
  {
    var mend := MendedOver(rows, repair);
    AheadCases(mend, plan, index, ask, bad);
    if bad(plan.steps[index]) {
      perform := (m: nat) => SUCCESS;
      BadHere(repair, perform, rows, plan, index, ask, from, bad);
    } else if !NoneAhead(mend, plan, index + 1, ask, bad) {
      if IsDone(rows, plan.steps[index].key) {
        perform := BadAhead(repair, rows, plan, index + 1, ask, from, bad);
        BadAfterSkip(repair, perform, rows, plan, index, ask, from, bad);
      } else {
        var rest := BadAhead(repair, rows, plan, index + 1, ask, from + 1, bad);
        perform := Preceded(SUCCESS, from, rest);
        BadAfterSuccess(repair, rest, rows, plan, index, ask, from, bad);
      }
    } else {
      var after := mend(plan, index, ask).value;
      var rest := BadAhead(repair, rows, after, index, ask + 1, from + 1, bad);
      perform := Preceded(FAILURE, from, rest);
      BadAfterFailure(repair, rest, rows, plan, index, ask, from, bad, after);
    }
  }

  // -------------------------------------------------------------------- the chain of plans

  /** The planner answers like this; the tools, the attempts and the judge are any. */
  ghost predicate SamePlanner(w: World, planning: Planning, repair: nat -> Option<Plan>)
  {
    w.plan == planning && w.repair == repair
  }

  ghost predicate TakesNone(w: World, rows: Rows, from: nat, bad: Step -> bool)
  {
    AllGood(RunOf(w, rows, from).taken, bad)
  }

  /** No plan of the chain that the planner's answers allow over this table has a bad step to take. */
  ghost predicate OffersNone(planning: Planning, repair: nat -> Option<Plan>, rows: Rows, bad: Step -> bool)
  {
    Open(planning).Planned? ==> NoneAhead(MendedOver(rows, repair), Open(planning).plan, 0, 0, bad)
  }

  lemma NoneTaken(w: World, rows: Rows, from: nat, bad: Step -> bool)
    requires OffersNone(w.plan, w.repair, rows, bad)
    ensures TakesNone(w, rows, from, bad)
  {
    if Open(w.plan).Planned? {
      var start := Begun(Open(w.plan).plan);
      GoodWork(w, rows, start, from, bad, WorkOf(w, rows, start, from));
    }
  }

  lemma LedToBad(w: World, plan: Plan, perform: nat -> Reply, rows: Rows, from: nat, bad: Step -> bool, done: Turned)
    requires Open(w.plan) == Planned(plan) && w.perform == perform && done == WorkOf(w, rows, Begun(plan), from)
    requires LeadsToBad(w.repair, perform, rows, plan, 0, 0, from, bad)
    ensures !AllGood(done.next.taken, bad)
  {
    assert At(Begun(plan), plan, 0, 0) && Agree(w.perform, perform, from);
  }

  lemma SomeTaken(planning: Planning, repair: nat -> Option<Plan>, rows: Rows, from: nat, bad: Step -> bool)
    returns (w: World)
    requires !OffersNone(planning, repair, rows, bad)
    ensures SamePlanner(w, planning, repair) && !TakesNone(w, rows, from, bad)
  {
    var plan := Open(planning).plan;
    var perform := BadAhead(repair, rows, plan, 0, 0, from, bad);
    w := World(planning, repair, perform, 1, false, (tool, value) => true, Unavailable);
    LedToBad(w, plan, perform, rows, from, bad, WorkOf(w, rows, Begun(plan), from));
  }

  /** No run takes a bad step, whatever the tools and the judge answer, if and only if the planner's answers offer
      none. */
  lemma TakesNoneIff(planning: Planning, repair: nat -> Option<Plan>, rows: Rows, from: nat, bad: Step -> bool)
    ensures (forall w | SamePlanner(w, planning, repair) :: TakesNone(w, rows, from, bad))
       <==> OffersNone(planning, repair, rows, bad)
  {
    if OffersNone(planning, repair, rows, bad) {
      forall w | SamePlanner(w, planning, repair)
        ensures TakesNone(w, rows, from, bad)
      {
        NoneTaken(w, rows, from, bad);
      }
    } else {
      var w := SomeTaken(planning, repair, rows, from, bad);
    }
  }

  // ------------------------------------------------------- what the steps of a run stand for

  /** The evidence of the steps that were done before the run, in the order they were taken. */
  function Skipped(rows: Rows, taken: seq<Step>): seq<Evidence>
  {
    if taken == [] then []
    else
      var step := taken[|taken| - 1];
      Skipped(rows, taken[..|taken| - 1]) +
      if IsDone(rows, step.key) then [StepEvidence(step, true, true, rows[step.key].result)] else []
  }

  /** The actions of the steps that were not. */
  function Acted(rows: Rows, taken: seq<Step>): seq<Event>
  {
    if taken == [] then []
    else
      var step := taken[|taken| - 1];
      Acted(rows, taken[..|taken| - 1]) + if IsDone(rows, step.key) then []
                                               else [Started(step.key, Action(step.tool, step.params))]
  }

  function Resumed(evidence: seq<Evidence>): seq<Evidence> { Select(evidence, (e: Evidence) => e.resumed) }

  function Starting(events: seq<Event>): seq<Event>
  {
    if events == [] then []
    else
      var e := events[|events| - 1];
      Starting(events[..|events| - 1]) + if e.Started? then [e] else []
  }

  lemma {:induction false} StartingConcat(a: seq<Event>, b: seq<Event>)
    ensures Starting(a + b) == Starting(a) + Starting(b)
  {
    if b == [] {
      assert a + b == a;
    } else {
      StartingConcat(a, b[..|b| - 1]);
      assert (a + b)[..|a + b| - 1] == a + b[..|b| - 1];
    }
  }

  lemma {:induction false} StartingOnce(events: seq<Event>)
    requires events != [] && events[0].Started? && forall i | 1 <= i < |events| :: !events[i].Started?
    ensures Starting(events) == [events[0]]
  {
    if |events| > 1 {
      StartingOnce(events[..|events| - 1]);
    } else {
      assert events[..0] == [];
    }
  }

  /** The evidence that counts as resumed and the actions begun are those of the steps taken. */
  ghost predicate Accounted(rows: Rows, now: Progress)
  {
    Resumed(now.evidence) == Skipped(rows, now.taken) && Starting(now.events) == Acted(rows, now.taken)
  }

  lemma SkipAccounts(rows: Rows, now: Progress, next: Progress)
    requires Accounted(rows, now) && now.index < |now.plan.steps| && IsDone(rows, now.plan.steps[now.index].key)
    requires next == Skip(now, rows[now.plan.steps[now.index].key].result)
    ensures Accounted(rows, next)
  {
    assert next.evidence[..|now.evidence|] == now.evidence && next.taken[..|now.taken|] == now.taken;
  }

  lemma NotedAccounts(rows: Rows, now: Progress, step: Step, more: seq<Event>, result: Option<ActionResult>)
    requires Accounted(rows, now) && now.index < |now.plan.steps| && !IsDone(rows, now.plan.steps[now.index].key)
    requires step == now.plan.steps[now.index] && StepEvents(step.key, more, result)
    requires more[0] == Started(step.key, step.Does())
    ensures Accounted(rows, Noted(now, more))
  {
    StartingConcat(now.events, more);
    StartingOnce(more);
    assert Noted(now, more).taken[..|now.taken|] == now.taken;
  }

  lemma NewEvidence(evidence: seq<Evidence>, e: Evidence)
    requires !e.resumed
    ensures Resumed(evidence + [e]) == Resumed(evidence)
  {
    assert (evidence + [e])[..|evidence|] == evidence;
  }

  lemma JudgeAccounts(world: World, rows: Rows, now: Progress, result: ActionResult, next: Progress)
    requires Accounted(rows, now) && now.index < |now.plan.steps| && next == Judge(world, now, result).0
    ensures Accounted(rows, next)
  {
    if next.evidence != now.evidence {
      NewEvidence(now.evidence, next.evidence[|now.evidence|]);
    }
  }

  lemma TurnAccounts(world: World, rows: Rows, now: Progress, from: nat, turned: Turned)
    requires Accounted(rows, now) && now.index < |now.plan.steps| && turned == Turn(world, rows, now, from)
    ensures Accounted(rows, turned.next)
  {
    var step := now.plan.steps[now.index];
    if IsDone(rows, step.key) {
      SkipAccounts(rows, now, turned.next);
    } else {
      var done := StepOf(world, step, from);
      StepMeans(world, step, from);
      NotedAccounts(rows, now, step, done.events, ResultOf(done.reply));
      if done.reply.Returned? {
        JudgeAccounts(world, rows, Noted(now, done.events), done.reply.result, turned.next);
      }
    }
  }

  lemma {:induction false} WorkAccounts(world: World, rows: Rows, now: Progress, from: nat, done: Turned)
    requires now.replans <= MAX_REPLANS && done == WorkOf(world, rows, now, from) && Accounted(rows, now)
    ensures Accounted(rows, done.next)
    decreases MAX_REPLANS - now.replans, |now.plan.steps| - now.index
  {
    if now.index < |now.plan.steps| {
      var turned := Turn(world, rows, now, from);
      TurnAccounts(world, rows, now, from, turned);
      if turned.exit.Continue? {
        WorkAccounts(world, rows, turned.next, turned.performs, done);
      }
    }
  }

  /** What a run reports as resumed is exactly the steps it took whose keys were done, with the results of those
      rows; what it starts is exactly the others, in order. */
  lemma TakenMeans(world: World, rows: Rows, from: nat, run: Run)
    requires run == RunOf(world, rows, from)
    ensures Starting(run.events) == Acted(rows, run.taken)
    ensures run.ending.Ended? ==> Resumed(run.ending.outcome.evidence) == Skipped(rows, run.taken)
  {
    if Open(world.plan).Planned? {
      var start := Begun(Open(world.plan).plan);
      var done := WorkOf(world, rows, start, from);
      WorkAccounts(world, rows, start, from, done);
      EndsWithEvidence(world, rows, start, from, done);
    }
  }

  // ------------------------------------------------------------------------ the theorems

  /** The step would be resumed on the strength of another action than its own. */
  function StaleIn(rows: Rows, wins: seq<Win>): Step -> bool
  {
    (s: Step) => IsDone(rows, s.key) && Earner(wins, s.key) != Some(s.Does())
  }

  /** Whatever the run resumes was earned by the very action the step stands for. */
  ghost predicate ResumesOwn(rows: Rows, wins: seq<Win>, run: Run)
  {
    forall s | s in run.taken && IsDone(rows, s.key) :: Earner(wins, s.key) == Some(s.Does())
  }

  /** Every success that a later life resumes is about the step that earned the row, whatever the tools and the
      judge answer, if and only if every plan its chain of repairs can come to gives a done key to that same
      step. */
  lemma ResumedIsOwnIff(planning: Planning, repair: nat -> Option<Plan>, rows: Rows, wins: seq<Win>, from: nat)
    ensures (forall w | SamePlanner(w, planning, repair) :: ResumesOwn(rows, wins, RunOf(w, rows, from)))
       <==> OffersNone(planning, repair, rows, StaleIn(rows, wins))
  {
    var bad := StaleIn(rows, wins);
    TakesNoneIff(planning, repair, rows, from, bad);
    forall w: World
      ensures ResumesOwn(rows, wins, RunOf(w, rows, from)) <==> TakesNone(w, rows, from, bad)
    {
      NoneBadIff(RunOf(w, rows, from).taken, bad);
    }
  }

  /** The table the next life of a task starts from. */
  ghost predicate NextTable(lives: seq<Life>, rows: Rows)
  {
    var left := TableAfter(map[], lives);
    History(map[], lives) && (rows == left || rows == ResetRunning(left))
  }

  /** Over the lives of a task: every key that is done has its earner, the success right before its row; and what the
      next life resumes is what they earned, whatever happens in it, if and only if the planner gives every done key
      to the step of its earner. */
  lemma NextLifeIff(lives: seq<Life>, rows: Rows, planning: Planning, repair: nat -> Option<Plan>, from: nat)
    requires NextTable(lives, rows)
    ensures forall i | 0 <= i < |lives| :: lives[i].cut <= |lives[i].events|
    ensures forall k | IsDone(rows, k) :: exists n, i :: EarnedAt(lives, n, i, k) && ShowsValue(rows, lives, n, i, k)
    ensures (forall w | SamePlanner(w, planning, repair) :: ResumesOwn(rows, WinsOf(lives), RunOf(w, rows, from)))
       <==> OffersNone(planning, repair, rows, StaleIn(rows, WinsOf(lives)))
  {
    CutsFit(map[], lives);
    forall k | IsDone(rows, k)
      ensures exists n, i :: EarnedAt(lives, n, i, k) && ShowsValue(rows, lives, n, i, k)
    {
      DoneIsEarned(lives, k);
      var n, i :| EarnedAt(lives, n, i, k) && ShowsValue(TableAfter(map[], lives), lives, n, i, k);
      assert ShowsValue(rows, lives, n, i, k);
    }
    ResumedIsOwnIff(planning, repair, rows, WinsOf(lives), from);
  }

  lemma NoneBadIff(taken: seq<Step>, bad: Step -> bool)
    ensures AllGood(taken, bad) <==> forall s | s in taken :: !bad(s)
  {
  }

  /** The step would perform an action that succeeded before under some key. */
  function AgainIn(rows: Rows, wins: seq<Win>): Step -> bool
  {
    (s: Step) => !IsDone(rows, s.key) && DidSucceed(wins, s.Does())
  }

  predicate DidSucceed(wins: seq<Win>, action: Action) { exists w :: w in wins && w.action == action }

  /** Nothing that succeeded in an earlier life is begun again. */
  ghost predicate BeginsNothingAgain(wins: seq<Win>, events: seq<Event>)
  {
    forall e | e in events && e.Started? :: !DidSucceed(wins, e.action)
  }

  lemma {:induction false} StartingMeans(events: seq<Event>, e: Event)
    ensures e in Starting(events) <==> e in events && e.Started?
  {
    if events != [] {
      StartingMeans(events[..|events| - 1], e);
      assert events == events[..|events| - 1] + [events[|events| - 1]];
    }
  }

  lemma {:induction false} ActedMeans(rows: Rows, taken: seq<Step>, wins: seq<Win>)
    ensures (forall e | e in Acted(rows, taken) && e.Started? :: !DidSucceed(wins, e.action))
       <==> AllGood(taken, AgainIn(rows, wins))
  {
    if taken != [] {
      var rest, s := taken[..|taken| - 1], taken[|taken| - 1];
      ActedMeans(rows, rest, wins);
      assert forall e | e in Acted(rows, rest) :: e in Acted(rows, taken);
      assert !IsDone(rows, s.key) ==> Started(s.key, s.Does()) in Acted(rows, taken);
    }
  }

  /** A later life begins nothing again that succeeded in an earlier one, whatever the tools and the judge answer,
      if and only if no plan its chain of repairs can come to has such an action under a key that is not done. */
  lemma NothingAgainIff(planning: Planning, repair: nat -> Option<Plan>, rows: Rows, wins: seq<Win>, from: nat)
    ensures (forall w | SamePlanner(w, planning, repair) :: BeginsNothingAgain(wins, RunOf(w, rows, from).events))
       <==> OffersNone(planning, repair, rows, AgainIn(rows, wins))
  {
    var bad := AgainIn(rows, wins);
    TakesNoneIff(planning, repair, rows, from, bad);
    forall w: World
      ensures BeginsNothingAgain(wins, RunOf(w, rows, from).events) <==> TakesNone(w, rows, from, bad)
    {
      var run := RunOf(w, rows, from);
      TakenMeans(w, rows, from, run);
      ActedMeans(rows, run.taken, wins);
      forall e
        ensures e in Starting(run.events) <==> e in run.events && e.Started?
      {
        StartingMeans(run.events, e);
      }
    }
  }

  // ---------------------------------------------------------------- what "done" stands on

  /** The action succeeded, in an earlier life or in this run. */
  ghost predicate Happened(wins: seq<Win>, events: seq<Event>, action: Action)
  {
    DidSucceed(wins, action) || DidSucceed(Wins(events), action)
  }

  lemma {:induction false} WinsGrow(a: seq<Event>, b: seq<Event>, action: Action)
    requires DidSucceed(Wins(a), action)
    ensures DidSucceed(Wins(a + b), action)
  {
    if b == [] {
      assert a + b == a;
    } else {
      WinsGrow(a, b[..|b| - 1], action);
      assert (a + b)[..|a + b| - 1] == a + b[..|b| - 1];
      var w :| w in Wins(a + b[..|b| - 1]) && w.action == action;
      assert w in Wins(a + b);
    }
  }

  lemma {:induction false} TryingStep(before: seq<Event>, more: seq<Event>)
    requires more != [] && more[0].Started? && forall i | 1 <= i < |more| :: !more[i].Started?
    ensures Trying(before + more) == Trying(before)[more[0].key := more[0].action]
  {
    var all := before + more;
    if |more| == 1 {
      assert all[..|all| - 1] == before;
    } else {
      TryingStep(before, more[..|more| - 1]);
      assert all[..|all| - 1] == before + more[..|more| - 1];
    }
  }

  /** A step that succeeds puts its own action among the wins. */
  lemma StepWins(before: seq<Event>, step: Step, more: seq<Event>, result: ActionResult)
    requires StepEvents(step.key, more, Some(result)) && more[0] == Started(step.key, step.Does()) && result.ok
    ensures Win(step.key, step.Does()) in Wins(before + more)
  {
    var n := |more|;
    var tries, performed, finished := more[..n - 2], more[n - 2], more[n - 1];
    TryingStep(before, tries);
    Next(before + tries, performed);
    Next(before + tries + [performed], finished);
    LastTwoApart(before, more);
  }

  /** Every success in evidence is about an action that happened. */
  ghost predicate Stands(wins: seq<Win>, events: seq<Event>, steps: seq<Step>, evidence: seq<Evidence>)
  {
    && |evidence| <= |steps|
    && forall i | 0 <= i < |evidence| && evidence[i].ok :: Happened(wins, events, steps[i].Does())
  }

  lemma StandsLater(wins: seq<Win>, events: seq<Event>, more: seq<Event>, steps: seq<Step>, evidence: seq<Evidence>)
    requires Stands(wins, events, steps, evidence)
    ensures Stands(wins, events + more, steps, evidence)
  {
    forall i | 0 <= i < |evidence| && evidence[i].ok
      ensures Happened(wins, events + more, steps[i].Does())
    {
      if !DidSucceed(wins, steps[i].Does()) {
        WinsGrow(events, more, steps[i].Does());
      }
    }
  }

  lemma JudgeStands(world: World, wins: seq<Win>, now: Progress, result: ActionResult, next: Progress)
    requires now.index < |now.plan.steps| && |now.evidence| == now.index
    requires Stands(wins, now.events, now.plan.steps, now.evidence) && next == Judge(world, now, result).0
    requires result.ok ==> Happened(wins, now.events, now.plan.steps[now.index].Does())
    ensures Stands(wins, next.events, next.plan.steps, next.evidence)
    ensures Judge(world, now, result).1.Continue? ==> |next.evidence| == next.index
  {
    if next.plan != now.plan {
      SplicedPrefix(now.plan, now.index, Sanitised(world.repair(now.replans).value));
    }
  }

  lemma TurnStands(world: World, rows: Rows, wins: seq<Win>, now: Progress, from: nat, turned: Turned)
    requires now.index < |now.plan.steps| && |now.evidence| == now.index && turned == Turn(world, rows, now, from)
    requires Stands(wins, now.events, now.plan.steps, now.evidence)
    requires !StaleIn(rows, wins)(now.plan.steps[now.index])
    ensures Stands(wins, turned.next.events, turned.next.plan.steps, turned.next.evidence)
    ensures turned.exit.Continue? ==> |turned.next.evidence| == turned.next.index
  {
    var step := now.plan.steps[now.index];
    if IsDone(rows, step.key) {
      assert Happened(wins, now.events, step.Does());
    } else {
      var done := StepOf(world, step, from);
      StepMeans(world, step, from);
      StandsLater(wins, now.events, done.events, now.plan.steps, now.evidence);
      if done.reply.Returned? {
        if done.reply.result.ok {
          StepWins(now.events, step, done.events, done.reply.result);
        }
        JudgeStands(world, wins, Noted(now, done.events), done.reply.result, turned.next);
      }
    }
  }

  lemma {:induction false} WorkStands(world: World, rows: Rows, wins: seq<Win>, now: Progress, from: nat, done: Turned)
    requires now.replans <= MAX_REPLANS && done == WorkOf(world, rows, now, from) && |now.evidence| == now.index
    requires Stands(wins, now.events, now.plan.steps, now.evidence) && AllGood(done.next.taken, StaleIn(rows, wins))
    ensures Stands(wins, done.next.events, done.next.plan.steps, done.next.evidence)
    decreases MAX_REPLANS - now.replans, |now.plan.steps| - now.index
  {
    if now.index < |now.plan.steps| {
      var turned := Turn(world, rows, now, from);
      if StaleIn(rows, wins)(now.plan.steps[now.index]) {
        BadNow(world, rows, now, from, StaleIn(rows, wins), done);
      } else {
        TurnStands(world, rows, wins, now, from, turned);
        if turned.exit.Continue? {
          WorkStands(world, rows, wins, turned.next, turned.performs, done);
        }
      }
    }
  }

  /** In a run that resumes only what its own steps earned, every success an outcome shows is about an action that
      happened, in an earlier life or in this one; and then "done" means that every required step of the final plan
      was performed. */
  lemma DoneWasPerformed(world: World, rows: Rows, wins: seq<Win>, from: nat, run: Run)
    requires run == RunOf(world, rows, from) && ResumesOwn(rows, wins, run) && run.ending.Ended?
    ensures Stands(wins, run.events, run.ending.outcome.plan.steps, run.ending.outcome.evidence)
    ensures run.ending.outcome.state.DONE? ==>
              forall s | s in run.ending.outcome.plan.steps && !s.optional :: Happened(wins, run.events, s.Does())
  {
    if Open(world.plan).Planned? {
      var start := Begun(Open(world.plan).plan);
      var done := WorkOf(world, rows, start, from);
      NoneBadIff(run.taken, StaleIn(rows, wins));
      WorkStands(world, rows, wins, start, from, done);
      EndsWithEvidence(world, rows, start, from, done);
      RunKeeps(world, rows, from, run);
    }
  }

  // --------------------------------------------------------------- done by name, and again

  /** The only step of a plan, done before or successful at once. */
  lemma OneTurn(world: World, rows: Rows, from: nat, now: Progress, step: Step, done: Turned)
    requires now.plan.steps == [step] && now.index == 0 && now.replans == 0 && now.evidence == []
    requires now.taken == [] && now.events == [] && done == WorkOf(world, rows, now, from)
    requires IsDone(rows, step.key) || (world.perform(from).Returned? && world.perform(from).result.ok)
    ensures done.exit.Continue? && done.next.taken == [step] && done.next.plan == now.plan
    ensures |done.next.evidence| == 1 && Ran(done.next.evidence[0])
    ensures done.next.evidence[0].tool == step.tool && done.next.evidence[0].expects == step.expects
    ensures IsDone(rows, step.key) ==>
              done.next.events == [] && done.performs == from && done.next.evidence[0].value == rows[step.key].result
    ensures !IsDone(rows, step.key) ==>
              var value := world.perform(from).result.value;
              && done.next.evidence[0].value == Some(value)
              && done.next.events
              == [Started(step.key, step.Does()), Performed(step.key, true), Finished(step.key, true, value)]
  {
    var turned := Turn(world, rows, now, from);
    if !IsDone(rows, step.key) {
      var reply := world.perform(from);
      var events := [Started(step.key, step.Does()), Performed(step.key, true),
                     Finished(step.key, true, reply.result.value)];
      assert StepOf(world, step, from) == Tried(reply, events, from + 1);
    }
    assert done == WorkOf(world, rows, turned.next, turned.performs);
  }

  lemma OneRan(world: World, p: Progress, o: Outcome)
    requires p.plan.origin.FromModel? && |p.evidence| == 1 && Ran(p.evidence[0]) && o == Conclude(world, p)
    ensures !world.hasCriteria && p.evidence[0].expects == "" ==> o.state.DONE?
  {
    DoneMeans(world, p, o);
    CheckMeans(p.evidence, FromModel, world.hasCriteria, world.usable, world.judgement);
  }

  /** A run of one step. */
  lemma OneStep(world: World, rows: Rows, from: nat, step: Step, run: Run)
    requires Open(world.plan) == Planned(Plan([step], "", FromModel)) && run == RunOf(world, rows, from)
    requires IsDone(rows, step.key) || (world.perform(from).Returned? && world.perform(from).result.ok)
    ensures run.ending.Ended? && run.taken == [step]
    ensures |run.ending.outcome.evidence| == 1 && run.ending.outcome.evidence[0].tool == step.tool
    ensures run.ending.outcome.evidence[0].ok
    ensures !world.hasCriteria && step.expects == "" ==> run.ending.outcome.state.DONE?
    ensures IsDone(rows, step.key) ==> run.events == [] && run.performs == from
    ensures !IsDone(rows, step.key) ==>
              var value := world.perform(from).result.value;
              run.events == [Started(step.key, step.Does()), Performed(step.key, true), Finished(step.key, true, value)]
  {
    var start := Begun(Plan([step], "", FromModel));
    var done := WorkOf(world, rows, start, from);
    OneTurn(world, rows, from, start, step, done);
    OneRan(world, done.next, Conclude(world, done.next));
  }

  /** What the success of one step leaves: its row is done, and its action happened. */
  lemma OneWin(k: Key, action: Action, value: Journals.Value, events: seq<Event>)
    requires events == [Started(k, action), Performed(k, true), Finished(k, true, value)]
    ensures Replay(map[], events) == map[k := Row(Done, Some(value), 1, action)]
    ensures Wins(events) == [Win(k, action)]
  {
    var started := [Started(k, action)];
    var performed := started + [Performed(k, true)];
    assert [] + started == started && performed + [Finished(k, true, value)] == events;
    Next([], Started(k, action));
    Next(started, Performed(k, true));
    Next(performed, Finished(k, true, value));
  }

  lemma AskedOneStep(asked: Plan, step: Step)
    requires asked.steps == [step] && Stable(step.key)
    ensures Open(Asked(asked)) == Planned(Plan([step], asked.question, FromModel))
  {
    FirstKeys(step.key);
    assert Keys([step]) == [step.key];
    assert Keyed([step]) == [step];
  }

  /** Two lives of one task, planned one step each, and nothing cut off. */
  ghost predicate TwoLives(one: World, two: World, first: Step, second: Step, from: nat, life: Run, run: Run)
  {
    && Stable(first.key) && Stable(second.key)
    && one.plan == Asked(Plan([first], "", FromModel)) && two.plan == Asked(Plan([second], "", FromModel))
    && one.perform(0).Returned? && one.perform(0).result.ok
    && life == RunOf(one, map[], 0) && run == RunOf(two, Replay(map[], life.events), from)
  }

  lemma FirstLife(one: World, two: World, first: Step, second: Step, from: nat, life: Run, run: Run)
    requires TwoLives(one, two, first, second, from, life, run)
    ensures Replay(map[], life.events)
         == map[first.key := Row(Done, Some(one.perform(0).result.value), 1, first.Does())]
    ensures Wins(life.events) == [Win(first.key, first.Does())]
  {
    AskedOneStep(Plan([first], "", FromModel), first);
    OneStep(one, map[], 0, first, life);
    OneWin(first.key, first.Does(), one.perform(0).result.value, life.events);
  }

  lemma OnlyHappened(win: Win, action: Action)
    requires win.action != action
    ensures !Happened([win], [], action)
  {
  }

  /** A later life that is planned another action under a key that is done reports it as done without performing
      anything: so it is for every two actions, and the action happened in no life. */
  lemma DoneByName(one: World, two: World, first: Step, second: Step, from: nat, life: Run, run: Run)
    requires TwoLives(one, two, first, second, from, life, run)
    requires first.key == second.key && first.Does() != second.Does() && !two.hasCriteria && second.expects == ""
    ensures IsDone(Replay(map[], life.events), first.key)
    ensures run.ending.Ended? && run.ending.outcome.state.DONE? && |run.ending.outcome.evidence| == 1
    ensures run.ending.outcome.evidence[0].ok && run.ending.outcome.evidence[0].tool == second.tool
    ensures run.events == [] && run.performs == from
    ensures !Happened(Wins(life.events), run.events, second.Does())
  {
    FirstLife(one, two, first, second, from, life, run);
    AskedOneStep(Plan([second], "", FromModel), second);
    OneStep(two, Replay(map[], life.events), from, second, run);
    OnlyHappened(Win(first.key, first.Does()), second.Does());
  }

  /** The other way round, the same action under another key is performed again. */
  lemma AgainByName(one: World, two: World, first: Step, second: Step, from: nat, life: Run, run: Run)
    requires TwoLives(one, two, first, second, from, life, run)
    requires first.key != second.key && first.Does() == second.Does()
    requires two.perform(from).Returned? && two.perform(from).result.ok
    ensures Wins(life.events) == [Win(first.key, first.Does())] && Wins(run.events) == [Win(second.key, first.Does())]
  {
    FirstLife(one, two, first, second, from, life, run);
    AskedOneStep(Plan([second], "", FromModel), second);
    OneStep(two, Replay(map[], life.events), from, second, run);
    OneWin(second.key, second.Does(), two.perform(from).result.value, run.events);
  }

  // --------------------------------------------------------- what the row itself can tell

  /** The first action started under a key. */
  function FirstTry(events: seq<Event>, k: Key): Option<Action>
  {
    if events == [] then None
    else
      var first, e := FirstTry(events[..|events| - 1], k), events[|events| - 1];
      if first.None? && e.Started? && e.key == k then Some(e.action) else first
  }

  /** The tool and the parameters in a row are those the key was first started with, whatever was done under it
      later. */
  lemma {:induction false} RowNamesFirst(rows: Rows, events: seq<Event>, k: Key)
    ensures k in Replay(rows, events) <==> k in rows || FirstTry(events, k).Some?
    ensures k in rows ==> Replay(rows, events)[k].action == rows[k].action
    ensures k !in rows && FirstTry(events, k).Some? ==> Replay(rows, events)[k].action == FirstTry(events, k).value
  {
    if events != [] {
      RowNamesFirst(rows, events[..|events| - 1], k);
    }
  }

  /** A step that failed for good leaves a row with its action. */
  lemma FirstRow(k: Key, first: Action, failed: seq<Event>)
    requires failed == [Started(k, first), Performed(k, false), Finished(k, false, "")]
    ensures k in Replay(map[], failed) && Replay(map[], failed)[k].action == first
  {
    var started := [Started(k, first)];
    var performed := started + [Performed(k, false)];
    assert [] + started == started && performed + [Finished(k, false, "")] == failed;
    Next([], Started(k, first));
    Next(started, Performed(k, false));
    Next(performed, Finished(k, false, ""));
  }

  /** One that succeeds under the same key is done, is its earner, and leaves the action in the row. */
  lemma SecondRow(k: Key, second: Action, failed: seq<Event>, started: seq<Event>, performed: seq<Event>,
                  events: seq<Event>)
    requires k in Replay(map[], failed) && started == failed + [Started(k, second)]
    requires performed == started + [Performed(k, true)] && events == performed + [Finished(k, true, "")]
    ensures IsDone(Replay(map[], events), k)
    ensures Replay(map[], events)[k].action == Replay(map[], failed)[k].action
    ensures Earner(Wins(events), k) == Some(second)
  {
    Next(failed, Started(k, second));
    Next(started, Performed(k, true));
    Next(performed, Finished(k, true, ""));
    EarnerNext(started, Performed(k, true), k);
    EarnerNext(performed, Finished(k, true, ""), k);
  }

  lemma SplicedAll(plan: Plan, repair: Plan, step: Step)
    requires repair.steps == [step] && Stable(step.key)
    ensures Spliced(plan, 0, repair) == Plan([step], "", FromModel)
  {
    FirstKeys(step.key);
    assert plan.steps[..0] + repair.steps == [step];
    assert Keys([step]) == [step.key];
  }

  lemma SecondTurn(world: World, rows: Rows, now: Progress, from: nat, done: Turned)
    requires now.replans <= MAX_REPLANS && now.index + 1 == |now.plan.steps| && world.perform(from) == SUCCESS
    requires !IsDone(rows, now.plan.steps[now.index].key) && done == WorkOf(world, rows, now, from)
    ensures done.next.events == now.events + StepTrace(now.plan.steps[now.index], true)
  {
    SucceedingStep(world, rows, now, from, Turn(world, rows, now, from));
  }

  lemma WorkOn(world: World, rows: Rows, now: Progress, from: nat, turned: Turned, done: Turned)
    requires now.replans <= MAX_REPLANS && now.index < |now.plan.steps| && turned == Turn(world, rows, now, from)
    requires turned.exit.Continue? && done == WorkOf(world, rows, now, from)
    ensures turned.next.replans <= MAX_REPLANS && done == WorkOf(world, rows, turned.next, turned.performs)
  {
  }

  lemma FailsThenSucceeds(world: World, first: Plan, after: Plan, now: Progress, done: Turned)
    requires |first.steps| == 1 && |after.steps| == 1 && Mended(world.repair)(first, 0, 0) == Some(after)
    requires world.perform(0) == FAILURE && world.perform(1) == SUCCESS
    requires now == Begun(first) && done == WorkOf(world, map[], now, 0)
    ensures done.next.events == StepTrace(first.steps[0], false) + StepTrace(after.steps[0], true)
  {
    var turned := Turn(world, map[], now, 0);
    FailingStep(world, map[], now, 0, after, turned);
    WorkOn(world, map[], now, 0, turned, done);
    SecondTurn(world, map[], turned.next, 1, done);
  }

  lemma RunFailsThenSucceeds(world: World, first: Plan, after: Plan, run: Run)
    requires Open(world.plan) == Planned(first) && run == RunOf(world, map[], 0)
    requires |first.steps| == 1 && |after.steps| == 1 && Mended(world.repair)(first, 0, 0) == Some(after)
    requires world.perform(0) == FAILURE && world.perform(1) == SUCCESS
    ensures run.events == StepTrace(first.steps[0], false) + StepTrace(after.steps[0], true)
  {
    var now := Begun(first);
    FailsThenSucceeds(world, first, after, now, WorkOf(world, map[], now, 0));
  }

  lemma TracedTwice(k: Key, first: Action, second: Action, events: seq<Event>)
    requires events == [Started(k, first), Performed(k, false), Finished(k, false, ""),
                        Started(k, second), Performed(k, true), Finished(k, true, "")]
    ensures IsDone(Replay(map[], events), k) && Replay(map[], events)[k].action == first
    ensures Earner(Wins(events), k) == Some(second)
  {
    var failed := [Started(k, first), Performed(k, false), Finished(k, false, "")];
    var started := failed + [Started(k, second)];
    var performed := started + [Performed(k, true)];
    FirstRow(k, first, failed);
    SecondRow(k, second, failed, started, performed, events);
  }

  lemma MisnamedRun(world: World, plan: Plan, after: Plan, run: Run)
    requires Open(world.plan) == Planned(plan) && run == RunOf(world, map[], 0)
    requires |plan.steps| == 1 && |after.steps| == 1 && Mended(world.repair)(plan, 0, 0) == Some(after)
    requires plan.steps[0].key == after.steps[0].key && world.perform(0) == FAILURE && world.perform(1) == SUCCESS
    ensures IsDone(Replay(map[], run.events), plan.steps[0].key)
    ensures Replay(map[], run.events)[plan.steps[0].key].action == plan.steps[0].Does()
    ensures Earner(Wins(run.events), plan.steps[0].key) == Some(after.steps[0].Does())
  {
    RunFailsThenSucceeds(world, plan, after, run);
    TracedTwice(plan.steps[0].key, plan.steps[0].Does(), after.steps[0].Does(), run.events);
  }

  lemma MendedByOne(planning: Planning, repair: nat -> Option<Plan>, first: Step, second: Step)
    requires planning == Asked(Plan([first], "", FromModel)) && repair(0) == Some(Plan([second], "", FromModel))
    requires !first.optional && first.key == second.key && Stable(first.key)
    ensures Open(planning) == Planned(Plan([first], "", FromModel))
    ensures Mended(repair)(Plan([first], "", FromModel), 0, 0) == Some(Plan([second], "", FromModel))
  {
    var plan, offer := Plan([first], "", FromModel), Plan([second], "", FromModel);
    AskedOneStep(plan, first);
    AskedOneStep(offer, second);
    SplicedAll(plan, offer, second);
    MendedOnce(repair, plan, 0, offer);
  }

  /** So a row can misname the action that earned it: a repair under the key of the step it replaces succeeds, and
      the row has the tool and the parameters that failed. */
  lemma RowMisnames(world: World, first: Step, second: Step, run: Run)
    requires world.plan == Asked(Plan([first], "", FromModel)) && run == RunOf(world, map[], 0)
    requires world.repair(0) == Some(Plan([second], "", FromModel)) && !first.optional
    requires first.key == second.key && Stable(first.key)
    requires world.perform(0) == FAILURE && world.perform(1) == SUCCESS
    ensures IsDone(Replay(map[], run.events), first.key)
    ensures Replay(map[], run.events)[first.key].action == first.Does()
    ensures Earner(Wins(run.events), first.key) == Some(second.Does())
  {
    MendedByOne(world.plan, world.repair, first, second);
    MisnamedRun(world, Plan([first], "", FromModel), Plan([second], "", FromModel), run);
  }

  // ------------------------------------------------------------- what an outcome shows of it

  /** Every success in evidence shows the result the journal has for its step. */
  ghost predicate Recorded(rows: Rows, events: seq<Event>, steps: seq<Step>, evidence: seq<Evidence>)
  {
    forall i | 0 <= i < |evidence| && i < |steps| && evidence[i].ok ::
      RowShows(Replay(rows, events), steps[i].key, evidence[i].value)
  }

  predicate RowShows(rows: Rows, k: Key, value: Option<Journals.Value>) { k in rows && rows[k].result == value }

  lemma OtherRowStays(rows: Rows, before: seq<Event>, more: seq<Event>, k: Key, value: Option<Journals.Value>)
    requires RowShows(Replay(rows, before), k, value) && forall i | 0 <= i < |more| :: more[i].key != k
    ensures RowShows(Replay(rows, before + more), k, value)
  {
    ReplayAppend(rows, before, more);
    NoneWithoutEvents(Replay(rows, before), more, k);
  }

  lemma FinishedRowShows(rows: Rows, before: seq<Event>, more: seq<Event>, k: Key, result: ActionResult)
    requires StepEvents(k, more, Some(result))
    ensures RowShows(Replay(rows, before + more), k, Some(result.value))
  {
    var n := |more| - 1;
    ReplayAppend(rows, before, more);
    assert BeganIn(more[..n], k) by { assert more[..n][0] == more[0]; }
    RowStays(Replay(rows, before), more[..n], k);
    ValueStays(Replay(rows, before), more, n, k);
  }

  lemma StepKeys(k: Key, more: seq<Event>, result: Option<ActionResult>)
    requires StepEvents(k, more, result)
    ensures forall i | 0 <= i < |more| :: more[i].key == k
  {
  }

  /** The keys of the steps behind the loop are not the one of the step at the index. */
  lemma KeysBehindDiffer(plan: Plan, index: nat)
    requires WellKeyed(plan) && index < |plan.steps|
    ensures forall i | 0 <= i < index :: plan.steps[i].key != plan.steps[index].key
  {
    FixpointUnique(Keys(plan.steps));
    forall i | 0 <= i < index
      ensures plan.steps[i].key != plan.steps[index].key
    {
      assert Keys(plan.steps)[i] != Keys(plan.steps)[index];
    }
  }

  lemma RecordedLater(rows: Rows, now: Progress, more: seq<Event>, result: Option<ActionResult>)
    requires Recorded(rows, now.events, now.plan.steps, now.evidence) && |now.evidence| == now.index
    requires WellKeyed(now.plan) && now.index < |now.plan.steps|
    requires StepEvents(now.plan.steps[now.index].key, more, result)
    ensures Recorded(rows, now.events + more, now.plan.steps, now.evidence)
  {
    KeysBehindDiffer(now.plan, now.index);
    StepKeys(now.plan.steps[now.index].key, more, result);
    forall i | 0 <= i < |now.evidence| && now.evidence[i].ok
      ensures RowShows(Replay(rows, now.events + more), now.plan.steps[i].key, now.evidence[i].value)
    {
      OtherRowStays(rows, now.events, more, now.plan.steps[i].key, now.evidence[i].value);
    }
  }

  lemma JudgeRecords(world: World, rows: Rows, now: Progress, result: ActionResult, next: Progress)
    requires now.index < |now.plan.steps| && |now.evidence| == now.index && next == Judge(world, now, result).0
    requires Recorded(rows, now.events, now.plan.steps, now.evidence) && WellKeyed(now.plan)
    requires result.ok ==>
               RowShows(Replay(rows, now.events), now.plan.steps[now.index].key, Some(result.value))
    ensures Recorded(rows, next.events, next.plan.steps, next.evidence)
  {
    if next.plan != now.plan {
      SpliceRecords(rows, now, Sanitised(world.repair(now.replans).value), next.plan);
    } else if next.evidence != now.evidence {
      MoreRecorded(rows, now, next.evidence[|now.evidence|]);
    }
  }

  lemma SpliceRecords(rows: Rows, now: Progress, repair: Plan, after: Plan)
    requires now.index < |now.plan.steps| && |now.evidence| == now.index && WellKeyed(now.plan)
    requires Recorded(rows, now.events, now.plan.steps, now.evidence) && after == Spliced(now.plan, now.index, repair)
    ensures Recorded(rows, now.events, after.steps, now.evidence)
  {
    SplicedKeepsKeys(now.plan, now.index, repair);
  }

  lemma MoreRecorded(rows: Rows, now: Progress, e: Evidence)
    requires now.index < |now.plan.steps| && |now.evidence| == now.index
    requires Recorded(rows, now.events, now.plan.steps, now.evidence)
    requires e.ok ==> RowShows(Replay(rows, now.events), now.plan.steps[now.index].key, e.value)
    ensures Recorded(rows, now.events, now.plan.steps, now.evidence + [e])
  {
  }

  lemma SkipRecords(rows: Rows, now: Progress, next: Progress)
    requires now.index < |now.plan.steps| && |now.evidence| == now.index && NothingDone(rows, now.events)
    requires Recorded(rows, now.events, now.plan.steps, now.evidence) && IsDone(rows, now.plan.steps[now.index].key)
    requires next == Skip(now, rows[now.plan.steps[now.index].key].result)
    ensures Recorded(rows, next.events, next.plan.steps, next.evidence)
  {
    NoneWithoutEvents(rows, now.events, now.plan.steps[now.index].key);
  }

  lemma TurnRecords(world: World, rows: Rows, now: Progress, from: nat, turned: Turned)
    requires now.index < |now.plan.steps| && |now.evidence| == now.index && turned == Turn(world, rows, now, from)
    requires Recorded(rows, now.events, now.plan.steps, now.evidence) && WellKeyed(now.plan)
    requires NothingDone(rows, now.events)
    ensures Recorded(rows, turned.next.events, turned.next.plan.steps, turned.next.evidence)
  {
    var step := now.plan.steps[now.index];
    if IsDone(rows, step.key) {
      SkipRecords(rows, now, turned.next);
    } else {
      var done := StepOf(world, step, from);
      StepMeans(world, step, from);
      RecordedLater(rows, now, done.events, ResultOf(done.reply));
      if done.reply.Returned? {
        FinishedRowShows(rows, now.events, done.events, step.key, done.reply.result);
        JudgeRecords(world, rows, Noted(now, done.events), done.reply.result, turned.next);
      }
    }
  }

  lemma {:induction false} WorkRecords(world: World, rows: Rows, now: Progress, from: nat, done: Turned)
    requires now.replans <= MAX_REPLANS && done == WorkOf(world, rows, now, from) && InLoop(world, rows, now)
    ensures now.plans <= done.next.plans
    ensures Recorded(rows, now.events, now.plan.steps, now.evidence) && AllWellKeyed(done.next.plans) ==>
              Recorded(rows, done.next.events, done.next.plan.steps, done.next.evidence)
    decreases MAX_REPLANS - now.replans, |now.plan.steps| - now.index
  {
    if now.index < |now.plan.steps| {
      var turned := Turn(world, rows, now, from);
      TurnKeeps(world, rows, now, from, turned);
      TurnPlans(world, rows, now, from, turned);
      if turned.exit.Continue? {
        WorkRecords(world, rows, turned.next, turned.performs, done);
      }
      if Recorded(rows, now.events, now.plan.steps, now.evidence) && AllWellKeyed(done.next.plans) {
        assert now.plan == done.next.plans[now.replans];
        TurnRecords(world, rows, now, from, turned);
      }
    }
  }

  lemma TurnPlans(world: World, rows: Rows, now: Progress, from: nat, turned: Turned)
    requires now.index < |now.plan.steps| && turned == Turn(world, rows, now, from)
    ensures now.plans <= turned.next.plans
  {
  }

  /** In a run whose plans are well keyed every success an outcome shows, resumed or not, has the result that the
      journal has for that step afterwards. */
  lemma EvidenceIsJournalled(world: World, rows: Rows, from: nat, run: Run)
    requires run == RunOf(world, rows, from) && run.ending.Ended? && AllWellKeyed(run.plans)
    ensures Recorded(rows, run.events, run.ending.outcome.plan.steps, run.ending.outcome.evidence)
  {
    if Open(world.plan).Planned? {
      var start := Begun(Open(world.plan).plan);
      var done := WorkOf(world, rows, start, from);
      LoopBegins(world, rows, start.plan);
      WorkRecords(world, rows, start, from, done);
      EndsWithEvidence(world, rows, start, from, done);
    }
  }

  /** A plan of one step that this machine made itself ends done exactly if the step succeeds, now or in an earlier
      life, with a value that is usable. */
  lemma InstinctIsDoneIff(world: World, rows: Rows, from: nat, step: Step, run: Run)
    requires world.plan == Instinct(step) && run == RunOf(world, rows, from)
    requires IsDone(rows, step.key) || (world.perform(from).Returned? && world.perform(from).result.ok)
    ensures var value := if IsDone(rows, step.key) then rows[step.key].result
                         else Some(world.perform(from).result.value);
            && run.ending.Ended? && |run.ending.outcome.evidence| == 1 && run.ending.outcome.evidence[0].value == value
            && (run.ending.outcome.state.DONE? <==> world.usable(step.tool, value))
  {
    var start := Begun(Plan([step], "", FromReflex));
    var done := WorkOf(world, rows, start, from);
    OneTurn(world, rows, from, start, step, done);
    OneReflex(world, done.next, Conclude(world, done.next));
  }

  lemma OneReflex(world: World, p: Progress, o: Outcome)
    requires p.plan.origin.FromReflex? && |p.evidence| == 1 && Ran(p.evidence[0]) && o == Conclude(world, p)
    ensures o.state.DONE? <==> world.usable(p.evidence[0].tool, p.evidence[0].value)
  {
    DoneMeans(world, p, o);
    var evidence := p.evidence;
    CheckMeans(evidence, FromReflex, world.hasCriteria, world.usable, world.judgement);
    OnlyOne(evidence);
  }

  lemma OnlyOne(evidence: seq<Evidence>)
    requires |evidence| == 1
    ensures forall e :: e in evidence <==> e == evidence[0]
  {
  }
}
