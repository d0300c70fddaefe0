/** What every run of the loop keeps, whatever the planner, the tools and the judge answer (agent/loop.py). */
module LoopProofs {
  import opened Options
  import opened Journals
  import opened Lives
  import opened LoopSpec
  import opened Rekey
  import opened Verifier

  // ----------------------------------------------------------------------------- traces

  /** The keys finished successfully in a sequence of events. */
  ghost function Spent(events: seq<Event>): set<Key>
  {
    set i | 0 <= i < |events| && events[i].Finished? && events[i].ok :: events[i].key
  }

  /** How many step executions began. */
  function Starts(events: seq<Event>): nat
  {
    if events == [] then 0 else Starts(events[..|events| - 1]) + if events[|events| - 1].Started? then 1 else 0
  }

  lemma {:induction false} StartsConcat(a: seq<Event>, b: seq<Event>)
    ensures Starts(a + b) == Starts(a) + Starts(b)
  {
    if b == [] {
      assert a + b == a;
    } else {
      StartsConcat(a, b[..|b| - 1]);
      assert (a + b)[..|a + b| - 1] == a + b[..|b| - 1];
    }
  }

  lemma {:induction false} StartsOnce(events: seq<Event>)
    requires events != [] && events[0].Started? && forall i | 1 <= i < |events| :: !events[i].Started?
    ensures Starts(events) == 1
  {
    if |events| > 1 {
      StartsOnce(events[..|events| - 1]);
    } else {
      assert events[..0] == [];
    }
  }

  /** The last event is not a success waiting for its journal row. */
  ghost predicate Settled(events: seq<Event>)
  {
    events != [] ==> !(events[|events| - 1].Performed? && events[|events| - 1].ok)
  }

  /** The events of one step: it is started, performed without success some times, and then either
      performed once more and finished with that outcome, or stopped by an interruption. */
  ghost predicate StepEvents(k: Key, events: seq<Event>, result: Option<ActionResult>)
  {
    var n := |events|;
    && n >= 1 && events[0].Started? && events[0].key == k
    && (result.None? ==> forall i | 1 <= i < n :: events[i] == Performed(k, false))
    && (result.Some? ==>
          && n >= 3
          && (forall i | 1 <= i < n - 2 :: events[i] == Performed(k, false))
          && events[n - 2] == Performed(k, result.value.ok)
          && events[n - 1] == Finished(k, result.value.ok, result.value.value))
  }

  lemma {:induction false} ReplayPerforms(rows: Rows, events: seq<Event>)
    requires events != [] && forall i | 1 <= i < |events| :: events[i].Performed?
    ensures Replay(rows, events) == Apply(rows, events[0])
  {
    if |events| > 1 {
      ReplayPerforms(rows, events[..|events| - 1]);
    } else {
      assert Replay(rows, events[..0]) == rows;
    }
  }

  lemma StepExtends(rows: Rows, before: seq<Event>, k: Key, events: seq<Event>, result: Option<ActionResult>)
    requires Orderly(rows, before) && Settled(before) && StepEvents(k, events, result) && !IsDone(rows, k)
    ensures Orderly(rows, before + events) && Settled(before + events)
  {
    StepPrompt(before, k, events, result);
    StepSettled(before, k, events, result);
    StepJustified(before, k, events, result);
  }

  lemma StepPrompt(before: seq<Event>, k: Key, events: seq<Event>, result: Option<ActionResult>)
    requires Prompt(before) && Settled(before) && StepEvents(k, events, result)
    ensures Prompt(before + events)
  {
    var all, m := before + events, |before|;
    forall i | 0 <= i < |all| - 1 && all[i].Performed? && all[i].ok
      ensures all[i + 1].Finished? && all[i + 1].key == all[i].key && all[i + 1].ok
    {
      if i < m {
        assert all[i] == before[i];
        assert i + 1 < m && all[i + 1] == before[i + 1];
      } else {
        assert all[i] == events[i - m] && all[i + 1] == events[i - m + 1];
      }
    }
  }

  lemma StepSettled(before: seq<Event>, k: Key, events: seq<Event>, result: Option<ActionResult>)
    requires StepEvents(k, events, result)
    ensures Settled(before + events)
  {
    assert (before + events)[|before + events| - 1] == events[|events| - 1];
  }

  lemma StepJustified(before: seq<Event>, k: Key, events: seq<Event>, result: Option<ActionResult>)
    requires Justified(before) && StepEvents(k, events, result)
    ensures Justified(before + events)
  {
    var all, m := before + events, |before|;
    assert all[m] == events[0];
    forall i | 0 <= i < |all| && all[i].Finished?
      ensures i > 0 && all[i - 1] == Performed(all[i].key, all[i].ok) && BeganIn(all[..i], all[i].key)
    {
      if i < m {
        assert all[..i] == before[..i];
      } else {
        assert all[..i][m] == events[0];
      }
    }
  }

  /** A key is spent exactly by the success of a step. */
  lemma StepSpends(before: seq<Event>, k: Key, events: seq<Event>, result: Option<ActionResult>)
    requires StepEvents(k, events, result)
    ensures Starts(before + events) == Starts(before) + 1
    ensures Spent(before + events) == Spent(before) + if result.Some? && result.value.ok then {k} else {}
    ensures NoReuse(before) && k !in Spent(before) ==> NoReuse(before + events)
  {
    StartsConcat(before, events);
    StartsOnce(events);
    SpentConcat(before, events);
    SpentByStep(k, events, result);
    if NoReuse(before) && k !in Spent(before) {
      UnspentReuse(before, k, events, result);
    }
  }

  lemma SpentConcat(a: seq<Event>, b: seq<Event>)
    ensures Spent(a + b) == Spent(a) + Spent(b)
  {
    forall x | x in Spent(a) + Spent(b)
      ensures x in Spent(a + b)
    {
      if x in Spent(a) {
        var i :| 0 <= i < |a| && a[i].Finished? && a[i].ok && a[i].key == x;
        assert (a + b)[i] == a[i];
      } else {
        var i :| 0 <= i < |b| && b[i].Finished? && b[i].ok && b[i].key == x;
        assert (a + b)[|a| + i] == b[i];
      }
    }
  }

  lemma SpentByStep(k: Key, events: seq<Event>, result: Option<ActionResult>)
    requires StepEvents(k, events, result)
    ensures Spent(events) == if result.Some? && result.value.ok then {k} else {}
  {
    if result.Some? && result.value.ok {
      assert events[|events| - 1] == Finished(k, true, result.value.value);
    }
  }

  lemma UnspentReuse(before: seq<Event>, k: Key, events: seq<Event>, result: Option<ActionResult>)
    requires NoReuse(before) && k !in Spent(before) && StepEvents(k, events, result)
    ensures NoReuse(before + events)
  {
    var all, m := before + events, |before|;
    forall i, j | 0 <= i < j < |all| && all[i].Finished? && all[i].ok
      ensures all[j].key != all[i].key
    {
      if i < m {
        assert all[i] == before[i] && before[i].key in Spent(before);
      }
    }
  }

  // ------------------------------------------------------------------------- one step

  /** Answers `from` up to but not including `to` were failures worth another try. */
  ghost predicate Retried(world: World, from: nat, to: nat)
  {
    forall i | from <= i < to ::
      world.perform(i).Returned? && !world.perform(i).result.ok && world.perform(i).result.retryable
  }

  ghost predicate LastReply(world: World, performs: nat, reply: Reply)
  {
    performs > 0 && reply == world.perform(performs - 1)
  }

  function ResultOf(reply: Reply): Option<ActionResult> { if reply.Returned? then Some(reply.result) else None }

  /** A step is tried at most as often as it may be, again only after a failure worth it, and its last reply
      counts. */
  ghost predicate TriedWell(world: World, done: Tried, from: nat, left: nat)
  {
    && from < done.performs <= from + left
    && LastReply(world, done.performs, done.reply) && Retried(world, from, done.performs - 1)
    && (done.reply.Returned? && !done.reply.result.ok && done.reply.result.retryable ==> done.performs == from + left)
  }

  /** The actions of one step: without success up to the last. */
  ghost predicate TryEvents(k: Key, events: seq<Event>, reply: Reply)
  {
    && (forall i | 0 <= i < |events| - 1 :: events[i] == Performed(k, false))
    && (reply.Returned? ==> events != [] && events[|events| - 1] == Performed(k, reply.result.ok))
    && (!reply.Returned? ==> forall i | 0 <= i < |events| :: events[i] == Performed(k, false))
  }

  lemma {:induction false} TryMeans(world: World, k: Key, from: nat, left: nat, tried: seq<Event>)
    requires left >= 1 && forall i | 0 <= i < |tried| :: tried[i] == Performed(k, false)
    ensures TriedWell(world, TryFrom(world, k, from, left, tried), from, left)
    ensures TryEvents(k, TryFrom(world, k, from, left, tried).events, TryFrom(world, k, from, left, tried).reply)
    decreases left
  {
    var reply := world.perform(from);
    if reply.Returned? && !reply.result.ok && reply.result.retryable && left > 1 {
      TryMeans(world, k, from + 1, left - 1, tried + [Performed(k, false)]);
    }
  }

  lemma StepMeans(world: World, step: Step, from: nat)
    ensures var done := StepOf(world, step, from);
            && TriedWell(world, done, from, Attempts(world))
            && StepEvents(step.key, done.events, ResultOf(done.reply))
  {
    TryMeans(world, step.key, from, Attempts(world), []);
  }

  // --------------------------------------------------------------------------- evidence

  /** Evidence `i` is about step `i`: it is a success, or the step was optional and is recorded as skipped. */
  ghost predicate Aligned(steps: seq<Step>, evidence: seq<Evidence>)
  {
    && |evidence| <= |steps|
    && forall i | 0 <= i < |evidence| ::
         && evidence[i].tool == steps[i].tool && evidence[i].expects == steps[i].expects
         && if evidence[i].ok then !evidence[i].skipped else evidence[i].skipped && steps[i].optional
  }

  /** Evidence `i` is about step `i`, whatever came of it. */
  ghost predicate About(steps: seq<Step>, evidence: seq<Evidence>)
  {
    && |evidence| <= |steps|
    && forall i | 0 <= i < |evidence| :: evidence[i].tool == steps[i].tool && evidence[i].expects == steps[i].expects
  }

  /** Every success is backed by the journal: done when the run began, or finished by it. */
  ghost predicate Backed(rows: Rows, events: seq<Event>, steps: seq<Step>, evidence: seq<Evidence>)
  {
    forall i | 0 <= i < |evidence| && i < |steps| && evidence[i].ok ::
      IsDone(rows, steps[i].key) || steps[i].key in Spent(events)
  }

  /** The plans of a run: what the planner made, then one splice per repair. */
  ghost predicate PlanChain(world: World, plans: seq<Plan>)
  {
    && 1 <= |plans| <= 1 + MAX_REPLANS
    && Open(world.plan) == Planned(plans[0])
    && forall i, j | 0 <= i < j < |plans| && j == i + 1 :: Follows(world, plans[i], plans[j], i)
  }

  /** `after` replaces the rest of `before` by the repair that was the answer `ask`. */
  ghost predicate Follows(world: World, before: Plan, after: Plan, ask: nat)
  {
    exists index: nat :: RepairedAt(world, before, after, index, ask)
  }

  ghost predicate RepairedAt(world: World, before: Plan, after: Plan, index: nat, ask: nat)
  {
    && index < |before.steps| && !before.steps[index].optional && Repairs(world.repair, ask)
    && after == Repaired(world.repair, before, index, ask)
  }

  ghost predicate AllWellKeyed(plans: seq<Plan>) { forall i | 0 <= i < |plans| :: WellKeyed(plans[i]) }

  lemma ChainGrows(world: World, plans: seq<Plan>, last: Plan)
    requires PlanChain(world, plans) && |plans| <= MAX_REPLANS
    requires Follows(world, plans[|plans| - 1], last, |plans| - 1)
    ensures PlanChain(world, plans + [last])
  {
    var longer := plans + [last];
    forall i, j | 0 <= i < j < |longer| && j == i + 1
      ensures Follows(world, longer[i], longer[j], i)
    {
      assert longer[i] == plans[i];
      if j < |plans| { assert longer[j] == plans[j]; }
    }
  }

  // ------------------------------------------------------------------ the loop invariant

  /** The steps already behind the loop are the only ones whose keys were spent. */
  ghost predicate SpentBehind(events: seq<Event>, steps: seq<Step>, index: nat)
    requires index <= |steps|
  {
    forall k | k in Spent(events) :: exists i | 0 <= i < index :: steps[i].key == k
  }

  /** What is known of a plan that is well keyed, as all before it were. */
  ghost predicate KeyedInv(rows: Rows, steps: seq<Step>, index: nat, evidence: seq<Evidence>, events: seq<Event>)
    requires index <= |steps|
  {
    NoReuse(events) && SpentBehind(events, steps, index) && Backed(rows, events, steps, evidence)
  }

  /** What holds inside the loop: the evidence is about the steps behind it, and the steps executed so far
      and those still ahead fit the bound. */
  ghost predicate InLoop(world: World, rows: Rows, p: Progress)
  {
    && PlanChain(world, p.plans) && |p.plans| == p.replans + 1 && p.plan == p.plans[p.replans]
    && |p.evidence| == p.index <= |p.plan.steps| && Aligned(p.plan.steps, p.evidence)
    && Orderly(rows, p.events) && Settled(p.events)
    && Starts(p.events) + |p.plan.steps| - p.index <= |p.plans| * MAX_STEPS
    && (AllWellKeyed(p.plans) ==> KeyedInv(rows, p.plan.steps, p.index, p.evidence, p.events))
  }

  lemma LoopBegins(world: World, rows: Rows, first: Plan)
    requires Open(world.plan) == Planned(first)
    ensures InLoop(world, rows, Begun(first))
  {
    assert Spent([]) == {};
  }

  lemma AlignedMore(steps: seq<Step>, evidence: seq<Evidence>, e: Evidence)
    requires Aligned(steps, evidence) && |evidence| < |steps|
    requires e.tool == steps[|evidence|].tool && e.expects == steps[|evidence|].expects
    requires if e.ok then !e.skipped else e.skipped && steps[|evidence|].optional
    ensures Aligned(steps, evidence + [e])
  {
  }

  lemma NextKeyIsUnspent(plan: Plan, events: seq<Event>, index: nat)
    requires WellKeyed(plan) && index < |plan.steps| && SpentBehind(events, plan.steps, index)
    ensures plan.steps[index].key !in Spent(events)
  {
    FixpointUnique(Keys(plan.steps));
    forall i | 0 <= i < index
      ensures plan.steps[i].key != plan.steps[index].key
    {
      assert Keys(plan.steps)[i] != Keys(plan.steps)[index];
    }
  }

  lemma AdvanceKeyed(rows: Rows, steps: seq<Step>, index: nat, evidence: seq<Evidence>,
                     events: seq<Event>, events': seq<Event>, e: Evidence)
    requires |evidence| == index < |steps| && KeyedInv(rows, steps, index, evidence, events)
    requires NoReuse(events') && Spent(events) <= Spent(events') <= Spent(events) + {steps[index].key}
    requires e.ok ==> IsDone(rows, steps[index].key) || steps[index].key in Spent(events')
    ensures KeyedInv(rows, steps, index + 1, evidence + [e], events')
  {
    forall k | k in Spent(events')
      ensures exists i | 0 <= i < index + 1 :: steps[i].key == k
    {
      if k in Spent(events) {
        var i :| 0 <= i < index && steps[i].key == k;
      }
    }
  }

  /** A step that an earlier life finished is behind the loop at once. */
  lemma SkipInv(world: World, rows: Rows, now: Progress, value: Option<Journals.Value>)
    requires InLoop(world, rows, now) && now.index < |now.plan.steps|
    requires IsDone(rows, now.plan.steps[now.index].key)
    ensures InLoop(world, rows, Skip(now, value))
  {
    var e := StepEvidence(now.plan.steps[now.index], true, true, value);
    AlignedMore(now.plan.steps, now.evidence, e);
    if AllWellKeyed(now.plans) {
      AdvanceKeyed(rows, now.plan.steps, now.index, now.evidence, now.events, now.events, e);
    }
  }

  /** A step was executed and left the events `more`. */
  ghost predicate Executed(world: World, rows: Rows, now: Progress, more: seq<Event>, result: Option<ActionResult>)
  {
    && InLoop(world, rows, now) && now.index < |now.plan.steps|
    && !IsDone(rows, now.plan.steps[now.index].key)
    && StepEvents(now.plan.steps[now.index].key, more, result)
  }

  /** An executed step keeps the trace orderly and, in well-keyed plans, touches no key that was spent. */
  lemma ExecutedKeeps(world: World, rows: Rows, now: Progress, more: seq<Event>, result: Option<ActionResult>)
    requires Executed(world, rows, now, more, result)
    ensures Orderly(rows, now.events + more) && Settled(now.events + more)
    ensures Starts(now.events + more) == Starts(now.events) + 1
    ensures Spent(now.events + more)
         == Spent(now.events) + if result.Some? && result.value.ok then {now.plan.steps[now.index].key} else {}
    ensures AllWellKeyed(now.plans) ==> NoReuse(now.events + more)
  {
    var key := now.plan.steps[now.index].key;
    StepExtends(rows, now.events, key, more, result);
    StepSpends(now.events, key, more, result);
    if AllWellKeyed(now.plans) {
      NextKeyIsUnspent(now.plan, now.events, now.index);
    }
  }

  /** A step that succeeded, or was optional and failed, is behind the loop. */
  lemma AdvanceInv(world: World, rows: Rows, now: Progress, more: seq<Event>, result: ActionResult, next: Progress)
    requires Executed(world, rows, now, more, Some(result)) && (result.ok || now.plan.steps[now.index].optional)
    requires next == Judge(world, Noted(now, more), result).0
    ensures InLoop(world, rows, next)
  {
    var step := now.plan.steps[now.index];
    var e := StepEvidence(step, result.ok, false, if result.ok then Some(result.value) else None);
    ExecutedKeeps(world, rows, now, more, Some(result));
    AlignedMore(now.plan.steps, now.evidence, e);
    if AllWellKeyed(now.plans) {
      AdvanceKeyed(rows, now.plan.steps, now.index, now.evidence, now.events, now.events + more, e);
    }
  }

  /** A repair keeps what is behind the loop: the evidence still matches the plan, and in well-keyed plans
      the spent keys keep their steps. */
  lemma SpliceInv(world: World, rows: Rows, now: Progress, more: seq<Event>, result: ActionResult, next: Progress)
    requires Executed(world, rows, now, more, Some(result)) && !result.ok && !now.plan.steps[now.index].optional
    requires now.replans < MAX_REPLANS && Repairs(world.repair, now.replans)
    requires next == Judge(world, Noted(now, more), result).0
    ensures InLoop(world, rows, next)
  {
    ExecutedKeeps(world, rows, now, more, Some(result));
    RepairedShape(world, rows, now, next.plan);
    if AllWellKeyed(now.plans + [next.plan]) {
      SplicedKeyed(rows, now, next.plan, now.events + more);
    }
  }

  lemma AlignedSplice(plan: Plan, index: nat, repair: Plan, evidence: seq<Evidence>, after: Plan)
    requires index <= |plan.steps| && after == Spliced(plan, index, repair)
    requires |evidence| == index && Aligned(plan.steps, evidence)
    ensures |after.steps| == index + |repair.steps| && Aligned(after.steps, evidence)
  {
    SplicedPrefix(plan, index, repair);
  }

  /** The plan after a repair: no longer than the bound allows, and what is behind the loop is in its place. */
  lemma RepairedShape(world: World, rows: Rows, now: Progress, plan: Plan)
    requires InLoop(world, rows, now) && now.index < |now.plan.steps| && !now.plan.steps[now.index].optional
    requires now.replans < MAX_REPLANS && Repairs(world.repair, now.replans)
    requires plan == Repaired(world.repair, now.plan, now.index, now.replans)
    ensures PlanChain(world, now.plans + [plan])
    ensures now.index < |plan.steps| <= now.index + MAX_STEPS && Aligned(plan.steps, now.evidence)
  {
    AlignedSplice(now.plan, now.index, Sanitised(world.repair(now.replans).value), now.evidence, plan);
    ChainRepaired(world, now.plans, plan, now.index);
  }

  lemma ChainRepaired(world: World, plans: seq<Plan>, plan: Plan, index: nat)
    requires PlanChain(world, plans) && |plans| <= MAX_REPLANS
    requires RepairedAt(world, plans[|plans| - 1], plan, index, |plans| - 1)
    ensures PlanChain(world, plans + [plan])
  {
    ChainGrows(world, plans, plan);
  }

  lemma SplicedKeyed(rows: Rows, now: Progress, plan: Plan, events: seq<Event>)
    requires now.plans != [] && now.plan == now.plans[|now.plans| - 1] && now.index <= |now.plan.steps|
    requires |now.evidence| == now.index
    requires AllWellKeyed(now.plans + [plan]) && (exists repair :: plan == Spliced(now.plan, now.index, repair))
    requires AllWellKeyed(now.plans) ==>
               && KeyedInv(rows, now.plan.steps, now.index, now.evidence, now.events)
               && NoReuse(events) && Spent(events) == Spent(now.events)
    ensures now.index <= |plan.steps| && KeyedInv(rows, plan.steps, now.index, now.evidence, events)
  {
    assert forall i | 0 <= i < |now.plans| :: (now.plans + [plan])[i] == now.plans[i];
    var repair :| plan == Spliced(now.plan, now.index, repair);
    SplicedKeepsKeys(now.plan, now.index, repair);
    forall k | k in Spent(events)
      ensures exists i | 0 <= i < now.index :: plan.steps[i].key == k
    {
      var i :| 0 <= i < now.index && now.plan.steps[i].key == k;
      assert plan.steps[i].key == k;
    }
  }

  // --------------------------------------------------------- how the working part ends

  /** No repair is left: all were used, or the planner had no steps to offer. */
  ghost predicate GaveUp(world: World, plans: seq<Plan>)
  {
    |plans| == 1 + MAX_REPLANS || (plans != [] && !Repairs(world.repair, |plans| - 1))
  }

  /** How a run ends that a step stopped. */
  predicate StoppedBy(reply: Reply, ending: Ending)
  {
    match reply
    case TaskAborted => ending.Raised?
    case ApprovalRequired => ending.Ended? && ending.outcome.state.BLOCKED?
    case ApprovalDenied => ending.Ended? && ending.outcome.state.FAILED?
    case PolicyDenied => ending.Ended? && ending.outcome.state.FAILED?
    case Returned(_) => false
  }

  /** The outcome of a run that an approval or a refusal stopped: never done, resumable only if it waits. */
  predicate Interrupted(o: Outcome) { o.verification.None? && !o.state.DONE? && (o.resumable <==> o.state.BLOCKED?) }

  ghost predicate LastPlan(p: Progress) { |p.plans| == p.replans + 1 && p.plan == p.plans[p.replans] }

  /** What leaving the loop leaves behind: everything worked through, a required step that nothing could
      repair, or an ending that the last reply forced. */
  ghost predicate Leaves(world: World, turned: Turned, from: nat)
  {
    var p := turned.next;
    match turned.exit
    case Continue => p.index >= |p.plan.steps|
    case Break => p.evidence != [] && RequiredFailed(p.evidence[|p.evidence| - 1]) && GaveUp(world, p.plans)
    case Stop(ending) =>
      && turned.performs > from
      && (exists reply :: LastReply(world, turned.performs, reply) && StoppedBy(reply, ending))
      && (ending.Ended? ==> Interrupted(ending.outcome))
  }

  lemma TurnLeaves(world: World, rows: Rows, now: Progress, performs: nat, turned: Turned)
    requires LastPlan(now) && now.replans <= MAX_REPLANS && now.index < |now.plan.steps|
    requires turned == Turn(world, rows, now, performs)
    ensures turned.performs >= performs
    ensures if turned.exit.Continue? then LastPlan(turned.next) else Leaves(world, turned, performs)
  {
    var key := now.plan.steps[now.index].key;
    if !IsDone(rows, key) {
      StepMeans(world, now.plan.steps[now.index], performs);
      ReactLeaves(world, now, StepOf(world, now.plan.steps[now.index], performs), turned, performs);
    }
  }

  lemma ReactLeaves(world: World, now: Progress, done: Tried, turned: Turned, from: nat)
    requires LastPlan(now) && now.replans <= MAX_REPLANS && now.index < |now.plan.steps|
    requires TriedWell(world, done, from, Attempts(world)) && turned == React(world, now, done)
    ensures turned.performs > from
    ensures if turned.exit.Continue? then LastPlan(turned.next) else Leaves(world, turned, from)
  {
    if done.reply.Returned? {
      JudgeLeaves(world, Noted(now, done.events), done.reply.result, turned.next, turned.exit);
    } else {
      InterruptionMeans(now, done.reply, turned.exit.ending);
      StopLeaves(world, done, turned, from);
    }
  }

  lemma JudgeLeaves(world: World, now: Progress, result: ActionResult, next: Progress, exit: Exit)
    requires LastPlan(now) && now.replans <= MAX_REPLANS && now.index < |now.plan.steps|
    requires (next, exit) == Judge(world, now, result)
    ensures !exit.Stop? && (exit.Continue? ==> LastPlan(next))
    ensures exit.Break? ==>
              next.evidence != [] && RequiredFailed(next.evidence[|next.evidence| - 1]) && GaveUp(world, next.plans)
  {
  }

  lemma StopLeaves(world: World, done: Tried, turned: Turned, from: nat)
    requires TriedWell(world, done, from, Attempts(world)) && turned.exit.Stop? && turned.performs == done.performs
    requires StoppedBy(done.reply, turned.exit.ending)
    requires turned.exit.ending.Ended? ==> Interrupted(turned.exit.ending.outcome)
    ensures Leaves(world, turned, from)
  {
    assert LastReply(world, turned.performs, done.reply);
  }

  lemma InterruptionMeans(now: Progress, reply: Reply, ending: Ending)
    requires !reply.Returned? && ending == Interruption(now, reply)
    ensures StoppedBy(reply, ending) && (ending.Ended? ==> Interrupted(ending.outcome))
  {
  }

  lemma {:induction false} WorkLeaves(world: World, rows: Rows, now: Progress, performs: nat, done: Turned)
    requires LastPlan(now) && now.replans <= MAX_REPLANS && done == WorkOf(world, rows, now, performs)
    ensures done.performs >= performs && Leaves(world, done, performs)
    decreases MAX_REPLANS - now.replans, |now.plan.steps| - now.index
  {
    if now.index < |now.plan.steps| {
      var turned := Turn(world, rows, now, performs);
      TurnLeaves(world, rows, now, performs, turned);
      if turned.exit.Continue? {
        WorkLeaves(world, rows, turned.next, turned.performs, done);
      }
    }
  }

  // ------------------------------------------------------------- how much work is done

  /** The most actions that `steps` step executions can take. */
  ghost function Budget(world: World, steps: nat): nat
  {
    if steps == 0 then 0 else Budget(world, steps - 1) + Attempts(world)
  }

  lemma {:induction false} BudgetIs(world: World, steps: nat)
    ensures Budget(world, steps) == steps * Attempts(world)
  {
    if steps > 0 {
      BudgetIs(world, steps - 1);
    }
  }

  lemma StepBudget(world: World, events: seq<Event>, step: Step, performs: nat, done: Tried)
    requires done == StepOf(world, step, performs)
    ensures performs <= done.performs
    ensures done.performs - performs <= Budget(world, Starts(events + done.events)) - Budget(world, Starts(events))
  {
    StepMeans(world, step, performs);
    StepSpends(events, step.key, done.events, ResultOf(done.reply));
  }

  lemma TurnBudget(world: World, rows: Rows, now: Progress, performs: nat, turned: Turned)
    requires now.index < |now.plan.steps| && turned == Turn(world, rows, now, performs)
    ensures performs <= turned.performs
    ensures turned.performs - performs <= Budget(world, Starts(turned.next.events)) - Budget(world, Starts(now.events))
  {
    var key := now.plan.steps[now.index].key;
    if !IsDone(rows, key) {
      var done := StepOf(world, now.plan.steps[now.index], performs);
      StepBudget(world, now.events, now.plan.steps[now.index], performs, done);
    }
  }

  lemma {:induction false} WorkBudget(world: World, rows: Rows, now: Progress, performs: nat, done: Turned)
    requires now.replans <= MAX_REPLANS && done == WorkOf(world, rows, now, performs)
    ensures performs <= done.performs
    ensures done.performs - performs <= Budget(world, Starts(done.next.events)) - Budget(world, Starts(now.events))
    decreases MAX_REPLANS - now.replans, |now.plan.steps| - now.index
  {
    if now.index < |now.plan.steps| {
      var turned := Turn(world, rows, now, performs);
      TurnBudget(world, rows, now, performs, turned);
      if turned.exit.Continue? {
        WorkBudget(world, rows, turned.next, turned.performs, done);
      }
    }
  }

  // ---------------------------------------------------------- what the successes came with

  /** The tool of the step that was started last. */
  function LastTool(events: seq<Event>): string
  {
    if events == [] then ""
    else if events[|events| - 1].Started? then events[|events| - 1].action.tool
    else LastTool(events[..|events| - 1])
  }

  /** What the executed steps yielded according to the journal: tool and value of every success, in order. */
  function Yields(events: seq<Event>): seq<(string, Option<Verifier.Value>)>
  {
    if events == [] then []
    else
      var before, e := events[..|events| - 1], events[|events| - 1];
      Yields(before) + if e.Finished? && e.ok then [(LastTool(before), Some(e.value))] else []
  }

  /** What the evidence shows of them: tool and value of every success that was not resumed, in order. */
  function Gained(evidence: seq<Evidence>): seq<(string, Option<Verifier.Value>)>
  {
    if evidence == [] then []
    else
      var e := evidence[|evidence| - 1];
      Gained(evidence[..|evidence| - 1]) + if e.ok && !e.resumed then [(e.tool, e.value)] else []
  }

  /** The runtime returned this value as a success, as one of these answers. */
  ghost predicate Answered(world: World, from: nat, to: nat, value: Option<Verifier.Value>)
  {
    exists m | from <= m < to ::
      && world.perform(m).Returned? && world.perform(m).result.ok && value == Some(world.perform(m).result.value)
  }

  /** The evidence shows exactly what the journal says was yielded, and all of it is what the runtime returned. */
  ghost predicate Earned(world: World, from: nat, to: nat, events: seq<Event>, evidence: seq<Evidence>)
  {
    && Gained(evidence) == Yields(events)
    && forall y | y in Yields(events) :: Answered(world, from, to, y.1)
  }

  lemma YieldsMore(before: seq<Event>, e: Event)
    ensures Yields(before + [e])
         == Yields(before) + if e.Finished? && e.ok then [(LastTool(before), Some(e.value))] else []
    ensures LastTool(before + [e]) == if e.Started? then e.action.tool else LastTool(before)
  {
    assert (before + [e])[..|before + [e]| - 1] == before;
  }

  lemma LastBehind(before: seq<Event>, more: seq<Event>)
    requires more != []
    ensures before + more == before + more[..|more| - 1] + [more[|more| - 1]]
  {
  }

  lemma {:induction false} QuietEvents(before: seq<Event>, more: seq<Event>)
    requires forall i | 0 <= i < |more| :: more[i].Performed?
    ensures Yields(before + more) == Yields(before) && LastTool(before + more) == LastTool(before)
  {
    if more == [] {
      assert before + more == before;
    } else {
      var n := |more| - 1;
      QuietEvents(before, more[..n]);
      YieldsMore(before + more[..n], more[n]);
      LastBehind(before, more);
    }
  }

  /** A start and any attempts yield nothing yet; an outcome yields its value if it is a success. */
  lemma TraceYields(before: seq<Event>, first: Event, tries: seq<Event>, last: Event, tried: seq<Event>)
    requires first.Started? && last.Finished? && forall i | 0 <= i < |tries| :: tries[i].Performed?
    requires tried == before + [first] + tries
    ensures Yields(tried) == Yields(before)
    ensures Yields(tried + [last])
         == Yields(before) + if last.ok then [(first.action.tool, Some(last.value))] else []
  {
    YieldsMore(before, first);
    QuietEvents(before + [first], tries);
    YieldsMore(tried, last);
  }

  lemma TraceParts(before: seq<Event>, more: seq<Event>)
    requires |more| >= 1
    ensures before + more == before + [more[0]] + more[1..]
    ensures |more| >= 2 ==> before + more == before + [more[0]] + more[1..|more| - 1] + [more[|more| - 1]]
  {
  }

  /** What the end of a step is worth: its value under its tool if it succeeded, and nothing otherwise. */
  function GainOf(tool: string, result: Option<ActionResult>): seq<(string, Option<Verifier.Value>)>
  {
    if result.Some? && result.value.ok then [(tool, Some(result.value.value))] else []
  }

  /** That is what an executed step yields. */
  lemma StepYields(before: seq<Event>, step: Step, more: seq<Event>, result: Option<ActionResult>)
    requires StepEvents(step.key, more, result) && more[0] == Started(step.key, step.Does())
    ensures Yields(before + more) == Yields(before) + GainOf(step.tool, result)
  {
    var n := |more|;
    TraceParts(before, more);
    if result.None? {
      TraceYields(before, more[0], more[1..], Finished("", false, ""), before + [more[0]] + more[1..]);
    } else {
      TraceYields(before, more[0], more[1..n - 1], more[n - 1], before + [more[0]] + more[1..n - 1]);
    }
  }

  lemma GainedMore(evidence: seq<Evidence>, e: Evidence)
    ensures Gained(evidence + [e]) == Gained(evidence) + if e.ok && !e.resumed then [(e.tool, e.value)] else []
  {
    assert (evidence + [e])[..|evidence|] == evidence;
  }

  lemma AnsweredLonger(world: World, from: nat, to: nat, to': nat, events: seq<Event>)
    requires to <= to' && forall y | y in Yields(events) :: Answered(world, from, to, y.1)
    ensures forall y | y in Yields(events) :: Answered(world, from, to', y.1)
  {
    forall y | y in Yields(events)
      ensures Answered(world, from, to', y.1)
    {
      var m :| from <= m < to && world.perform(m).Returned? && world.perform(m).result.ok
               && y.1 == Some(world.perform(m).result.value);
    }
  }

  lemma JudgeGains(world: World, now: Progress, result: ActionResult, next: Progress)
    requires now.index < |now.plan.steps| && next == Judge(world, now, result).0
    ensures Gained(next.evidence)
         == Gained(now.evidence) + if result.ok then [(now.plan.steps[now.index].tool, Some(result.value))] else []
    ensures next.events == now.events
  {
    if |next.evidence| > |now.evidence| {
      GainedMore(now.evidence, next.evidence[|now.evidence|]);
    }
  }

  lemma EarnedMore(world: World, first: nat, from: nat, to: nat, events: seq<Event>, evidence: seq<Evidence>,
                   events': seq<Event>, evidence': seq<Evidence>, gain: seq<(string, Option<Verifier.Value>)>)
    requires Earned(world, first, from, events, evidence) && from <= to
    requires Yields(events') == Yields(events) + gain && Gained(evidence') == Gained(evidence) + gain
    requires forall y | y in gain :: Answered(world, first, to, y.1)
    ensures Earned(world, first, to, events', evidence')
  {
    AnsweredLonger(world, first, from, to, events);
  }

  lemma ReplyAnswers(world: World, first: nat, from: nat, done: Tried)
    requires TriedWell(world, done, from, Attempts(world)) && first <= from
    ensures forall tool, y | y in GainOf(tool, ResultOf(done.reply)) :: Answered(world, first, done.performs, y.1)
  {
    assert done.reply == world.perform(done.performs - 1);
  }

  lemma ReactGains(world: World, now: Progress, done: Tried, turned: Turned)
    requires now.index < |now.plan.steps| && turned == React(world, now, done)
    ensures turned.next.events == now.events + done.events && turned.performs == done.performs
    ensures Gained(turned.next.evidence)
         == Gained(now.evidence) + GainOf(now.plan.steps[now.index].tool, ResultOf(done.reply))
  {
    if done.reply.Returned? {
      JudgeGains(world, Noted(now, done.events), done.reply.result, turned.next);
    }
  }

  lemma ExecutedEarns(world: World, now: Progress, first: nat, from: nat, done: Tried, turned: Turned)
    requires now.index < |now.plan.steps| && Earned(world, first, from, now.events, now.evidence) && first <= from
    requires done == StepOf(world, now.plan.steps[now.index], from) && turned == React(world, now, done)
    ensures first <= turned.performs
    ensures Earned(world, first, turned.performs, turned.next.events, turned.next.evidence)
  {
    var step := now.plan.steps[now.index];
    StepMeans(world, step, from);
    StepYields(now.events, step, done.events, ResultOf(done.reply));
    ReplyAnswers(world, first, from, done);
    ReactGains(world, now, done, turned);
    EarnedMore(world, first, from, done.performs, now.events, now.evidence, turned.next.events, turned.next.evidence,
               GainOf(step.tool, ResultOf(done.reply)));
  }

  lemma {:induction false} WorkEarns(world: World, rows: Rows, now: Progress, first: nat, from: nat, done: Turned)
    requires now.replans <= MAX_REPLANS && done == WorkOf(world, rows, now, from) && first <= from
    requires Earned(world, first, from, now.events, now.evidence)
    ensures Earned(world, first, done.performs, done.next.events, done.next.evidence)
    decreases MAX_REPLANS - now.replans, |now.plan.steps| - now.index
  {
    if now.index < |now.plan.steps| {
      var turned := Turn(world, rows, now, from);
      var step := now.plan.steps[now.index];
      if IsDone(rows, step.key) {
        GainedMore(now.evidence, StepEvidence(step, true, true, rows[step.key].result));
      } else {
        ExecutedEarns(world, now, first, from, StepOf(world, step, from), turned);
      }
      if turned.exit.Continue? {
        WorkEarns(world, rows, turned.next, first, turned.performs, done);
      }
    }
  }

  /** Every outcome shows the evidence and the plan the loop had when it was left. */
  lemma {:induction false} EndsWithEvidence(world: World, rows: Rows, now: Progress, from: nat, done: Turned)
    requires now.replans <= MAX_REPLANS && done == WorkOf(world, rows, now, from)
    ensures done.exit.Stop? && done.exit.ending.Ended? ==> done.exit.ending.outcome.evidence == done.next.evidence
    ensures done.exit.Stop? && done.exit.ending.Ended? ==> done.exit.ending.outcome.plan == done.next.plan
    decreases MAX_REPLANS - now.replans, |now.plan.steps| - now.index
  {
    if now.index < |now.plan.steps| {
      var turned := Turn(world, rows, now, from);
      if turned.exit.Continue? {
        EndsWithEvidence(world, rows, turned.next, turned.performs, done);
      }
    }
  }

  // --------------------------------------------------------------------- a whole run

  /** What a run keeps whatever happens: the trace is orderly, well-keyed plans repeat nothing, and no more
      steps are executed than the plans can hold. */
  ghost predicate Traced(world: World, rows: Rows, plans: seq<Plan>, events: seq<Event>)
  {
    && PlanChain(world, plans)
    && Orderly(rows, events) && Settled(events)
    && (AllWellKeyed(plans) ==> NoReuse(events))
    && Starts(events) <= (1 + MAX_REPLANS) * MAX_STEPS
  }

  ghost predicate Kept(world: World, rows: Rows, plans: seq<Plan>, events: seq<Event>, used: int)
  {
    Traced(world, rows, plans, events) && used <= Starts(events) * Attempts(world)
  }

  /** What a run keeps makes it, cut off anywhere, one more life of its task: so the theorems over many
      lives are about runs of this loop. */
  lemma RunIsALife(world: World, first: Rows, lives: seq<Life>, life: Life, plans: seq<Plan>, used: int)
    requires History(first, lives) && life.cut <= |life.events|
    requires Kept(world, Opened(TableAfter(first, lives), life), plans, life.events, used) && AllWellKeyed(plans)
    ensures History(first, lives + [life])
  {
    assert (lives + [life])[..|lives|] == lives;
  }

  /** A state of the run: inside the loop, or out of it. */
  ghost predicate Good(world: World, rows: Rows, turned: Turned)
  {
    var p := turned.next;
    && (turned.exit.Continue? ==> InLoop(world, rows, p))
    && (!turned.exit.Continue? ==>
          && Traced(world, rows, p.plans, p.events) && p.plan == p.plans[|p.plans| - 1]
          && About(p.plan.steps, p.evidence))
  }

  lemma TurnKeeps(world: World, rows: Rows, now: Progress, performs: nat, turned: Turned)
    requires InLoop(world, rows, now) && now.index < |now.plan.steps| && turned == Turn(world, rows, now, performs)
    ensures Good(world, rows, turned)
  {
    var key := now.plan.steps[now.index].key;
    if IsDone(rows, key) {
      SkipInv(world, rows, now, rows[key].result);
    } else {
      var done := StepOf(world, now.plan.steps[now.index], performs);
      StepMeans(world, now.plan.steps[now.index], performs);
      ReactKeeps(world, rows, now, done, turned);
    }
  }

  lemma TracedNow(world: World, rows: Rows, now: Progress, more: seq<Event>, result: Option<ActionResult>)
    requires Executed(world, rows, now, more, result)
    ensures Traced(world, rows, now.plans, now.events + more) && now.plan == now.plans[|now.plans| - 1]
    ensures About(now.plan.steps, now.evidence)
  {
    ExecutedKeeps(world, rows, now, more, result);
  }

  lemma ReactKeeps(world: World, rows: Rows, now: Progress, done: Tried, turned: Turned)
    requires Executed(world, rows, now, done.events, ResultOf(done.reply)) && turned == React(world, now, done)
    ensures Good(world, rows, turned)
  {
    if done.reply.Returned? {
      JudgeKeeps(world, rows, now, done.events, done.reply.result, turned);
    } else {
      TracedNow(world, rows, now, done.events, None);
    }
  }

  lemma BreakAbout(world: World, now: Progress, result: ActionResult, next: Progress)
    requires now.index < |now.plan.steps| && |now.evidence| == now.index && About(now.plan.steps, now.evidence)
    requires (next, Break) == Judge(world, now, result)
    ensures next.plan == now.plan && next.plans == now.plans && next.events == now.events
    ensures About(next.plan.steps, next.evidence)
  {
  }

  lemma JudgeKeeps(world: World, rows: Rows, now: Progress, more: seq<Event>, result: ActionResult, turned: Turned)
    requires Executed(world, rows, now, more, Some(result))
    requires (turned.next, turned.exit) == Judge(world, Noted(now, more), result)
    ensures Good(world, rows, turned)
  {
    if !turned.exit.Continue? {
      TracedNow(world, rows, now, more, Some(result));
      BreakAbout(world, Noted(now, more), result, turned.next);
    } else if result.ok || now.plan.steps[now.index].optional {
      AdvanceInv(world, rows, now, more, result, turned.next);
    } else {
      SpliceInv(world, rows, now, more, result, turned.next);
    }
  }

  lemma {:induction false} WorkKeeps(world: World, rows: Rows, now: Progress, performs: nat, done: Turned)
    requires now.replans <= MAX_REPLANS && done == WorkOf(world, rows, now, performs)
    requires InLoop(world, rows, now)
    ensures Good(world, rows, done)
    decreases MAX_REPLANS - now.replans, |now.plan.steps| - now.index
  {
    if now.index < |now.plan.steps| {
      var turned := Turn(world, rows, now, performs);
      TurnKeeps(world, rows, now, performs, turned);
      if turned.exit.Continue? {
        WorkKeeps(world, rows, turned.next, turned.performs, done);
      }
    }
  }

  /** What an outcome that claims the task is done stands on. */
  ghost predicate DoneIsSound(rows: Rows, events: seq<Event>, plans: seq<Plan>, o: Outcome)
  {
    && plans != [] && o.plan == plans[|plans| - 1]
    && |o.evidence| == |o.plan.steps| && Aligned(o.plan.steps, o.evidence)
    && (exists i | 0 <= i < |o.evidence| :: o.evidence[i].ok)
    && (AllWellKeyed(plans) ==> Backed(rows, events, o.plan.steps, o.evidence))
  }

  /** What an outcome says about the run that produced it. */
  ghost predicate Honest(world: World, rows: Rows, events: seq<Event>, plans: seq<Plan>, o: Outcome)
  {
    && (o.state.DONE? ==> DoneIsSound(rows, events, plans, o))
    && (o.state.DONE? <==> o.verification.Some? && o.verification.value.goalMet)
    && (o.verification.Some? ==>
          && o.verification.value == Check(o.evidence, o.plan.origin, world.hasCriteria, world.usable, world.judgement)
          && ((exists e :: e in o.evidence && RequiredFailed(e)) ==> o.state.FAILED? && GaveUp(world, plans)))
    && (o.resumable <==> o.state.BLOCKED?)
  }

  lemma ConcludeIsHonest(world: World, rows: Rows, done: Turned, o: Outcome)
    requires Good(world, rows, done) && Leaves(world, done, 0) && !done.exit.Stop? && o == Conclude(world, done.next)
    ensures Honest(world, rows, done.next.events, done.next.plans, o) && o.verification.Some?
  {
    DoneMeans(world, done.next, o);
    if done.exit.Break? {
      assert done.next.evidence[|done.next.evidence| - 1] in o.evidence;
    }
  }

  /** The verdict calls a run done exactly when the verifier found the goal met, and then some step ran and no
      required one failed. */
  lemma DoneMeans(world: World, p: Progress, o: Outcome)
    requires o == Conclude(world, p)
    ensures o.verification
         == Some(Check(p.evidence, p.plan.origin, world.hasCriteria, world.usable, world.judgement))
    ensures o.state.DONE? <==> o.verification.value.goalMet
    ensures o.state.DONE? ==> exists i | 0 <= i < |p.evidence| :: p.evidence[i].ok
    ensures o.state.DONE? ==> forall e | e in p.evidence :: !RequiredFailed(e)
  {
    CheckMeans(p.evidence, p.plan.origin, world.hasCriteria, world.usable, world.judgement);
    if o.verification.value.goalMet {
      var e :| e in p.evidence && Ran(e);
    }
  }

  /** What an outcome shows of its run: the last plan, evidence step by step, and every value that was returned and
      journalled, and no other. */
  ghost predicate Shows(world: World, run: Run, from: nat, o: Outcome)
  {
    && Earned(world, from, run.performs, run.events, o.evidence)
    && About(o.plan.steps, o.evidence)
    && (run.plans != [] ==> o.plan == run.plans[|run.plans| - 1])
  }

  /** What the ending of a run says about it: without a plan nothing was done; an outcome is honest and shows every
      value that was returned and journalled, and no other; a run without a verdict was stopped by the last reply. */
  ghost predicate EndsHonestly(world: World, rows: Rows, run: Run, from: nat)
  {
    && (run.ending.Ended? ==>
          && Honest(world, rows, run.events, run.plans, run.ending.outcome)
          && Shows(world, run, from, run.ending.outcome))
    && (run.plans == [] ==>
          && run.ending.Ended? && !run.ending.outcome.state.DONE?
          && (run.ending.outcome.state.FAILED? <==> world.plan.Failure?))
    && (run.plans != [] && (run.ending.Raised? || run.ending.outcome.verification.None?) ==>
          run.performs > from && exists reply :: LastReply(world, run.performs, reply) && StoppedBy(reply, run.ending))
  }

  ghost predicate KeptFrom(world: World, rows: Rows, run: Run, from: nat)
  {
    if run.plans == [] then run.events == [] && run.performs == from
    else run.performs >= from && Kept(world, rows, run.plans, run.events, run.performs - from)
  }

  lemma WorkShows(world: World, rows: Rows, done: Turned, from: nat, run: Run, o: Outcome)
    requires Good(world, rows, done) && o.plan == done.next.plan && o.evidence == done.next.evidence
    requires run.events == done.next.events && run.plans == done.next.plans && run.performs == done.performs
    requires Earned(world, from, done.performs, done.next.events, done.next.evidence)
    ensures run.plans != [] && Traced(world, rows, run.plans, run.events) && Shows(world, run, from, o)
  {
  }

  lemma WorkEnds(world: World, rows: Rows, done: Turned, from: nat, run: Run)
    requires Good(world, rows, done) && Leaves(world, done, from)
    requires run.events == done.next.events && run.plans == done.next.plans && run.performs == done.performs
    requires run.ending == if done.exit.Stop? then done.exit.ending else Ended(Conclude(world, done.next))
    requires Earned(world, from, done.performs, done.next.events, done.next.evidence)
    requires done.exit.Stop? && done.exit.ending.Ended? ==>
               && done.exit.ending.outcome.evidence == done.next.evidence
               && done.exit.ending.outcome.plan == done.next.plan
    ensures Traced(world, rows, run.plans, run.events) && EndsHonestly(world, rows, run, from)
  {
    WorkShows(world, rows, done, from, run,
              if run.ending.Ended? then run.ending.outcome else Conclude(world, done.next));
    if !done.exit.Stop? {
      ConcludeIsHonest(world, rows, done, run.ending.outcome);
    }
  }

  /** Every run, whatever the planner, the tools and the judge answer, keeps what every run keeps and ends
      honestly. */
  lemma RunKeeps(world: World, rows: Rows, from: nat, run: Run)
    requires run == RunOf(world, rows, from)
    ensures KeptFrom(world, rows, run, from) && EndsHonestly(world, rows, run, from)
  {
    if Open(world.plan).Planned? {
      var first := Open(world.plan).plan;
      LoopBegins(world, rows, first);
      var done := WorkOf(world, rows, Begun(first), from);
      WorkKeeps(world, rows, Begun(first), from, done);
      WorkLeaves(world, rows, Begun(first), from, done);
      WorkBudget(world, rows, Begun(first), from, done);
      BudgetIs(world, Starts(run.events));
      WorkEarns(world, rows, Begun(first), from, from, done);
      EndsWithEvidence(world, rows, Begun(first), from, done);
      WorkEnds(world, rows, done, from, run);
    }
  }
}
