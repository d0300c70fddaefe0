/** The execution loop (agent/loop.py) as functions: plan, act, repair, verify. The planner, the runtime and
    the judge are an arbitrary environment. */
module LoopSpec {
  import opened Options
  import opened Journals
  import opened Rekey
  import opened Verifier

  const MAX_REPLANS := 2
  const MAX_STEPS := 40

  datatype Step = Step(key: string, tool: string, params: string, optional: bool, expects: string) {
    function Does(): Action { Action(tool, params) }
  }

  datatype Plan = Plan(steps: seq<Step>, question: string, origin: Origin) {
    predicate Blocked() { question != "" && steps == [] }
  }

  const NO_PLAN := Plan([], "", FromModel)

  datatype ActionResult = Result(ok: bool, retryable: bool, value: Verifier.Value)

  /** What `Runtime.perform` does: it returns a result or stops the flow. */
  datatype Reply = Returned(result: ActionResult) | ApprovalRequired | ApprovalDenied | PolicyDenied | TaskAborted

  /** What the planner does when first asked: a plan this machine makes itself, a plan from a model, no
      model to ask, or another failure. */
  datatype Planning = Instinct(step: Step) | Asked(plan: Plan) | NoModel | Failure

  /** Everything outside the loop, indexed by how often it was asked. An environment that reacts to the
      run is the one that happens to give the answers of that run. */
  datatype World = World(
    plan: Planning,
    repair: nat -> Option<Plan>,
    perform: nat -> Reply,
    maxAttempts: int,
    hasCriteria: bool,
    usable: (string, Option<Verifier.Value>) -> bool,
    judgement: Judgement)

  datatype AgentState = DONE | FAILED | BLOCKED

  datatype Outcome = Outcome(state: AgentState, plan: Plan, evidence: seq<Evidence>,
                             verification: Option<Verification>, resumable: bool)

  datatype Ending = Ended(outcome: Outcome) | Raised

  // ------------------------------------------------------------------------------ plans

  function Keys(steps: seq<Step>): (keys: seq<string>)
    ensures |keys| == |steps| && forall i | 0 <= i < |steps| :: keys[i] == steps[i].key
  {
    seq(|steps|, i requires 0 <= i < |steps| => steps[i].key)
  }

  /** `rekey` on the steps of a plan. */
  function Keyed(steps: seq<Step>): (out: seq<Step>)
    ensures |out| == |steps| && Keys(out) == Rekeyed(Keys(steps))
    ensures forall i | 0 <= i < |steps| :: out[i] == steps[i].(key := Rekeyed(Keys(steps))[i])
  {
    seq(|steps|, i requires 0 <= i < |steps| => steps[i].(key := Rekeyed(Keys(steps))[i]))
  }

  /** What the planner makes of a model's plan: at most MAX_STEPS steps, keyed, and a question if there is
      nothing to do. */
  function Sanitised(plan: Plan): (out: Plan)
    ensures |out.steps| <= MAX_STEPS
  {
    var steps := if |plan.steps| <= MAX_STEPS then plan.steps else plan.steps[..MAX_STEPS];
    Plan(Keyed(steps), if steps == [] && plan.question == "" then "?" else plan.question, FromModel)
  }

  /** It has the first MAX_STEPS steps with their new keys and nothing else changed, and it is blocked exactly if there
      are none; a question that was asked stays. */
  lemma SanitisedMeans(plan: Plan, out: Plan)
    requires out == Sanitised(plan)
    ensures |out.steps| == if |plan.steps| <= MAX_STEPS then |plan.steps| else MAX_STEPS
    ensures Keys(out.steps) == Rekeyed(Keys(plan.steps)[..|out.steps|])
    ensures forall i | 0 <= i < |out.steps| :: out.steps[i] == plan.steps[i].(key := out.steps[i].key)
    ensures out.origin.FromModel? && (out.Blocked() <==> plan.steps == [])
    ensures plan.question != "" || plan.steps != [] ==> out.question == plan.question
  {
    var first := plan.steps[..|out.steps|];
    assert Keys(first) == Keys(plan.steps)[..|out.steps|];
    if |plan.steps| <= MAX_STEPS { assert first == plan.steps; }
  }

  /** Keys that keying again leaves alone; they are then pairwise distinct. */
  predicate WellKeyed(plan: Plan) { Rekeyed(Keys(plan.steps)) == Keys(plan.steps) }

  /** When a keyed plan is well keyed: no base spells the number of another one's repetition, no first use
      exceeds the slug limit or ends in a dash, and no number pushed a key over the limit whose base alone
      does not fill it. */
  lemma WellKeyedIff(steps: seq<Step>)
    ensures WellKeyed(Plan(Keyed(steps), "", FromModel))
       <==> !SomeCollision(Bases(Keys(steps))) && AllSurvive(Bases(Keys(steps)))
  {
    FixpointIff(Keys(steps));
  }

  /** The plan after a repair: what is left is replaced, what already ran is kept, all is keyed again. */
  function Spliced(plan: Plan, index: nat, repair: Plan): Plan
    requires index <= |plan.steps|
  {
    Plan(Keyed(plan.steps[..index] + repair.steps), "", FromModel)
  }

  lemma SplicedPrefix(plan: Plan, index: nat, repair: Plan)
    requires index <= |plan.steps|
    ensures var s := Spliced(plan, index, repair);
            && |s.steps| == index + |repair.steps|
            && (forall i | 0 <= i < index :: s.steps[i] == plan.steps[i].(key := s.steps[i].key))
            && (forall i | 0 <= i < |repair.steps| ::
                  s.steps[index + i] == repair.steps[i].(key := s.steps[index + i].key))
  {
    var all := plan.steps[..index] + repair.steps;
    assert forall i | 0 <= i < index :: all[i] == plan.steps[i];
    assert forall i | 0 <= i < |repair.steps| :: all[index + i] == repair.steps[i];
  }

  /** A repair leaves the keys of the steps behind the loop alone. */
  predicate Keeps(plan: Plan, index: nat, repair: Plan)
    requires index <= |plan.steps|
  {
    Keys(Spliced(plan, index, repair).steps)[..index] == Keys(plan.steps)[..index]
  }

  lemma SplicedKeys(plan: Plan, index: nat, repair: Plan)
    requires index <= |plan.steps|
    ensures Keys(Spliced(plan, index, repair).steps) == Rekeyed(Keys(plan.steps)[..index] + Keys(repair.steps))
    ensures Keys(Spliced(plan, index, repair).steps)[..index] == Rekeyed(Keys(plan.steps)[..index])
  {
    assert Keys(plan.steps[..index] + repair.steps) == Keys(plan.steps)[..index] + Keys(repair.steps);
    RekeyedPrefix(Keys(plan.steps)[..index], Keys(repair.steps));
  }

  /** No repair renames a step that is behind the loop, exactly when keying those steps again leaves their keys
      alone. */
  lemma SplicedKeepsKeysIff(plan: Plan, index: nat)
    requires index <= |plan.steps|
    ensures (forall repair :: Keeps(plan, index, repair))
       <==> Rekeyed(Keys(plan.steps)[..index]) == Keys(plan.steps)[..index]
  {
    var keys := Keys(plan.steps)[..index];
    forall repair
      ensures Keeps(plan, index, repair) <==> Rekeyed(keys) == keys
    {
      SplicedKeys(plan, index, repair);
    }
    assert Keeps(plan, index, NO_PLAN) <==> Rekeyed(keys) == keys;
  }

  /** A well-keyed plan keeps the keys of the steps that ran. */
  lemma SplicedKeepsKeys(plan: Plan, index: nat, repair: Plan)
    requires index <= |plan.steps| && WellKeyed(plan)
    ensures |Spliced(plan, index, repair).steps| == index + |repair.steps|
    ensures forall i | 0 <= i < index :: Spliced(plan, index, repair).steps[i].key == plan.steps[i].key
  {
    var old', keys := Keys(plan.steps)[..index], Keys(Spliced(plan, index, repair).steps);
    SplicedKeys(plan, index, repair);
    assert Keys(plan.steps) == old' + Keys(plan.steps)[index..];
    RekeyedPrefix(old', Keys(plan.steps)[index..]);
    forall i | 0 <= i < index
      ensures keys[i] == old'[i]
    {
      assert keys[..index][i] == keys[i];
    }
  }

  // -------------------------------------------------------------------------- one step

  /** At least one. */
  function Attempts(world: World): (n: nat)
    ensures n >= 1 && n >= world.maxAttempts && (n == 1 || n == world.maxAttempts)
  {
    if world.maxAttempts >= 1 then world.maxAttempts else 1
  }

  /** How the execution of a step went: the last reply, what was journalled and performed, and how often the
      runtime had been asked by then. */
  datatype Tried = Tried(reply: Reply, events: seq<Event>, performs: nat)

  /** An action that was `tried` without success is tried until it succeeds, fails for good, has no attempt
      left or is interrupted. */
  function TryFrom(world: World, k: Key, from: nat, left: nat, tried: seq<Event>): Tried
    requires left >= 1
    decreases left
  {
    var reply := world.perform(from);
    if !reply.Returned? then Tried(reply, tried, from + 1)
    else
      var more := tried + [Performed(k, reply.result.ok)];
      if reply.result.ok || !reply.result.retryable || left == 1 then Tried(reply, more, from + 1)
      else TryFrom(world, k, from + 1, left - 1, more)
  }

  /** A step is journalled as running, tried, then journalled with its outcome; an interruption leaves it
      running. */
  function StepOf(world: World, step: Step, from: nat): Tried
  {
    var tried := TryFrom(world, step.key, from, Attempts(world), []);
    tried.(events := [Started(step.key, step.Does())] + tried.events + Closing(step.key, tried.reply))
  }

  function Closing(k: Key, reply: Reply): seq<Event>
  {
    if reply.Returned? then [Finished(k, reply.result.ok, reply.result.value)] else []
  }

  // -------------------------------------------------------------------------- the turns

  /** The variables of the loop. `plans`, `taken` and `events` are its history: every plan it has had, every
      step it skipped or executed, as the plan had it then, and every event. */
  datatype Progress = Progress(plan: Plan, index: nat, replans: nat, evidence: seq<Evidence>,
                               plans: seq<Plan>, taken: seq<Step>, events: seq<Event>)

  datatype Exit = Continue | Break | Stop(ending: Ending)

  datatype Turned = Turned(next: Progress, exit: Exit, performs: nat)

  function Begun(first: Plan): Progress { Progress(first, 0, 0, [], [first], [], []) }

  function StepEvidence(step: Step, ok: bool, resumed: bool, value: Option<Verifier.Value>): Evidence
  {
    Evidence(step.tool, step.expects, ok, !ok, resumed, value)
  }

  predicate Repairs(repair: nat -> Option<Plan>, ask: nat)
  {
    repair(ask).Some? && Sanitised(repair(ask).value).steps != []
  }

  /** The plan once the step at `index` failed and a repair was found. */
  function Repaired(repair: nat -> Option<Plan>, plan: Plan, index: nat, ask: nat): (after: Plan)
    requires index <= |plan.steps| && Repairs(repair, ask)
    ensures index < |after.steps|
  {
    Spliced(plan, index, Sanitised(repair(ask).value))
  }

  /** What the loop makes of a step that returned: an optional step never holds it up, a required one that
      failed is replaced by a repair as long as there is one. */
  function Judge(world: World, now: Progress, result: ActionResult): (Progress, Exit)
    requires now.index < |now.plan.steps|
  {
    var step := now.plan.steps[now.index];
    if result.ok || step.optional then
      var e := StepEvidence(step, result.ok, false, if result.ok then Some(result.value) else None);
      (now.(index := now.index + 1, evidence := now.evidence + [e]), Continue)
    else if now.replans < MAX_REPLANS && Repairs(world.repair, now.replans) then
      var plan := Repaired(world.repair, now.plan, now.index, now.replans);
      (now.(plan := plan, replans := now.replans + 1, plans := now.plans + [plan]), Continue)
    else
      (now.(evidence := now.evidence + [Evidence(step.tool, step.expects, false, false, false, None)],
            replans := if now.replans < MAX_REPLANS then now.replans + 1 else now.replans), Break)
  }

  /** An abort goes through, a missing approval parks the task, a refusal fails it. */
  function Interruption(now: Progress, reply: Reply): Ending
    requires !reply.Returned?
  {
    match reply
    case TaskAborted => Raised
    case ApprovalRequired => Ended(Outcome(BLOCKED, now.plan, now.evidence, None, true))
    case _ => Ended(Outcome(FAILED, now.plan, now.evidence, None, false))
  }

  /** The step at the index was executed and left these events. */
  function Noted(now: Progress, more: seq<Event>): Progress
    requires now.index < |now.plan.steps|
  {
    now.(taken := now.taken + [now.plan.steps[now.index]], events := now.events + more)
  }

  function React(world: World, now: Progress, done: Tried): Turned
    requires now.index < |now.plan.steps|
  {
    var after := Noted(now, done.events);
    if done.reply.Returned? then
      var (next, exit) := Judge(world, after, done.reply.result);
      Turned(next, exit, done.performs)
    else Turned(after, Stop(Interruption(now, done.reply)), done.performs)
  }

  /** A step that an earlier life finished is not executed again. */
  function Skip(now: Progress, value: Option<Journals.Value>): Progress
    requires now.index < |now.plan.steps|
  {
    now.(index := now.index + 1, taken := now.taken + [now.plan.steps[now.index]],
         evidence := now.evidence + [StepEvidence(now.plan.steps[now.index], true, true, value)])
  }

  /** The loop came nearer to its end: a repair was used up, or a step of the same plan is behind it. */
  predicate Nearer(now: Progress, next: Progress)
  {
    || next.replans == now.replans + 1 <= MAX_REPLANS
    || (next.replans == now.replans && next.plan == now.plan && next.index == now.index + 1)
  }

  /** One pass of the loop over the table `rows` the run began with. */
  function Turn(world: World, rows: Rows, now: Progress, from: nat): (turned: Turned)
    requires now.index < |now.plan.steps|
    ensures turned.exit.Continue? ==> Nearer(now, turned.next)
  {
    var key := now.plan.steps[now.index].key;
    if IsDone(rows, key) then Turned(Skip(now, rows[key].result), Continue, from)
    else React(world, now, StepOf(world, now.plan.steps[now.index], from))
  }

  /** The working part of a run: every pass takes a step behind the loop or uses up a repair. */
  function WorkOf(world: World, rows: Rows, now: Progress, from: nat): Turned
    requires now.replans <= MAX_REPLANS
    decreases MAX_REPLANS - now.replans, |now.plan.steps| - now.index
  {
    if now.index >= |now.plan.steps| then Turned(now, Continue, from)
    else
      var turned := Turn(world, rows, now, from);
      if turned.exit.Continue? then WorkOf(world, rows, turned.next, turned.performs) else turned
  }

  // ---------------------------------------------------------------------------- one run

  datatype Opening = Early(outcome: Outcome) | Planned(plan: Plan)

  /** What the planner offers to begin with: a plan to work on, or an outcome without one. */
  function Open(planning: Planning): Opening
  {
    match planning
    case NoModel => Early(Outcome(BLOCKED, NO_PLAN, [], None, true))
    case Failure => Early(Outcome(FAILED, NO_PLAN, [], None, false))
    case Instinct(step) => Planned(Plan([step], "", FromReflex))
    case Asked(asked) =>
      var plan := Sanitised(asked);
      if plan.Blocked() then Early(Outcome(BLOCKED, plan, [], None, true)) else Planned(plan)
  }

  /** The verdict over a run that was worked through or broken off: done needs a step that was executed. */
  function Conclude(world: World, last: Progress): Outcome
  {
    var found := Check(last.evidence, last.plan.origin, world.hasCriteria, world.usable, world.judgement);
    var executed := exists i | 0 <= i < |last.evidence| :: Ran(last.evidence[i]);
    var verification := if !executed && found.goalMet then Verification(false, true, Rules, 0) else found;
    Outcome(if executed && found.goalMet then DONE else FAILED, last.plan, last.evidence, Some(verification), false)
  }

  /** A run: how it ended, its events, plans and steps, and how often the runtime had been asked by then. */
  datatype Run = Run(ending: Ending, events: seq<Event>, plans: seq<Plan>, taken: seq<Step>, performs: nat)

  function RunOf(world: World, rows: Rows, from: nat): Run
  {
    match Open(world.plan)
    case Early(outcome) => Run(Ended(outcome), [], [], [], from)
    case Planned(plan) =>
      var done := WorkOf(world, rows, Begun(plan), from);
      var ending := if done.exit.Stop? then done.exit.ending else Ended(Conclude(world, done.next));
      Run(ending, done.next.events, done.next.plans, done.next.taken, done.performs)
  }
}
