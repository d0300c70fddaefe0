/** The task supervisor (tasks/supervisor.py): coroutines that wait for a slot and then run the agent loop,
    over durable task rows, with stops, resumes, crashes and recovery. */
module Supervisor {

  type TaskId = string

  datatype TaskState = Pending | Running | Blocked | Finished | Failed | Stopped {
    predicate Terminal() { Finished? || Failed? || Stopped? }
    predicate Active() { Pending? || Running? || Blocked? }
  }

  /** A coroutine of `_run` that is not done: it waits for the semaphore, or it is inside the agent loop. */
  datatype Phase = Queued | Inside

  datatype Coroutine = Coroutine(task: TaskId, phase: Phase, cancelled: bool)

  /** `tasks` are the rows on disk; the rest lives in memory, except `issued`, the ids ever drawn.
      `running` remembers the last coroutine launched for a task, done or not. */
  datatype State = State(tasks: map<TaskId, TaskState>, issued: set<TaskId>,
                         live: map<nat, Coroutine>, running: map<TaskId, nat>, nextCo: nat, permits: nat, slots: nat)

  /** At least one. */
  function Slots(maxParallel: int): (slots: nat)
    ensures slots >= 1 && slots >= maxParallel && (slots == 1 || slots == maxParallel)
  {
    if maxParallel < 1 then 1 else maxParallel
  }

  function Start(maxParallel: int): State { State(map[], {}, map[], map[], 0, Slots(maxParallel), Slots(maxParallel)) }

  /** How the agent loop ends for a coroutine that nobody cancelled. */
  datatype Ending = EndsBlocked | EndsOk | EndsBadly | Aborts | Raises

  datatype Step =
    | Submit(task: TaskId)
    | Resume(task: TaskId)
    | Stop(task: TaskId)
    | Begin(co: nat)                    // the semaphore lets the coroutine in
    | End(co: nat, ending: Ending)
    | Interrupt(co: nat)                // the cancellation reaches the coroutine
    | Shutdown                          // the event loop cancels everything
    | Prune(aged: set<TaskId>)          // finished tasks past their age
    | Crash(maxParallel: int)           // the process dies and starts again
    | Recover

  predicate Attached(s: State, t: TaskId) { t in s.running && s.running[t] in s.live }

  function Launch(s: State, t: TaskId): State
  {
    if Attached(s, t) then s
    else
      s.(live := s.live[s.nextCo := Coroutine(t, Queued, false)], running := s.running[t := s.nextCo],
         nextCo := s.nextCo + 1)
  }

  ghost predicate Enabled(s: State, step: Step)
  {
    match step
    case Submit(t) => t !in s.issued
    case Resume(t) => t in s.tasks
    case Begin(co) => co in s.live && s.live[co].phase.Queued? && !s.live[co].cancelled && s.permits > 0
    case End(co, _) => co in s.live && s.live[co].phase.Inside?
    case Interrupt(co) => co in s.live && s.live[co].cancelled
    case Prune(aged) => forall t | t in aged :: t in s.tasks && s.tasks[t].Terminal()
    case _ => true
  }

  /** Where the row of an ended task goes; `Raises` leaves it alone. */
  function After(was: TaskState, ending: Ending): TaskState
  {
    match ending
    case EndsBlocked => Blocked
    case EndsOk => Finished
    case EndsBadly => Failed
    case Aborts => Stopped
    case Raises => was
  }

  /** A coroutine is done; one that was inside the loop gives its permit back. */
  function Finish(s: State, co: nat, row: TaskState): State
    requires co in s.live
  {
    s.(tasks := s.tasks[s.live[co].task := row], live := s.live - {co},
       permits := if s.live[co].phase.Inside? then s.permits + 1 else s.permits)
  }

  function Row(s: State, co: nat): TaskState
    requires co in s.live
  {
    if s.live[co].task in s.tasks then s.tasks[s.live[co].task] else Pending
  }

  /** Launches every task of a list, one after the other. */
  function LaunchAll(s: State, ts: seq<TaskId>): (r: State)
    ensures r.tasks == s.tasks && r.issued == s.issued && r.permits == s.permits && r.slots == s.slots
    decreases |ts|
  {
    if ts == [] then s else LaunchAll(Launch(s, ts[0]), ts[1..])
  }

  function Cancel(live: map<nat, Coroutine>, cos: set<nat>): map<nat, Coroutine>
  {
    map c | c in live :: if c in cos then live[c].(cancelled := true) else live[c]
  }

  /** `order` is the order in which the query returns the rows left running. */
  ghost predicate Lists(s: State, order: seq<TaskId>)
  {
    forall t :: t in order <==> t in s.tasks && s.tasks[t].Running?
  }

  function Next(s: State, step: Step, order: seq<TaskId>): State
    requires step.Resume? ==> step.task in s.tasks
    requires step.Begin? ==> step.co in s.live && s.permits > 0
    requires step.End? || step.Interrupt? ==> step.co in s.live
  {
    match step
    case Submit(t) => Launch(s.(tasks := s.tasks[t := Pending], issued := s.issued + {t}), t)
    case Resume(t) =>
      if s.tasks[t].Blocked? || s.tasks[t].Pending? then Launch(s.(tasks := s.tasks[t := Pending]), t) else s
    case Stop(t) =>
      if Attached(s, t) then s.(live := Cancel(s.live, {s.running[t]}))
      else if t in s.tasks && s.tasks[t].Active() then s.(tasks := s.tasks[t := Stopped])
      else s
    case Begin(co) =>
      s.(tasks := s.tasks[s.live[co].task := Running], live := s.live[co := s.live[co].(phase := Inside)],
         permits := s.permits - 1)
    case End(co, ending) => Finish(s, co, After(Row(s, co), ending))
    case Interrupt(co) => Finish(s, co, if s.live[co].phase.Inside? then Stopped else Row(s, co))
    case Shutdown => s.(live := Cancel(s.live, s.live.Keys))
    case Prune(aged) => s.(tasks := s.tasks - aged)
    case Crash(n) => s.(live := map[], running := map[], nextCo := 0, permits := Slots(n), slots := Slots(n))
    case Recover => LaunchAll(s, order)
  }

  // --------------------------------------------------------------------------- the invariant

  function Insiders(live: map<nat, Coroutine>): set<nat> { set c | c in live && live[c].phase.Inside? }

  /** Every live coroutine is the one its task remembers, so no task has two. */
  ghost predicate Tracked(s: State)
  {
    && (forall c | c in s.live :: c < s.nextCo && s.live[c].task in s.running && s.running[s.live[c].task] == c)
    && (forall t | t in s.running ::
         s.running[t] < s.nextCo && (s.running[t] in s.live ==> s.live[s.running[t]].task == t))
  }

  /** A live coroutine belongs to a task that is pending or running; inside the loop it is running. */
  ghost predicate RowsOk(s: State)
  {
    && s.tasks.Keys <= s.issued
    && forall c | c in s.live ::
         && s.live[c].task in s.tasks
         && var row := s.tasks[s.live[c].task];
            if s.live[c].phase.Inside? then row.Running? else row.Pending? || row.Running?
  }

  ghost predicate PermitsOk(s: State) { s.permits + |Insiders(s.live)| == s.slots && s.slots >= 1 }

  ghost predicate Inv(s: State) { Tracked(s) && RowsOk(s) && PermitsOk(s) }

  lemma LaunchInv(s: State, t: TaskId)
    requires Tracked(s) && PermitsOk(s) && RowsOk(s) && t in s.tasks && (s.tasks[t].Pending? || s.tasks[t].Running?)
    ensures Inv(Launch(s, t)) && Attached(Launch(s, t), t)
    ensures forall u | Attached(s, u) :: Attached(Launch(s, t), u)
  {
    if !Attached(s, t) {
      assert Insiders(Launch(s, t).live) == Insiders(s.live);
    }
  }

  lemma {:induction false} LaunchAllInv(s: State, ts: seq<TaskId>)
    requires Inv(s) && forall t | t in ts :: t in s.tasks && s.tasks[t].Running?
    ensures Inv(LaunchAll(s, ts))
    ensures forall t | t in ts || Attached(s, t) :: Attached(LaunchAll(s, ts), t)
    decreases |ts|
  {
    if ts != [] {
      LaunchInv(s, ts[0]);
      LaunchAllInv(Launch(s, ts[0]), ts[1..]);
    }
  }

  lemma BeginInv(s: State, co: nat)
    requires Inv(s) && Enabled(s, Begin(co))
    ensures Inv(Next(s, Begin(co), []))
  {
    assert Insiders(Next(s, Begin(co), []).live) == Insiders(s.live) + {co};
  }

  lemma FinishInv(s: State, co: nat, row: TaskState)
    requires Inv(s) && co in s.live
    ensures Inv(Finish(s, co, row))
  {
    assert Insiders(Finish(s, co, row).live) == Insiders(s.live) - {co};
  }

  lemma CancelInv(s: State, cos: set<nat>)
    requires Inv(s)
    ensures Inv(s.(live := Cancel(s.live, cos)))
  {
    assert Insiders(Cancel(s.live, cos)) == Insiders(s.live);
  }

  lemma StepInv(s: State, step: Step, order: seq<TaskId>)
    requires Inv(s) && Enabled(s, step) && Lists(s, order)
    ensures Inv(Next(s, step, order))
  {
    match step
    case Submit(t) => LaunchInv(s.(tasks := s.tasks[t := Pending], issued := s.issued + {t}), t);
    case Resume(t) =>
      if s.tasks[t].Blocked? || s.tasks[t].Pending? { LaunchInv(s.(tasks := s.tasks[t := Pending]), t); }
    case Stop(t) => if Attached(s, t) { CancelInv(s, {s.running[t]}); }
    case Begin(co) => BeginInv(s, co);
    case End(co, ending) => FinishInv(s, co, After(Row(s, co), ending));
    case Interrupt(co) => FinishInv(s, co, if s.live[co].phase.Inside? then Stopped else Row(s, co));
    case Shutdown => CancelInv(s, s.live.Keys);
    case Prune(_) =>
    case Crash(n) => assert Insiders(map[]) == {};
    case Recover => LaunchAllInv(s, order);
  }

  // --------------------------------------------------------------------------------- runs

  datatype Move = Move(step: Step, order: seq<TaskId>)

  ghost predicate Runs(s: State, moves: seq<Move>)
    decreases |moves|
  {
    moves == [] ||
    (&& Enabled(s, moves[0].step) && Lists(s, moves[0].order)
     && Runs(Next(s, moves[0].step, moves[0].order), moves[1..]))
  }

  ghost function Reach(s: State, moves: seq<Move>): State
    requires Runs(s, moves)
    decreases |moves|
  {
    if moves == [] then s else Reach(Next(s, moves[0].step, moves[0].order), moves[1..])
  }

  lemma {:induction false} RunInv(s: State, moves: seq<Move>)
    requires Inv(s) && Runs(s, moves)
    ensures Inv(Reach(s, moves))
    decreases |moves|
  {
    if moves != [] {
      StepInv(s, moves[0].step, moves[0].order);
      RunInv(Next(s, moves[0].step, moves[0].order), moves[1..]);
    }
  }

  /** The limit that the last start was made with. */
  function LimitOf(maxParallel: int, moves: seq<Move>): int
    decreases |moves|
  {
    if moves == [] then maxParallel
    else LimitOf(if moves[0].step.Crash? then moves[0].step.maxParallel else maxParallel, moves[1..])
  }

  lemma StepLimit(s: State, step: Step, order: seq<TaskId>)
    requires Enabled(s, step)
    ensures Next(s, step, order).slots == if step.Crash? then Slots(step.maxParallel) else s.slots
  {
  }

  lemma {:induction false} SlotsAreTheLimit(s: State, maxParallel: int, moves: seq<Move>)
    requires Runs(s, moves) && s.slots == Slots(maxParallel)
    ensures Reach(s, moves).slots == Slots(LimitOf(maxParallel, moves))
    decreases |moves|
  {
    if moves != [] {
      var step := moves[0].step;
      StepLimit(s, step, moves[0].order);
      SlotsAreTheLimit(Next(s, step, moves[0].order), if step.Crash? then step.maxParallel else maxParallel,
                       moves[1..]);
    }
  }

  /** Over every run: the limit of the last start, or one, is never exceeded, and never idle either: a coroutine that
      waits in the queue can begin exactly if fewer than that are inside the loop. */
  lemma LimitIsUsed(maxParallel: int, moves: seq<Move>, co: nat)
    requires Runs(Start(maxParallel), moves)
    ensures var s, limit := Reach(Start(maxParallel), moves), LimitOf(maxParallel, moves);
            var inside, most := |Insiders(s.live)|, if limit < 1 then 1 else limit;
            && inside <= most
            && (co in s.live && s.live[co].phase.Queued? && !s.live[co].cancelled ==>
                  (Enabled(s, Begin(co)) <==> inside < most))
  {
    assert Insiders(Start(maxParallel).live) == {};
    RunInv(Start(maxParallel), moves);
    SlotsAreTheLimit(Start(maxParallel), maxParallel, moves);
  }

  /** Over every run: a task has at most one live coroutine, and then its row is pending or running; never
      more than max(1, max_parallel) coroutines are inside the loop; and a permit that is missing is held
      by a coroutine inside the loop. */
  lemma OneCoroutinePerTask(maxParallel: int, moves: seq<Move>)
    requires Runs(Start(maxParallel), moves)
    ensures var s := Reach(Start(maxParallel), moves);
            && (forall c, d | c in s.live && d in s.live && s.live[c].task == s.live[d].task :: c == d)
            && (forall c | c in s.live ::
                 s.live[c].task in s.tasks && !s.tasks[s.live[c].task].Terminal() && !s.tasks[s.live[c].task].Blocked?)
            && (forall c | c in s.live && s.live[c].phase.Inside? :: s.tasks[s.live[c].task].Running?)
            && |Insiders(s.live)| <= s.slots && s.permits == s.slots - |Insiders(s.live)|
  {
    assert Insiders(Start(maxParallel).live) == {};
    RunInv(Start(maxParallel), moves);
  }

  lemma TerminalStep(s: State, step: Step, order: seq<TaskId>, t: TaskId)
    requires Inv(s) && Enabled(s, step) && Lists(s, order) && t in s.tasks && s.tasks[t].Terminal()
    ensures var s' := Next(s, step, order);
            t in s'.issued && (t in s'.tasks ==> s'.tasks[t] == s.tasks[t])
  {
    assert !Attached(s, t);
  }

  /** Finished, failed and stopped are final: from then on the row keeps that state until it is pruned, and
      the id is never used again. */
  lemma {:induction false} TerminalIsForever(s: State, moves: seq<Move>, t: TaskId, last: TaskState)
    requires Inv(s) && Runs(s, moves) && t in s.issued && last.Terminal()
    requires t in s.tasks ==> s.tasks[t] == last
    ensures t in Reach(s, moves).tasks ==> Reach(s, moves).tasks[t] == last
    decreases |moves|
  {
    if moves != [] {
      var step, order := moves[0].step, moves[0].order;
      var s' := Next(s, step, order);
      StepInv(s, step, order);
      if t in s.tasks {
        TerminalStep(s, step, order, t);
      } else {
        assert t in s'.issued && t !in s'.tasks by { GoneStep(s, step, order, t); }
      }
      TerminalIsForever(s', moves[1..], t, last);
    }
  }

  lemma GoneStep(s: State, step: Step, order: seq<TaskId>, t: TaskId)
    requires Inv(s) && Enabled(s, step) && t in s.issued && t !in s.tasks
    ensures t in Next(s, step, order).issued && t !in Next(s, step, order).tasks
  {
  }

  // ------------------------------------------------------------------- where a state comes from

  /** The coroutine is one of this task. */
  predicate Works(s: State, co: nat, t: TaskId) { co in s.live && s.live[co].task == t }

  /** What brings the row of a task to a state: a submit or a resume makes it pending, a coroutine that gets a slot
      running, one that ends blocked, done or badly leaves just that; stopped is an abort, a cancellation inside the
      loop, or a stop of an active task without a coroutine. */
  predicate Brings(s: State, step: Step, t: TaskId, state: TaskState)
  {
    match state
    case Pending =>
      step == Submit(t) || (step == Resume(t) && t in s.tasks && (s.tasks[t].Blocked? || s.tasks[t].Pending?))
    case Running => step.Begin? && Works(s, step.co, t)
    case Blocked => step.End? && Works(s, step.co, t) && step.ending.EndsBlocked?
    case Finished => step.End? && Works(s, step.co, t) && step.ending.EndsOk?
    case Failed => step.End? && Works(s, step.co, t) && step.ending.EndsBadly?
    case Stopped =>
      || (step.End? && Works(s, step.co, t) && step.ending.Aborts?)
      || (step.Interrupt? && Works(s, step.co, t) && s.live[step.co].phase.Inside?)
      || (step == Stop(t) && !Attached(s, t) && t in s.tasks && s.tasks[t].Active())
  }

  lemma LaunchersBring(s: State, step: Step, order: seq<TaskId>, t: TaskId, state: TaskState)
    requires Inv(s) && Enabled(s, step) && Lists(s, order) && (step.Submit? || step.Resume? || step.Recover?)
    ensures var s' := Next(s, step, order);
            (t in s'.tasks && s'.tasks[t] == state)
            <==> Brings(s, step, t, state) || (t in s.tasks && s.tasks[t] == state && !Brings(s, step, t, Pending))
  {
  }

  /** The step brings the row to some state. */
  ghost predicate Touches(s: State, step: Step, t: TaskId) { exists state :: Brings(s, step, t, state) }

  /** After a step the row of a task has a state exactly if the step brought it there, or it had that state, was not
      pruned and the step brought it nowhere else. */
  lemma StateIff(s: State, step: Step, order: seq<TaskId>, t: TaskId, state: TaskState)
    requires Inv(s) && Enabled(s, step) && Lists(s, order)
    ensures var s' := Next(s, step, order);
            (t in s'.tasks && s'.tasks[t] == state)
            <==> || Brings(s, step, t, state)
                 || (t in s.tasks && s.tasks[t] == state && !Touches(s, step, t)
                     && !(step.Prune? && t in step.aged))
  {
    if step.Submit? || step.Resume? || step.Recover? {
      LaunchersBring(s, step, order, t, state);
      if Touches(s, step, t) { assert Brings(s, step, t, Pending); }
    } else {
      MoversBring(s, step, order, t, state);
    }
  }

  lemma MoversBring(s: State, step: Step, order: seq<TaskId>, t: TaskId, state: TaskState)
    requires Inv(s) && Enabled(s, step) && !step.Submit? && !step.Resume? && !step.Recover?
    ensures var s' := Next(s, step, order);
            (t in s'.tasks && s'.tasks[t] == state)
            <==> || Brings(s, step, t, state)
                 || (t in s.tasks && s.tasks[t] == state && !Touches(s, step, t)
                     && !(step.Prune? && t in step.aged))
  {
    if Works(s, if step.Begin? || step.End? || step.Interrupt? then step.co else 0, t) {
      match step
      case Begin(_) => assert Brings(s, step, t, Running);
      case End(_, EndsBlocked) => assert Brings(s, step, t, Blocked);
      case End(_, EndsOk) => assert Brings(s, step, t, Finished);
      case End(_, EndsBadly) => assert Brings(s, step, t, Failed);
      case End(_, Aborts) => assert Brings(s, step, t, Stopped);
      case Interrupt(co) => if s.live[co].phase.Inside? { assert Brings(s, step, t, Stopped); }
      case _ =>
    }
    if step == Stop(t) && !Attached(s, t) && t in s.tasks && s.tasks[t].Active() {
      assert Brings(s, step, t, Stopped);
    }
  }

  /** The state of a row comes from some step of the run that brought it there. */
  ghost predicate BroughtAt(s: State, moves: seq<Move>, i: nat, t: TaskId, state: TaskState)
    requires Runs(s, moves)
  {
    && i < |moves| && Runs(s, moves[..i]) && Brings(Reach(s, moves[..i]), moves[i].step, t, state)
  }

  lemma {:induction false} EveryStateWasBrought(s: State, moves: seq<Move>, t: TaskId, state: TaskState)
    requires Inv(s) && Runs(s, moves) && t in Reach(s, moves).tasks && Reach(s, moves).tasks[t] == state
    ensures (t in s.tasks && s.tasks[t] == state) || exists i :: BroughtAt(s, moves, i, t, state)
    decreases |moves|
  {
    if moves != [] {
      var step, order := moves[0].step, moves[0].order;
      var next := Next(s, step, order);
      StepInv(s, step, order);
      EveryStateWasBrought(next, moves[1..], t, state);
      if t in next.tasks && next.tasks[t] == state {
        StateIff(s, step, order, t, state);
        if Brings(s, step, t, state) {
          assert moves[..0] == [];
          assert BroughtAt(s, moves, 0, t, state);
        }
      } else {
        var i :| BroughtAt(next, moves[1..], i, t, state);
        BroughtLater(s, moves, i, t, state);
      }
    }
  }

  lemma BroughtLater(s: State, moves: seq<Move>, i: nat, t: TaskId, state: TaskState)
    requires Runs(s, moves) && moves != [] && BroughtAt(Next(s, moves[0].step, moves[0].order), moves[1..], i, t, state)
    ensures BroughtAt(s, moves, i + 1, t, state)
  {
    assert moves[..i + 1][0] == moves[0] && moves[..i + 1][1..] == moves[1..][..i];
  }

  /** Over every run: a row says finished, failed or blocked only after a coroutine of that task ended done, badly or
      blocked, and stopped only after an abort, a cancellation inside the loop or a stop without a coroutine. */
  lemma RowsTellTheTruth(maxParallel: int, moves: seq<Move>, t: TaskId)
    requires Runs(Start(maxParallel), moves) && t in Reach(Start(maxParallel), moves).tasks
    ensures exists i :: BroughtAt(Start(maxParallel), moves, i, t, Reach(Start(maxParallel), moves).tasks[t])
  {
    assert Insiders(Start(maxParallel).live) == {};
    EveryStateWasBrought(Start(maxParallel), moves, t, Reach(Start(maxParallel), moves).tasks[t]);
  }

  // ----------------------------------------------------------------- what becomes of a coroutine

  /** What was launched before is still as it was, and what is new waits in the queue for one of the tasks. */
  lemma {:induction false} LaunchAllLive(s: State, ts: seq<TaskId>, co: nat)
    requires Inv(s) && forall t | t in ts :: t in s.tasks && s.tasks[t].Running?
    ensures co in s.live ==> co in LaunchAll(s, ts).live && LaunchAll(s, ts).live[co] == s.live[co]
    ensures co in LaunchAll(s, ts).live && co !in s.live ==>
              var c := LaunchAll(s, ts).live[co];
              c == Coroutine(c.task, Queued, false) && c.task in ts
    decreases |ts|
  {
    if ts != [] {
      LaunchInv(s, ts[0]);
      LaunchAllLive(Launch(s, ts[0]), ts[1..], co);
    }
  }

  /** A coroutine lives until its loop ends, its cancellation is delivered or the process dies. It is cancelled exactly
      by a stop of its task or a shutdown, and gets inside the loop exactly when it begins. */
  lemma CoroutineIff(s: State, step: Step, order: seq<TaskId>, co: nat, next: State)
    requires Inv(s) && Enabled(s, step) && Lists(s, order) && next == Next(s, step, order) && co in s.live
    ensures co in next.live <==> !step.Crash? && step != Interrupt(co) && !(step.End? && step.co == co)
    ensures co in next.live ==>
              && next.live[co].task == s.live[co].task
              && (next.live[co].cancelled <==>
                    s.live[co].cancelled || step.Shutdown? || step == Stop(s.live[co].task))
              && (next.live[co].phase.Inside? <==> s.live[co].phase.Inside? || step == Begin(co))
  {
    if step.Recover? {
      LaunchAllLive(s, order, co);
    }
  }

  /** A new coroutine waits in the queue, and it is there because its task was submitted or resumed, or was left
      running by the last process. */
  lemma NewCoroutine(s: State, step: Step, order: seq<TaskId>, co: nat, next: State)
    requires Inv(s) && Enabled(s, step) && Lists(s, order) && next == Next(s, step, order)
    requires co in next.live && co !in s.live
    ensures var t := next.live[co].task;
            && next.live[co] == Coroutine(t, Queued, false) && Attached(next, t) && !Attached(s, t)
            && (|| step == Submit(t)
                || (step == Resume(t) && (s.tasks[t].Blocked? || s.tasks[t].Pending?))
                || (step.Recover? && t in s.tasks && s.tasks[t].Running?))
  {
    StepInv(s, step, order);
    if step.Recover? {
      LaunchAllLive(s, order, co);
      if Attached(s, next.live[co].task) {
        LaunchAllLive(s, order, s.running[next.live[co].task]);
      }
    }
  }

  /** Whoever is submitted, or resumed while it waits, is looked after. */
  lemma AskedForIsAttached(s: State, step: Step, t: TaskId)
    requires Inv(s) && Enabled(s, step)
    requires step == Submit(t) || (step == Resume(t) && (s.tasks[t].Blocked? || s.tasks[t].Pending?))
    ensures Attached(Next(s, step, []), t) && Next(s, step, []).tasks == s.tasks[t := Pending]
  {
    LaunchInv(s.(tasks := s.tasks[t := Pending], issued := s.issued + {t}), t);
  }

  // --------------------------------------------------------------------- who looks after a task

  /** Somebody will move the task on: it is over, it waits for the user, or it has a coroutine. */
  predicate Attended(s: State, t: TaskId)
  {
    t in s.tasks && (s.tasks[t].Terminal() || s.tasks[t].Blocked? || Attached(s, t))
  }

  /** The steps that can leave a task unattended: an unexpected exception out of its loop, a cancellation
      that reaches it while it still waits for a slot, and the death of the process. */
  predicate Strands(s: State, step: Step, t: TaskId)
  {
    match step
    case End(co, ending) => co in s.live && s.live[co].task == t && ending.Raises?
    case Interrupt(co) => co in s.live && s.live[co].task == t && s.live[co].phase.Queued?
    case Crash(_) => Attached(s, t)
    case _ => false
  }

  lemma LaunchersStrandNobody(s: State, step: Step, order: seq<TaskId>, t: TaskId)
    requires Inv(s) && Enabled(s, step) && Lists(s, order) && Attended(s, t)
    requires step.Submit? || step.Resume? || step.Recover?
    ensures Attended(Next(s, step, order), t)
  {
    match step
    case Submit(u) => LaunchInv(s.(tasks := s.tasks[u := Pending], issued := s.issued + {u}), u);
    case Resume(u) =>
      if s.tasks[u].Blocked? || s.tasks[u].Pending? { LaunchInv(s.(tasks := s.tasks[u := Pending]), u); }
    case Recover => LaunchAllInv(s, order);
  }

  /** Exactly these steps lose a task, and nothing else does. */
  lemma StrandedIff(s: State, step: Step, order: seq<TaskId>, t: TaskId)
    requires Inv(s) && Enabled(s, step) && Lists(s, order) && Attended(s, t)
    ensures var s' := Next(s, step, order);
            (t in s'.tasks && !Attended(s', t)) <==> Strands(s, step, t)
  {
    if step.Submit? || step.Resume? || step.Recover? {
      LaunchersStrandNobody(s, step, order, t);
    }
  }

  /** Recovery attends every task left running, and exactly those: a task left pending stays as it was. */
  lemma RecoveryIff(s: State, order: seq<TaskId>, t: TaskId)
    requires Inv(s) && Lists(s, order) && t in s.tasks && !Attended(s, t)
    ensures Attended(Next(s, Recover, order), t) <==> s.tasks[t].Running?
  {
    LaunchAllInv(s, order);
    if !s.tasks[t].Running? {
      LaunchAllOthers(s, order, t);
    }
  }

  lemma {:induction false} LaunchAllOthers(s: State, ts: seq<TaskId>, t: TaskId)
    requires t !in ts && !Attached(s, t) && Tracked(s) && (t in s.running ==> s.running[t] < s.nextCo)
    ensures !Attached(LaunchAll(s, ts), t)
    decreases |ts|
  {
    if ts != [] {
      LaunchAllOthers(Launch(s, ts[0]), ts[1..], t);
    }
  }

  /** A stranded pending task is moved on by nothing but a resume or a stop of that very task. */
  lemma PendingWaitsForTheUser(s: State, step: Step, order: seq<TaskId>, t: TaskId)
    requires Inv(s) && Enabled(s, step) && Lists(s, order) && t in s.tasks && s.tasks[t].Pending? && !Attended(s, t)
    ensures var s' := Next(s, step, order);
            (t in s'.tasks && s'.tasks[t].Pending? && !Attended(s', t)) <==> step != Resume(t) && step != Stop(t)
  {
    match step
    case Recover => LaunchAllOthers(s, order, t);
    case Submit(u) => assert u != t;
    case _ =>
  }

  /** A resume can be lost: while a stopped coroutine still waits for a slot, resuming its task launches
      nothing, and the cancellation then leaves the task pending with nobody to run it. */
  lemma ResumeIsLost(s: State, co: nat)
    requires Inv(s) && co in s.live && s.live[co].phase.Queued? && s.tasks[s.live[co].task].Pending?
    ensures var t := s.live[co].task;
            var u := Next(Next(Next(s, Stop(t), []), Resume(t), []), Interrupt(co), []);
            && Enabled(s, Stop(t)) && Enabled(Next(s, Stop(t), []), Resume(t))
            && Enabled(Next(Next(s, Stop(t), []), Resume(t), []), Interrupt(co))
            && u.tasks[t].Pending? && !Attended(u, t)
  {
  }

  // -------------------------------------------------------------------------- a polite shutdown

  /** These cancellations reach their coroutines, one after the other. */
  ghost predicate Delivers(s: State, cos: seq<nat>)
    decreases |cos|
  {
    cos == [] || (Enabled(s, Interrupt(cos[0])) && Delivers(Next(s, Interrupt(cos[0]), []), cos[1..]))
  }

  ghost function Delivered(s: State, cos: seq<nat>): State
    requires Delivers(s, cos)
    decreases |cos|
  {
    if cos == [] then s else Delivered(Next(s, Interrupt(cos[0]), []), cos[1..])
  }

  /** The cancellations of other coroutines leave a task alone. */
  lemma {:induction false} OthersDelivered(s: State, cos: seq<nat>, t: TaskId)
    requires Inv(s) && Delivers(s, cos) && t in s.tasks && forall c | c in s.live && s.live[c].task == t :: c !in cos
    ensures Inv(Delivered(s, cos)) && t in Delivered(s, cos).tasks && Delivered(s, cos).tasks[t] == s.tasks[t]
    decreases |cos|
  {
    if cos != [] {
      FinishInv(s, cos[0], if s.live[cos[0]].phase.Inside? then Stopped else Row(s, cos[0]));
      OthersDelivered(Next(s, Interrupt(cos[0]), []), cos[1..], t);
    }
  }

  /** The row of a task once they are through: only a coroutine that is reached inside the loop changes it. */
  function RowThen(s: State, cos: seq<nat>, t: TaskId): TaskState
    requires t in s.tasks && Attached(s, t)
  {
    if s.running[t] in cos && s.live[s.running[t]].phase.Inside? then Stopped else s.tasks[t]
  }

  lemma {:induction false} DeliveredRow(s: State, cos: seq<nat>, t: TaskId)
    requires Inv(s) && Delivers(s, cos) && t in s.tasks && Attached(s, t)
    ensures Inv(Delivered(s, cos)) && t in Delivered(s, cos).tasks && Delivered(s, cos).tasks[t] == RowThen(s, cos, t)
    decreases |cos|
  {
    if cos != [] {
      var co, next := cos[0], Next(s, Interrupt(cos[0]), []);
      FinishInv(s, co, if s.live[co].phase.Inside? then Stopped else Row(s, co));
      if co == s.running[t] {
        OthersDelivered(next, cos[1..], t);
      } else {
        DeliveredRow(next, cos[1..], t);
      }
    }
  }

  /** A new process takes up exactly what the last one left running. */
  lemma TakenUpIff(s: State, down: State, maxParallel: int, order: seq<TaskId>, t: TaskId)
    requires Inv(s) && down == Next(s, Crash(maxParallel), []) && Lists(down, order) && t in s.tasks
    ensures down.tasks == s.tasks && (Attached(Next(down, Recover, order), t) <==> s.tasks[t].Running?)
  {
    assert Insiders(map[]) == {};
    LaunchAllInv(down, order);
    if t !in order {
      LaunchAllOthers(down, order, t);
    }
  }

  /** The event loop is cancelled, some cancellations reach their coroutines, the process ends and starts again and
      recovers: a task that had a coroutine has one again exactly when its row was running and no cancellation
      reached it inside the loop. One that was reached there is stopped for good; one that was still pending stays
      pending with nobody to run it. */
  lemma ShutdownIff(s: State, cos: seq<nat>, maxParallel: int, down: State, order: seq<TaskId>, t: TaskId)
    requires Inv(s) && Attached(s, t) && Delivers(Next(s, Shutdown, []), cos)
    requires down == Next(Delivered(Next(s, Shutdown, []), cos), Crash(maxParallel), []) && Lists(down, order)
    ensures t in s.tasks && t in down.tasks && down.tasks[t] == RowThen(s, cos, t)
    ensures Attached(Next(down, Recover, order), t)
       <==> s.tasks[t].Running? && !(s.running[t] in cos && s.live[s.running[t]].phase.Inside?)
  {
    var off := Next(s, Shutdown, []);
    CancelInv(s, s.live.Keys);
    assert off.running == s.running && off.live[s.running[t]].phase == s.live[s.running[t]].phase;
    DeliveredRow(off, cos, t);
    TakenUpIff(Delivered(off, cos), down, maxParallel, order, t);
  }

  // ---------------------------------------------------------------------- the program's own form

  class TaskSupervisor {
    var tasks: map<TaskId, TaskState>
    var issued: set<TaskId>
    var live: map<nat, Coroutine>
    var running: map<TaskId, nat>
    var nextCo: nat
    var permits: nat
    const slots: nat

    function View(): State
      reads this
    {
      State(tasks, issued, live, running, nextCo, permits, slots)
    }

    constructor (maxParallel: int)
      ensures View() == Start(maxParallel) && Inv(View())
    {
      tasks, issued, live, running, nextCo := map[], {}, map[], map[], 0;
      permits, slots := Slots(maxParallel), Slots(maxParallel);
      assert Insiders(map[]) == {};
    }

    method LaunchTask(t: TaskId)
      modifies this
      ensures View() == Launch(old(View()), t)
    {
      if t in running && running[t] in live {
        return;
      }
      live, running := live[nextCo := Coroutine(t, Queued, false)], running[t := nextCo];
      nextCo := nextCo + 1;
    }

    method SubmitTask(t: TaskId)
      requires Inv(View()) && t !in issued
      modifies this
      ensures View() == Next(old(View()), Submit(t), []) && Inv(View())
    {
      LaunchInv(View().(tasks := tasks[t := Pending], issued := issued + {t}), t);
      tasks, issued := tasks[t := Pending], issued + {t};
      LaunchTask(t);
    }

    /** Returns whether the task exists; the caller of an unknown task gets an error and nothing changes. */
    method ResumeTask(t: TaskId) returns (known: bool)
      requires Inv(View())
      modifies this
      ensures known <==> t in old(tasks)
      ensures View() == if known then Next(old(View()), Resume(t), []) else old(View())
      ensures Inv(View()) && (known && (old(tasks)[t].Blocked? || old(tasks)[t].Pending?) ==> Attached(View(), t))
    {
      known := t in tasks;
      if known && (tasks[t].Blocked? || tasks[t].Pending?) {
        LaunchInv(View().(tasks := tasks[t := Pending]), t);
        tasks := tasks[t := Pending];
        LaunchTask(t);
      }
    }

    /** Returns whether there was something to stop. */
    method StopTask(t: TaskId) returns (stopped: bool)
      requires Inv(View())
      modifies this
      ensures View() == Next(old(View()), Stop(t), []) && Inv(View())
      ensures stopped <==> Attached(old(View()), t) || (t in old(tasks) && old(tasks)[t].Active())
    {
      if t in running && running[t] in live {
        CancelInv(View(), {running[t]});
        live := Cancel(live, {running[t]});
        return true;
      }
      if t in tasks && tasks[t].Active() {
        tasks := tasks[t := Stopped];
        return true;
      }
      return false;
    }

    method BeginRun(co: nat)
      requires Inv(View()) && Enabled(View(), Begin(co))
      modifies this
      ensures View() == Next(old(View()), Begin(co), []) && Inv(View())
    {
      BeginInv(View(), co);
      permits := permits - 1;
      tasks := tasks[live[co].task := Running];
      live := live[co := live[co].(phase := Inside)];
    }

    method ApplyOutcome(co: nat, ending: Ending)
      requires Inv(View()) && Enabled(View(), End(co, ending))
      modifies this
      ensures View() == Next(old(View()), End(co, ending), []) && Inv(View())
      ensures ending.EndsOk? ==> tasks == old(tasks)[old(live)[co].task := Finished]
      ensures ending.EndsBadly? ==> tasks == old(tasks)[old(live)[co].task := Failed]
      ensures ending.EndsBlocked? ==> tasks == old(tasks)[old(live)[co].task := Blocked]
      ensures ending.Aborts? ==> tasks == old(tasks)[old(live)[co].task := Stopped]
      ensures ending.Raises? ==> tasks == old(tasks)
    {
      FinishInv(View(), co, After(Row(View(), co), ending));
      match ending {
        case EndsBlocked => tasks := tasks[live[co].task := Blocked];
        case EndsOk => tasks := tasks[live[co].task := Finished];
        case EndsBadly => tasks := tasks[live[co].task := Failed];
        case Aborts => tasks := tasks[live[co].task := Stopped];
        case Raises => assert tasks[live[co].task := tasks[live[co].task]] == tasks;
      }
      live, permits := live - {co}, permits + 1;
    }

    method Interrupted(co: nat)
      requires Inv(View()) && Enabled(View(), Interrupt(co))
      modifies this
      ensures View() == Next(old(View()), Interrupt(co), []) && Inv(View())
    {
      FinishInv(View(), co, if live[co].phase.Inside? then Stopped else Row(View(), co));
      if live[co].phase.Inside? {
        tasks, permits := tasks[live[co].task := Stopped], permits + 1;
      } else {
        assert tasks[live[co].task := tasks[live[co].task]] == tasks;
      }
      live := live - {co};
    }

    /** Launches what the process left running when it died, in the order the rows come back. */
    method RecoverTasks(order: seq<TaskId>)
      requires Inv(View()) && Lists(View(), order)
      modifies this
      ensures View() == Next(old(View()), Recover, order) && Inv(View())
      ensures forall t | t in tasks && tasks[t].Running? :: Attached(View(), t)
    {
      ghost var before := View();
      for i := 0 to |order|
        invariant LaunchAll(before, order) == LaunchAll(View(), order[i..])
      {
        LaunchTask(order[i]);
        assert order[i..][1..] == order[i + 1..];
      }
      LaunchAllInv(before, order);
    }
  }
}
