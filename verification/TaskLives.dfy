/** Tasks under the supervisor (tasks/supervisor.py, tasks/store.py, agent/loop.py): submitting, resuming,
    stopping, crashing and recovering interleaved in any way with what the loops of all tasks journal and
    perform. Every time a coroutine is inside the loop is one life of its task. */
module TaskLives {
  import opened Options
  import opened Journals
  import opened Lives
  import opened LoopProofs
  import LoopSpec
  import S = Supervisor

  type TaskId = S.TaskId

  /** A life under way: the table as it was when the loop began, and what was journalled and performed since. */
  datatype Current = Current(rows: Rows, events: seq<Event>)

  /** A task ever submitted: the lives that are over, how many of them were cut by a crash, a cancellation or an
      unexpected error, the life under way, and the journal table, which pruning leaves where it is. */
  datatype Task = Task(past: seq<Life>, cuts: nat, now: Option<Current>, table: Rows)

  datatype Joint = Joint(sup: S.State, tasks: map<TaskId, Task>)

  function Start(maxParallel: int): Joint { Joint(S.Start(maxParallel), map[]) }

  datatype Move =
    | Schedule(step: S.Step, order: seq<TaskId>)
    | Emit(task: TaskId, event: Event)      // the loop of a task journals or performs something

  // ------------------------------------------------------------------- what happens to a task

  const FRESH := Task([], 0, None, map[])

  function LifeOf(c: Current): Life { Life(c.events, |c.events|, false) }

  function Begun(task: Task): Task { task.(now := Some(Current(task.table, []))) }

  function Noted(task: Task, e: Event): Task
    requires task.now.Some?
  {
    task.(now := Some(task.now.value.(events := task.now.value.events + [e])), table := Apply(task.table, e))
  }

  /** The life under way is over, cut or by itself. */
  function Over(task: Task, cut: bool): Task
  {
    if task.now.None? then task
    else Task(task.past + [LifeOf(task.now.value)], if cut then task.cuts + 1 else task.cuts, None, task.table)
  }

  function Reset(task: Task): Task { task.(table := ResetRunning(task.table)) }

  // ------------------------------------------------------------------------------- the steps

  /** The loop takes the next step of an orderly run that repeats nothing. */
  ghost predicate MayEmit(c: Current, e: Event)
  {
    Orderly(c.rows, c.events + [e]) && NoReuse(c.events + [e])
  }

  /** A run that ends by itself leaves no success without its row. */
  ghost predicate MayEnd(task: Task, ending: S.Ending)
  {
    task.now.Some? && !ending.Raises? ==> Settled(task.now.value.events)
  }

  ghost predicate Enabled(j: Joint, m: Move)
  {
    match m
    case Schedule(step, order) =>
      && S.Enabled(j.sup, step) && S.Lists(j.sup, order)
      && (step.End? && j.sup.live[step.co].task in j.tasks ==> MayEnd(j.tasks[j.sup.live[step.co].task], step.ending))
    case Emit(t, e) => t in j.tasks && j.tasks[t].now.Some? && MayEmit(j.tasks[t].now.value, e)
  }

  /** What happens to one task in a step of the supervisor, in terms of the task alone. */
  datatype Change = Begins | Ends(cut: bool) | Resets | Nothing

  function ChangeOf(s: S.State, step: S.Step, order: seq<TaskId>, t: TaskId): Change
    requires step.Begin? || step.End? || step.Interrupt? ==> step.co in s.live
  {
    match step
    case Begin(co) => if t == s.live[co].task then Begins else Nothing
    case End(co, ending) => if t == s.live[co].task then Ends(ending.Raises?) else Nothing
    case Interrupt(co) => if t == s.live[co].task && s.live[co].phase.Inside? then Ends(true) else Nothing
    case Crash(_) => Ends(true)
    case Recover => if t in order then Resets else Nothing
    case _ => Nothing
  }

  function Changed(task: Task, change: Change): Task
  {
    match change
    case Begins => Begun(task)
    case Ends(cut) => Over(task, cut)
    case Resets => Reset(task)
    case Nothing => task
  }

  /** What a step of the supervisor does to the journals and the lives. */
  function Journalled(j: Joint, step: S.Step, order: seq<TaskId>): map<TaskId, Task>
    requires step.Begin? || step.End? || step.Interrupt? ==> step.co in j.sup.live
  {
    if step.Submit? then j.tasks[step.task := FRESH]
    else map t | t in j.tasks :: Changed(j.tasks[t], ChangeOf(j.sup, step, order, t))
  }

  function Next(j: Joint, m: Move): Joint
    requires m.Schedule? && m.step.Resume? ==> m.step.task in j.sup.tasks
    requires m.Schedule? && (m.step.Begin? || m.step.End? || m.step.Interrupt?) ==> m.step.co in j.sup.live
    requires m.Schedule? && m.step.Begin? ==> j.sup.permits > 0
    requires m.Emit? ==> m.task in j.tasks && j.tasks[m.task].now.Some?
  {
    match m
    case Schedule(step, order) => Joint(S.Next(j.sup, step, order), Journalled(j, step, order))
    case Emit(t, e) => j.(tasks := j.tasks[t := Noted(j.tasks[t], e)])
  }

  /** What the supervisor does to the journal of a task: recovery puts the steps of a task that was left running back
      to waiting, and no other step of it touches a row. */
  lemma JournalStays(j: Joint, step: S.Step, order: seq<TaskId>, t: TaskId, k: Key)
    requires Enabled(j, Schedule(step, order)) && t in j.tasks && step != S.Submit(t)
    ensures var after := Next(j, Schedule(step, order)).tasks;
            && t in after && (k in after[t].table <==> k in j.tasks[t].table)
            && (k in j.tasks[t].table ==>
                  var was := j.tasks[t].table[k];
                  after[t].table[k]
                  == if step.Recover? && t in j.sup.tasks && j.sup.tasks[t].Running? && was.state.Running?
                     then was.(state := Pending) else was)
  {
    var change := ChangeOf(j.sup, step, order, t);
    assert change.Resets? <==> step.Recover? && t in j.sup.tasks && j.sup.tasks[t].Running?;
  }

  // ------------------------------------------------------------ tables that recovery reset

  /** The same rows up to steps that one table has as running and the other as pending. */
  ghost predicate Similar(a: Rows, b: Rows)
  {
    && a.Keys == b.Keys
    && forall k | k in a ::
         a[k] == b[k] || (Idle(a[k]) && Idle(b[k]) && a[k].(state := Pending) == b[k].(state := Pending))
  }

  predicate Idle(row: Row) { row.state.Running? || row.state.Pending? }

  lemma SimilarApply(a: Rows, b: Rows, e: Event)
    requires Similar(a, b)
    ensures Similar(Apply(a, e), Apply(b, e))
  {
  }

  lemma SimilarReset(a: Rows, b: Rows)
    requires Similar(a, b)
    ensures Similar(ResetRunning(a), b)
  {
  }

  lemma SimilarOrderly(a: Rows, b: Rows, events: seq<Event>)
    requires Similar(a, b) && Orderly(a, events)
    ensures Orderly(b, events)
  {
  }

  // ------------------------------------------------------------------------ the invariant

  /** All lives of a task, the one under way included. */
  function AllLives(task: Task): seq<Life>
  {
    if task.now.Some? then task.past + [LifeOf(task.now.value)] else task.past
  }

  ghost predicate CutsFitIn(past: seq<Life>) { forall i | 0 <= i < |past| :: past[i].cut <= |past[i].events| }

  /** The past of a task is a history of orderly lives, and no more of them died in a window than were cut. */
  ghost predicate PastOk(past: seq<Life>, cuts: nat)
  {
    History(map[], past) && CutsFitIn(past) && forall k :: Windows(past, k) <= cuts
  }

  /** A life under way is orderly over what the past left. */
  ghost predicate NowOk(past: seq<Life>, c: Current)
  {
    Similar(c.rows, TableAfter(map[], past)) && Orderly(c.rows, c.events) && NoReuse(c.events)
  }

  ghost predicate TaskOk(task: Task)
  {
    && PastOk(task.past, task.cuts)
    && (task.now.Some? ==> NowOk(task.past, task.now.value))
    && Similar(task.table, TableAfter(map[], AllLives(task)))
  }

  /** The tasks with a coroutine inside the loop. */
  function InsideTasks(live: map<nat, S.Coroutine>): set<TaskId>
  {
    set c | c in live && live[c].phase.Inside? :: live[c].task
  }

  function Living(tasks: map<TaskId, Task>): set<TaskId> { set t | t in tasks && tasks[t].now.Some? }

  ghost predicate KeysOk(s: S.State, tasks: map<TaskId, Task>)
  {
    tasks.Keys == s.issued && Living(tasks) == InsideTasks(s.live)
  }

  ghost predicate TasksOk(tasks: map<TaskId, Task>) { forall t | t in tasks :: TaskOk(tasks[t]) }

  ghost predicate Inv(j: Joint) { S.Inv(j.sup) && KeysOk(j.sup, j.tasks) && TasksOk(j.tasks) }

  // ------------------------------------------------------------------------------ one task

  lemma LifeJoins(past: seq<Life>, life: Life)
    requires History(map[], past) && life.cut == |life.events| && !life.recovered
    requires Orderly(TableAfter(map[], past), life.events) && NoReuse(life.events)
    ensures History(map[], past + [life])
    ensures TableAfter(map[], past + [life]) == Replay(TableAfter(map[], past), life.events)
  {
    assert (past + [life])[..|past|] == past;
    assert life.Seen() == life.events;
  }

  /** What a life under way makes of the history of its task. */
  lemma NowJoins(past: seq<Life>, c: Current)
    requires History(map[], past) && NowOk(past, c)
    ensures History(map[], past + [LifeOf(c)])
    ensures TableAfter(map[], past + [LifeOf(c)]) == Replay(TableAfter(map[], past), c.events)
  {
    SimilarOrderly(c.rows, TableAfter(map[], past), c.events);
    LifeJoins(past, LifeOf(c));
  }

  lemma WindowsMore(past: seq<Life>, life: Life, k: Key)
    requires forall i | 0 <= i < |past| :: past[i].cut <= |past[i].events|
    requires life.cut == |life.events|
    ensures forall i | 0 <= i < |past + [life]| :: (past + [life])[i].cut <= |(past + [life])[i].events|
    ensures Windows(past + [life], k) == Windows(past, k) + if CutInWindow(life.events, k) then 1 else 0
    ensures TotalSuccesses(past + [life], k) == TotalSuccesses(past, k) + Successes(life.events, k)
  {
    assert (past + [life])[..|past|] == past;
    assert life.Seen() == life.events;
  }

  lemma FreshOk()
    ensures TaskOk(FRESH)
  {
    assert History(map[], []) && TableAfter(map[], []) == map[];
  }

  lemma BegunOk(task: Task)
    requires TaskOk(task) && task.now.None?
    ensures TaskOk(Begun(task))
  {
    NowJoins(task.past, Begun(task).now.value);
  }

  lemma NotedOk(task: Task, e: Event)
    requires TaskOk(task) && task.now.Some? && MayEmit(task.now.value, e)
    ensures TaskOk(Noted(task, e))
  {
    var c, past := task.now.value, task.past;
    var c' := c.(events := c.events + [e]);
    NowJoins(past, c);
    NowJoins(past, c');
    assert c'.events[..|c.events|] == c.events;
    SimilarApply(task.table, TableAfter(map[], past + [LifeOf(c)]), e);
  }

  /** A life that is over joins the past: if it was not cut, it did not end in a window. */
  lemma OverOk(task: Task, cut: bool)
    requires TaskOk(task) && (task.now.Some? && !cut ==> Settled(task.now.value.events))
    ensures TaskOk(Over(task, cut))
  {
    if task.now.Some? {
      var life, after := LifeOf(task.now.value), Over(task, cut);
      NowJoins(task.past, task.now.value);
      FitMore(task.past, life);
      forall k
        ensures Windows(after.past, k) <= after.cuts
      {
        WindowsMore(task.past, life, k);
        assert Windows(task.past, k) <= task.cuts;
      }
    }
  }

  lemma FitMore(past: seq<Life>, life: Life)
    requires CutsFitIn(past) && life.cut <= |life.events|
    ensures CutsFitIn(past + [life])
  {
  }

  lemma ResetOk(task: Task)
    requires TaskOk(task)
    ensures TaskOk(Reset(task))
  {
    SimilarReset(task.table, TableAfter(map[], AllLives(task)));
  }

  // ------------------------------------------------------------------------------- all tasks

  ghost predicate MayChange(task: Task, change: Change)
  {
    match change
    case Begins => task.now.None?
    case Ends(cut) => task.now.Some? && !cut ==> Settled(task.now.value.events)
    case _ => true
  }

  lemma ChangedOk(task: Task, change: Change)
    requires TaskOk(task) && MayChange(task, change)
    ensures TaskOk(Changed(task, change))
  {
    match change
    case Begins => BegunOk(task);
    case Ends(cut) => OverOk(task, cut);
    case Resets => ResetOk(task);
    case Nothing =>
  }

  lemma MayChangeNow(j: Joint, step: S.Step, order: seq<TaskId>, t: TaskId)
    requires Inv(j) && Enabled(j, Schedule(step, order)) && t in j.tasks
    ensures MayChange(j.tasks[t], ChangeOf(j.sup, step, order, t))
  {
    if step.Begin? { MayBegin(j, step.co); }
  }

  lemma TasksNext(j: Joint, step: S.Step, order: seq<TaskId>)
    requires Inv(j) && Enabled(j, Schedule(step, order))
    ensures TasksOk(Journalled(j, step, order))
  {
    if step.Submit? {
      FreshOk();
    } else {
      forall t | t in j.tasks
        ensures TaskOk(Changed(j.tasks[t], ChangeOf(j.sup, step, order, t)))
      {
        MayChangeNow(j, step, order, t);
        assert TaskOk(j.tasks[t]);
        ChangedOk(j.tasks[t], ChangeOf(j.sup, step, order, t));
      }
    }
  }

  /** A coroutine that enters the loop is the only one of its task. */
  lemma MayBegin(j: Joint, co: nat)
    requires Inv(j) && S.Enabled(j.sup, S.Begin(co))
    ensures var t := j.sup.live[co].task; t in j.tasks && j.tasks[t].now.None?
  {
    var t := j.sup.live[co].task;
    BeginInside(j.sup, co);
    assert t in j.sup.tasks && t !in Living(j.tasks);
  }

  lemma LaunchInside(s: S.State, t: TaskId)
    requires S.Tracked(s)
    ensures InsideTasks(S.Launch(s, t).live) == InsideTasks(s.live)
  {
    forall u | u in InsideTasks(s.live)
      ensures u in InsideTasks(S.Launch(s, t).live)
    {
      var c :| c in s.live && s.live[c].phase.Inside? && s.live[c].task == u;
      assert S.Launch(s, t).live[c] == s.live[c];
    }
  }

  lemma {:induction false} LaunchAllInside(s: S.State, ts: seq<TaskId>)
    requires S.Inv(s) && forall t | t in ts :: t in s.tasks && s.tasks[t].Running?
    ensures InsideTasks(S.LaunchAll(s, ts).live) == InsideTasks(s.live)
    decreases |ts|
  {
    if ts != [] {
      S.LaunchInv(s, ts[0]);
      LaunchInside(s, ts[0]);
      LaunchAllInside(S.Launch(s, ts[0]), ts[1..]);
    }
  }

  lemma CancelInside(live: map<nat, S.Coroutine>, cos: set<nat>)
    ensures InsideTasks(S.Cancel(live, cos)) == InsideTasks(live)
  {
    forall u | u in InsideTasks(live)
      ensures u in InsideTasks(S.Cancel(live, cos))
    {
      var c :| c in live && live[c].phase.Inside? && live[c].task == u;
      assert S.Cancel(live, cos)[c].task == u;
    }
  }

  lemma BeginInside(s: S.State, co: nat)
    requires S.Inv(s) && S.Enabled(s, S.Begin(co))
    ensures InsideTasks(S.Next(s, S.Begin(co), []).live) == InsideTasks(s.live) + {s.live[co].task}
    ensures s.live[co].task !in InsideTasks(s.live)
  {
    var live' := S.Next(s, S.Begin(co), []).live;
    forall u | u in InsideTasks(s.live) + {s.live[co].task}
      ensures u in InsideTasks(live')
    {
      if u == s.live[co].task {
        assert live'[co].task == u;
      } else {
        var c :| c in s.live && s.live[c].phase.Inside? && s.live[c].task == u;
        assert live'[c] == s.live[c];
      }
    }
  }

  /** When a coroutine is done, its task is no longer inside the loop, since it has no other one. */
  lemma FinishInside(s: S.State, co: nat)
    requires S.Inv(s) && co in s.live
    ensures InsideTasks(s.live - {co})
         == if s.live[co].phase.Inside? then InsideTasks(s.live) - {s.live[co].task} else InsideTasks(s.live)
  {
    forall u | u in InsideTasks(s.live) && (s.live[co].phase.Inside? ==> u != s.live[co].task)
      ensures u in InsideTasks(s.live - {co})
    {
      var c :| c in s.live && s.live[c].phase.Inside? && s.live[c].task == u;
      assert c != co && (s.live - {co})[c] == s.live[c];
    }
  }

  lemma IssuedNext(s: S.State, step: S.Step, order: seq<TaskId>)
    requires S.Enabled(s, step)
    ensures S.Next(s, step, order).issued == if step.Submit? then s.issued + {step.task} else s.issued
  {
  }

  lemma IdsNext(j: Joint, step: S.Step, order: seq<TaskId>)
    requires step.Begin? || step.End? || step.Interrupt? ==> step.co in j.sup.live
    ensures Journalled(j, step, order).Keys == if step.Submit? then j.tasks.Keys + {step.task} else j.tasks.Keys
  {
  }

  /** Which tasks are inside the loop after a step. */
  function Entered(s: S.State, step: S.Step, inside: set<TaskId>): set<TaskId>
    requires step.Begin? || step.End? || step.Interrupt? ==> step.co in s.live
  {
    match step
    case Begin(co) => inside + {s.live[co].task}
    case End(co, _) => inside - {s.live[co].task}
    case Interrupt(co) => if s.live[co].phase.Inside? then inside - {s.live[co].task} else inside
    case Crash(_) => {}
    case _ => inside
  }

  lemma LivingTask(s: S.State, step: S.Step, order: seq<TaskId>, living: set<TaskId>, t: TaskId, task: Task)
    requires step.Begin? || step.End? || step.Interrupt? ==> step.co in s.live
    requires t in living <==> task.now.Some?
    ensures t in Entered(s, step, living) <==> Changed(task, ChangeOf(s, step, order, t)).now.Some?
  {
  }

  lemma LivingIs(tasks: map<TaskId, Task>, living: set<TaskId>)
    requires living <= tasks.Keys && forall t | t in tasks :: t in living <==> tasks[t].now.Some?
    ensures Living(tasks) == living
  {
  }

  lemma LivingNext(j: Joint, step: S.Step, order: seq<TaskId>)
    requires Inv(j) && S.Enabled(j.sup, step)
    ensures Living(Journalled(j, step, order)) == Entered(j.sup, step, Living(j.tasks))
  {
    if step.Submit? {
      SubmitLiving(j.tasks, step.task);
    } else {
      if step.Begin? { MayBegin(j, step.co); }
      AlteredLiving(j, step, order);
    }
  }

  lemma SubmitLiving(tasks: map<TaskId, Task>, t: TaskId)
    requires t !in tasks
    ensures Living(tasks[t := FRESH]) == Living(tasks)
  {
  }

  lemma AlteredLiving(j: Joint, step: S.Step, order: seq<TaskId>)
    requires S.Enabled(j.sup, step) && !step.Submit?
    requires step.Begin? ==> j.sup.live[step.co].task in j.tasks
    ensures Living(Journalled(j, step, order)) == Entered(j.sup, step, Living(j.tasks))
  {
    var tasks, living := Journalled(j, step, order), Entered(j.sup, step, Living(j.tasks));
    forall t | t in tasks
      ensures t in living <==> tasks[t].now.Some?
    {
      LivingTask(j.sup, step, order, Living(j.tasks), t, j.tasks[t]);
    }
    LivingIs(tasks, living);
  }

  lemma InsideNext(s: S.State, step: S.Step, order: seq<TaskId>)
    requires S.Inv(s) && S.Enabled(s, step) && S.Lists(s, order)
    ensures InsideTasks(S.Next(s, step, order).live) == Entered(s, step, InsideTasks(s.live))
  {
    match step
    case Submit(t) => LaunchInside(s.(tasks := s.tasks[t := S.Pending], issued := s.issued + {t}), t);
    case Resume(t) => LaunchInside(s.(tasks := s.tasks[t := S.Pending]), t);
    case Stop(t) => if S.Attached(s, t) { CancelInside(s.live, {s.running[t]}); }
    case Begin(co) => BeginInside(s, co);
    case End(co, _) => FinishInside(s, co);
    case Interrupt(co) => FinishInside(s, co);
    case Shutdown => CancelInside(s.live, s.live.Keys);
    case Recover => LaunchAllInside(s, order);
    case _ =>
  }

  // ------------------------------------------------------------------------------ every run

  lemma ScheduleInv(j: Joint, step: S.Step, order: seq<TaskId>)
    requires Inv(j) && Enabled(j, Schedule(step, order))
    ensures Inv(Next(j, Schedule(step, order)))
  {
    S.StepInv(j.sup, step, order);
    IdsNext(j, step, order);
    IssuedNext(j.sup, step, order);
    LivingNext(j, step, order);
    InsideNext(j.sup, step, order);
    TasksNext(j, step, order);
  }

  lemma NotedKeys(tasks: map<TaskId, Task>, t: TaskId, task: Task)
    requires t in tasks && task.now.Some? == tasks[t].now.Some?
    ensures Living(tasks[t := task]) == Living(tasks)
  {
  }

  lemma UpdatedOk(tasks: map<TaskId, Task>, t: TaskId, task: Task)
    requires TasksOk(tasks) && TaskOk(task)
    ensures TasksOk(tasks[t := task])
  {
  }

  lemma EmitInv(j: Joint, t: TaskId, e: Event)
    requires Inv(j) && Enabled(j, Emit(t, e))
    ensures Inv(Next(j, Emit(t, e)))
  {
    var task := Noted(j.tasks[t], e);
    assert TaskOk(j.tasks[t]);
    NotedOk(j.tasks[t], e);
    NotedKeys(j.tasks, t, task);
    UpdatedOk(j.tasks, t, task);
  }

  ghost predicate Runs(j: Joint, moves: seq<Move>)
    decreases |moves|
  {
    moves == [] || (Enabled(j, moves[0]) && Runs(Next(j, moves[0]), moves[1..]))
  }

  ghost function Reach(j: Joint, moves: seq<Move>): Joint
    requires Runs(j, moves)
    decreases |moves|
  {
    if moves == [] then j else Reach(Next(j, moves[0]), moves[1..])
  }

  lemma StepInv(j: Joint, m: Move)
    requires Inv(j) && Enabled(j, m)
    ensures Inv(Next(j, m))
  {
    match m
    case Schedule(step, order) => ScheduleInv(j, step, order);
    case Emit(t, e) => EmitInv(j, t, e);
  }

  lemma {:induction false} RunInv(j: Joint, moves: seq<Move>)
    requires Inv(j) && Runs(j, moves)
    ensures Inv(Reach(j, moves))
    decreases |moves|
  {
    if moves != [] {
      StepInv(j, moves[0]);
      RunInv(Next(j, moves[0]), moves[1..]);
    }
  }

  lemma StartInv(maxParallel: int)
    ensures Inv(Start(maxParallel))
  {
    assert S.Insiders(map[]) == {};
  }

  /** How often the action of a step succeeded, over all lives of its task. */
  ghost function Successful(task: Task, k: Key): nat
    requires CutsFitIn(task.past)
  {
    TotalSuccesses(task.past, k) + if task.now.Some? then Successes(task.now.value.events, k) else 0
  }

  lemma SuccessesBounded(task: Task, k: Key)
    requires TaskOk(task)
    ensures Successful(task, k) <= task.cuts + 1
    ensures task.now.None? && !IsDone(task.table, k) ==> Successful(task, k) <= task.cuts
  {
    AtMostOncePlusCrashes(map[], task.past, k);
    assert Windows(task.past, k) <= task.cuts;
    if task.now.Some? {
      var c, before := task.now.value, TableAfter(map[], task.past);
      SimilarOrderly(c.rows, before, c.events);
      if IsDone(before, k) {
        NoneWithoutEvents(before, c.events, k);
      } else {
        LifeOnce(before, c.events, k);
      }
    }
  }

  /** The step cuts the life of a task that is under way. */
  ghost predicate CutsLife(j: Joint, m: Move, t: TaskId)
    requires Enabled(j, m)
  {
    m.Schedule? && t in j.tasks && j.tasks[t].now.Some? && ChangeOf(j.sup, m.step, m.order, t) == Ends(true)
  }

  /** How many steps of a run cut a life of the task. */
  ghost function CutsOf(j: Joint, moves: seq<Move>, t: TaskId): nat
    requires Runs(j, moves)
    decreases |moves|
  {
    if moves == [] then 0 else (if CutsLife(j, moves[0], t) then 1 else 0) + CutsOf(Next(j, moves[0]), moves[1..], t)
  }

  function CutsSoFar(tasks: map<TaskId, Task>, t: TaskId): nat { if t in tasks then tasks[t].cuts else 0 }

  lemma CutsStep(j: Joint, m: Move, t: TaskId)
    requires Inv(j) && Enabled(j, m)
    ensures CutsSoFar(Next(j, m).tasks, t) == CutsSoFar(j.tasks, t) + if CutsLife(j, m, t) then 1 else 0
  {
    if m.Schedule? {
      CutsSchedule(j, m.step, m.order, t);
    }
  }

  lemma CutsSchedule(j: Joint, step: S.Step, order: seq<TaskId>, t: TaskId)
    requires step.Begin? || step.End? || step.Interrupt? ==> step.co in j.sup.live
    requires step.Submit? ==> step.task !in j.tasks
    ensures CutsSoFar(Journalled(j, step, order), t)
         == CutsSoFar(j.tasks, t)
            + if t in j.tasks && j.tasks[t].now.Some? && ChangeOf(j.sup, step, order, t) == Ends(true) then 1 else 0
  {
    if t in j.tasks {
      CutsChange(j.tasks[t], ChangeOf(j.sup, step, order, t));
    }
  }

  lemma CutsChange(task: Task, change: Change)
    ensures Changed(task, change).cuts == task.cuts + if task.now.Some? && change == Ends(true) then 1 else 0
  {
  }

  lemma {:induction false} CutsCount(j: Joint, moves: seq<Move>, t: TaskId)
    requires Inv(j) && Runs(j, moves)
    ensures CutsSoFar(Reach(j, moves).tasks, t) == CutsSoFar(j.tasks, t) + CutsOf(j, moves, t)
    decreases |moves|
  {
    if moves != [] {
      CutsStep(j, moves[0], t);
      StepInv(j, moves[0]);
      CutsCount(Next(j, moves[0]), moves[1..], t);
    }
  }

  /** Over every interleaving of submitting, resuming, stopping, pruning, crashing and recovering with the
      steps of all tasks: no step of a task succeeds more often than once plus once for every crash,
      cancellation or unexpected error that cut a life of that task. */
  lemma AtMostOncePlusCuts(maxParallel: int, moves: seq<Move>, j: Joint, t: TaskId, k: Key)
    requires Runs(Start(maxParallel), moves) && j == Reach(Start(maxParallel), moves) && t in j.tasks
    ensures CutsFitIn(j.tasks[t].past)
    ensures Successful(j.tasks[t], k) <= 1 + CutsOf(Start(maxParallel), moves, t)
  {
    StartInv(maxParallel);
    RunInv(Start(maxParallel), moves);
    SuccessesBounded(j.tasks[t], k);
    CutsCount(Start(maxParallel), moves, t);
  }

  // ------------------------------------------------------------------------------ done is done

  /** The step is done in what the lives of the task have journalled. */
  ghost predicate DoneIn(task: Task, k: Key) { k in DoneKeys(AllLives(task)) }

  /** The steps that are done once these lives are over. */
  ghost function DoneKeys(lives: seq<Life>): set<Key>
  {
    var table := TableAfter(map[], lives);
    set k | k in table && table[k].state.Done?
  }

  ghost predicate DoneAfter(task: Task, after: Task, k: Key)
    requires CutsFitIn(task.past)
  {
    CutsFitIn(after.past) && DoneIn(after, k) && Successful(after, k) == Successful(task, k)
  }

  lemma BegunKeepsDone(task: Task, k: Key)
    requires TaskOk(task) && DoneIn(task, k) && task.now.None?
    ensures DoneAfter(task, Begun(task), k)
  {
    NowJoins(task.past, Begun(task).now.value);
  }

  lemma OverKeepsDone(task: Task, cut: bool, k: Key)
    requires CutsFitIn(task.past) && DoneIn(task, k)
    ensures DoneAfter(task, Over(task, cut), k)
  {
    if task.now.Some? {
      OverCounts(task.past, task.now.value, k);
    }
    SameLives(task, Over(task, cut));
  }

  lemma SameLives(task: Task, after: Task)
    requires after == Over(task, true) || after == Over(task, false)
    ensures AllLives(after) == AllLives(task)
  {
  }

  lemma OverCounts(past: seq<Life>, c: Current, k: Key)
    requires CutsFitIn(past)
    ensures CutsFitIn(past + [LifeOf(c)])
    ensures TotalSuccesses(past + [LifeOf(c)], k) == TotalSuccesses(past, k) + Successes(c.events, k)
  {
    FitMore(past, LifeOf(c));
    WindowsMore(past, LifeOf(c), k);
  }

  lemma DoneNotTouched(past: seq<Life>, c: Current, e: Event, k: Key)
    requires History(map[], past) && NowOk(past, c) && MayEmit(c, e)
    requires IsDone(Replay(TableAfter(map[], past), c.events), k)
    ensures e.key != k
  {
    var all, n := c.events + [e], |c.events|;
    DoneWasFinished(TableAfter(map[], past), c.events, k);
    if IsDone(TableAfter(map[], past), k) {
      assert IsDone(c.rows, k);
      assert !IsDone(c.rows, all[n].key);
    } else {
      var i :| 0 <= i < n && c.events[i].Finished? && c.events[i].ok && c.events[i].key == k;
      assert all[i] == c.events[i] && all[n].key != all[i].key;
    }
  }

  lemma NotedKeepsDone(task: Task, e: Event, k: Key)
    requires TaskOk(task) && DoneIn(task, k) && task.now.Some? && MayEmit(task.now.value, e)
    ensures DoneAfter(task, Noted(task, e), k)
  {
    var c := task.now.value;
    NotedOk(task, e);
    NowJoins(task.past, c);
    NowJoins(task.past, Noted(task, e).now.value);
    DoneNotTouched(task.past, c, e, k);
    OtherEvent(TableAfter(map[], task.past), c.events, e, k);
  }

  lemma OtherEvent(rows: Rows, events: seq<Event>, e: Event, k: Key)
    requires e.key != k
    ensures IsDone(Replay(rows, events + [e]), k) <==> IsDone(Replay(rows, events), k)
    ensures Successes(events + [e], k) == Successes(events, k)
  {
    assert (events + [e])[..|events|] == events;
  }

  lemma ChangedKeepsDone(task: Task, change: Change, k: Key)
    requires TaskOk(task) && DoneIn(task, k) && (change.Begins? ==> task.now.None?)
    ensures DoneAfter(task, Changed(task, change), k)
  {
    match change
    case Begins => BegunKeepsDone(task, k);
    case Ends(cut) => OverKeepsDone(task, cut, k);
    case _ =>
  }

  lemma DoneSchedule(j: Joint, step: S.Step, order: seq<TaskId>, t: TaskId, k: Key, after: Task)
    requires Inv(j) && S.Enabled(j.sup, step) && t in j.tasks && DoneIn(j.tasks[t], k)
    requires t in Journalled(j, step, order) && after == Journalled(j, step, order)[t]
    ensures DoneAfter(j.tasks[t], after, k)
  {
    assert TaskOk(j.tasks[t]);
    if step.Begin? { MayBegin(j, step.co); }
    ChangedKeepsDone(j.tasks[t], ChangeOf(j.sup, step, order, t), k);
  }

  lemma DoneEmit(j: Joint, u: TaskId, e: Event, t: TaskId, k: Key, after: Task)
    requires TasksOk(j.tasks) && t in j.tasks && DoneIn(j.tasks[t], k)
    requires u in j.tasks && j.tasks[u].now.Some? && MayEmit(j.tasks[u].now.value, e)
    requires after == j.tasks[u := Noted(j.tasks[u], e)][t]
    ensures DoneAfter(j.tasks[t], after, k)
  {
    assert TaskOk(j.tasks[t]);
    if u == t { NotedKeepsDone(j.tasks[t], e, k); }
  }

  lemma DoneStep(j: Joint, m: Move, t: TaskId, k: Key, j': Joint)
    requires Inv(j) && Enabled(j, m) && t in j.tasks && DoneIn(j.tasks[t], k) && j' == Next(j, m)
    ensures t in j'.tasks && DoneAfter(j.tasks[t], j'.tasks[t], k)
  {
    match m
    case Schedule(step, order) => DoneSchedule(j, step, order, t, k, j'.tasks[t]);
    case Emit(u, e) => DoneEmit(j, u, e, t, k, j'.tasks[t]);
  }

  /** A step that is done never succeeds again, whatever is submitted, resumed, stopped, pruned, cut or
      recovered, and its row stays done. */
  lemma {:induction false} DoneForever(j: Joint, moves: seq<Move>, t: TaskId, k: Key)
    requires Inv(j) && Runs(j, moves) && t in j.tasks && DoneIn(j.tasks[t], k)
    ensures Inv(Reach(j, moves)) && t in Reach(j, moves).tasks
    ensures DoneAfter(j.tasks[t], Reach(j, moves).tasks[t], k)
    ensures IsDone(Reach(j, moves).tasks[t].table, k)
    decreases |moves|
  {
    assert TaskOk(j.tasks[t]);
    if moves != [] {
      StepInv(j, moves[0]);
      DoneStep(j, moves[0], t, k, Next(j, moves[0]));
      DoneForever(Next(j, moves[0]), moves[1..], t, k);
    }
  }

  // ---------------------------------------------------------------------------- the agent loop

  lemma OrderlyEmits(rows: Rows, events: seq<Event>, i: nat, before: seq<Event>, e: Event)
    requires Orderly(rows, events) && NoReuse(events) && i < |events| && before == events[..i] && e == events[i]
    ensures MayEmit(Current(rows, before), e)
  {
    CutIsOrderly(rows, events, i + 1);
    assert before + [e] == events[..i + 1];
  }

  /** What the loop of a task journals and performs, if its plans are well keyed, are steps of this protocol,
      one after the other, and a run that comes to its end may end here. */
  lemma LoopEmits(world: LoopSpec.World, rows: Rows, plans: seq<LoopSpec.Plan>, events: seq<Event>, used: int, i: nat)
    requires Kept(world, rows, plans, events, used) && AllWellKeyed(plans) && i < |events|
    ensures MayEmit(Current(rows, events[..i]), events[i])
    ensures MayEnd(Task([], 0, Some(Current(rows, events)), rows), S.EndsOk)
  {
    OrderlyEmits(rows, events, i, events[..i], events[i]);
  }

  // ---------------------------------------------------------- what a run of the loop comes to

  /** How the supervisor sees the end of a run: an outcome by its state, an abort that came through. */
  function EndingOf(ending: LoopSpec.Ending): S.Ending
  {
    match ending
    case Raised => S.Aborts
    case Ended(outcome) =>
      match outcome.state
      case DONE => S.EndsOk
      case FAILED => S.EndsBadly
      case BLOCKED => S.EndsBlocked
  }

  /** When a run of the loop ends, the row of its task says what the run came to: finished exactly when the outcome
      is done, failed when it failed, blocked when it waits for the user, stopped when an abort came through. */
  lemma RunBecomesRow(world: LoopSpec.World, rows: Rows, from: nat, run: LoopSpec.Run, s: S.State, co: nat,
                      after: S.State)
    requires run == LoopSpec.RunOf(world, rows, from) && S.Inv(s) && co in s.live && s.live[co].phase.Inside?
    requires after == S.Next(s, S.End(co, EndingOf(run.ending)), [])
    ensures KeptFrom(world, rows, run, from) && EndsHonestly(world, rows, run, from)
    ensures var t := s.live[co].task;
            && t in after.tasks && !S.Attached(after, t)
            && (after.tasks[t].Finished? <==> run.ending.Ended? && run.ending.outcome.state.DONE?)
            && (after.tasks[t].Failed? <==> run.ending.Ended? && run.ending.outcome.state.FAILED?)
            && (after.tasks[t].Blocked? <==> run.ending.Ended? && run.ending.outcome.state.BLOCKED?)
            && (after.tasks[t].Stopped? <==> run.ending.Raised?)
  {
    RunKeeps(world, rows, from, run);
  }
}
