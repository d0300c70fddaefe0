/** The agent loop as the program runs it (agent/loop.py): every method is proved against the functions of
    `LoopSpec`. */
module AgentLoop {
  import opened Options
  import opened Journals
  import opened Lives
  import opened LoopProofs
  import opened LoopSpec

  class Loop {
    const world: World
    const journal: Journal
    /** How often the runtime was asked to perform an action. */
    var performs: nat

    constructor (world: World, journal: Journal)
      ensures this.world == world && this.journal == journal && performs == 0
    {
      this.world, this.journal, performs := world, journal, 0;
    }

    /** Tries an action until it succeeds, fails for good, runs out of attempts or is interrupted. */
    method Try(k: Key) returns (reply: Reply, tried: seq<Event>)
      modifies `performs, journal`events
      ensures journal.events == old(journal.events) + tried
      ensures Tried(reply, tried, performs) == TryFrom(world, k, old(performs), Attempts(world), [])
    {
      tried := [];
      reply := ApprovalRequired;
      ghost var all := TryFrom(world, k, performs, Attempts(world), []);
      for attempt := 0 to Attempts(world)
        invariant journal.events == old(journal.events) + tried
        invariant attempt < Attempts(world) ==> all == TryFrom(world, k, performs, Attempts(world) - attempt, tried)
        invariant attempt == Attempts(world) ==> all == Tried(reply, tried, performs)
      {
        reply := world.perform(performs);
        performs := performs + 1;
        if !reply.Returned? {
          return;
        }
        journal.Note(k, reply.result.ok);
        tried := tried + [Performed(k, reply.result.ok)];
        if reply.result.ok || !reply.result.retryable {
          return;
        }
      }
    }

    /** One step: journalled as running, tried, then journalled with its outcome; an interruption leaves it
        running. */
    method RunStep(step: Step) returns (done: Tried)
      modifies this, journal
      ensures done == StepOf(world, step, old(performs)) && performs == done.performs
      ensures journal.events == old(journal.events) + done.events
      ensures journal.rows == Replay(old(journal.rows), done.events)
    {
      var key := step.key;
      journal.StepStarted(key, step.Does());
      var reply, tried := Try(key);
      if reply.Returned? {
        journal.StepFinished(key, reply.result.ok, reply.result.value);
      }
      done := Tried(reply, [Started(key, step.Does())] + tried + Closing(key, reply), performs);
      StepShown(old(journal.events), [Started(key, step.Does())], tried, Closing(key, reply));
      StepReplayed(old(journal.rows), step, old(performs), Tried(reply, tried, performs), done.events);
    }

    lemma StepShown(events: seq<Event>, a: seq<Event>, b: seq<Event>, c: seq<Event>)
      ensures events + (a + b + c) == events + a + b + c
      ensures c == [] ==> events + (a + b + c) == events + a + b
    {
    }

    /** Only the first and the last event of a step touch the table. */
    lemma StepReplayed(rows: Rows, step: Step, from: nat, tried: Tried, events: seq<Event>)
      requires tried == TryFrom(world, step.key, from, Attempts(world), [])
      requires events == [Started(step.key, step.Does())] + tried.events + Closing(step.key, tried.reply)
      ensures var started := Apply(rows, Started(step.key, step.Does()));
              Replay(rows, events)
              == if tried.reply.Returned? then Apply(started, Closing(step.key, tried.reply)[0]) else started
    {
      var open := [Started(step.key, step.Does())] + tried.events;
      TryMeans(world, step.key, from, Attempts(world), []);
      TryAreActions(step.key, tried);
      ReplayPerforms(rows, open);
      if tried.reply.Returned? {
        assert events[..|open|] == open;
      } else {
        assert events == open;
      }
    }

    lemma TryAreActions(k: Key, tried: Tried)
      requires TryEvents(k, tried.events, tried.reply)
      ensures forall i | 0 <= i < |tried.events| :: tried.events[i].Performed?
    {
    }

    /** What the journal has to show for the events of a run that began with `rows` and `events`. */
    ghost predicate Shown(rows: Rows, events: seq<Event>, sofar: seq<Event>)
      reads journal
    {
      journal.events == events + sofar && journal.rows == Replay(rows, sofar)
    }

    lemma ShownMore(rows: Rows, events: seq<Event>, sofar: seq<Event>, more: seq<Event>)
      ensures events + (sofar + more) == (events + sofar) + more
      ensures Replay(rows, sofar + more) == Replay(Replay(rows, sofar), more)
    {
      ReplayAppend(rows, sofar, more);
    }

    /** One pass of the loop: a step that is done is skipped, any other is executed and reacted to. */
    method Pass(now: Progress, completed: map<Key, Option<Journals.Value>>, ghost rows: Rows, ghost events: seq<Event>)
      returns (next: Progress, exit: Exit)
      requires now.index < |now.plan.steps| && completed == Completed(rows) && Shown(rows, events, now.events)
      modifies this, journal
      ensures Turned(next, exit, performs) == Turn(world, rows, now, old(performs))
      ensures Shown(rows, events, next.events)
    {
      var key := now.plan.steps[now.index].key;
      if key in completed {
        next, exit := Skip(now, completed[key]), Continue;
      } else {
        var done := RunStep(now.plan.steps[now.index]);
        ShownMore(rows, events, now.events, done.events);
        var turned := React(world, now, done);
        next, exit := turned.next, turned.exit;
      }
    }

    /** The working part of a run. */
    method Work(first: Plan) returns (last: Progress, exit: Exit)
      modifies this, journal
      ensures Turned(last, exit, performs) == WorkOf(world, old(journal.rows), Begun(first), old(performs))
      ensures Shown(old(journal.rows), old(journal.events), last.events)
    {
      var completed := Completed(journal.rows);
      last, exit := Begun(first), Continue;
      assert journal.events + [] == journal.events;
      ghost var all := WorkOf(world, journal.rows, last, performs);
      while exit.Continue? && last.index < |last.plan.steps|
        invariant Shown(old(journal.rows), old(journal.events), last.events)
        invariant exit.Continue? ==> last.replans <= MAX_REPLANS
        invariant if exit.Continue? then all == WorkOf(world, old(journal.rows), last, performs)
                  else all == Turned(last, exit, performs)
        decreases exit.Continue?, MAX_REPLANS - last.replans, |last.plan.steps| - last.index
      {
        last, exit := Pass(last, completed, old(journal.rows), old(journal.events));
      }
    }

    /** One life of a task. */
    method Run() returns (run: Run)
      modifies this, journal
      ensures run == RunOf(world, old(journal.rows), old(performs)) && performs == run.performs
      ensures Shown(old(journal.rows), old(journal.events), run.events)
      ensures KeptFrom(world, old(journal.rows), run, old(performs))
      ensures EndsHonestly(world, old(journal.rows), run, old(performs))
    {
      match Open(world.plan) {
        case Early(outcome) =>
          run := LoopSpec.Run(Ended(outcome), [], [], [], performs);
          assert journal.events + [] == journal.events;
        case Planned(plan) =>
          var last, exit := Work(plan);
          var ending := if exit.Stop? then exit.ending else Ended(Conclude(world, last));
          run := LoopSpec.Run(ending, last.events, last.plans, last.taken, performs);
      }
      RunKeeps(world, old(journal.rows), old(performs), run);
    }
  }
}
