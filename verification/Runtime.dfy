/** The controlled execution path (runtime/executor.py): every action passes the same gates in the same
    order. The protocol below puts the approval table and the lease table together, with any number of
    actions in flight at once, a configuration that can change at any time, and crashes. */
module Runtime {
  import opened Options
  import A = Approvals
  import L = LeaseTable
  import P = LeaseProofs
  import opened Policy

  const MUTATING: set<Effect> := {Write, DeletePermanent, Install, SystemConfig, Credentials, InputControl, Exec}

  /** One action, with the tool it resolved to, the fingerprint of the operation, the keys of the resources
      it touches and the name it holds them under. */
  datatype Request = Request(spec: Spec, action: Action, fingerprint: A.Fingerprint, keys: set<L.Key>, holder: L.Holder)

  predicate Mutates(r: Request) { r.spec.effects * MUTATING != {} }

  predicate NonNegotiable(r: Request) { r.spec.effects * NON_NEGOTIABLE != {} }

  function LeaseFor(r: Request): L.Lease
  {
    L.Lease(r.keys, if Mutates(r) then L.Exclusive else L.Shared, r.holder)
  }

  /** Where an action that passed the policy and approval gates stands. */
  datatype Phase = Waiting | Holding | Running

  datatype Job = Job(request: Request, ticket: Option<A.Ticket>, phase: Phase)

  /** A handler that was started, and the approval that was spent on it, if one was. */
  datatype Run = Run(request: Request, ticket: Option<A.Ticket>)

  datatype State = State(approvals: A.State, leases: L.State, autonomy: Autonomy, jobs: map<nat, Job>, ran: seq<Run>)

  function Start(autonomy: Autonomy): State { State(A.START, L.START, autonomy, map[], []) }

  datatype Step =
    | Enter(id: nat, request: Request, created: A.Id, now: real, gate: A.Gate, rows': A.Rows)  // policy and approval
    | Try(id: nat)                                   // one pass of the wait for the lease
    | Arm(id: nat)
    | GiveUp(id: nat)                                // the wait for the lease times out or is cancelled
    | Handle(id: nat)                                // secrets resolved, the handler starts
    | Leave(id: nat)                                 // any exit once the lease is held
    | Answer(approval: A.Id, approved: bool, now: real)
    | Expire(cutoff: real)
    | Configure(autonomy: Autonomy)
    | Crash

  ghost predicate Enabled(s: State, step: Step)
  {
    && L.AllOk(s.leases.slots)
    && match step
       case Enter(id, r, created, now, gate, rows') =>
         && id !in s.jobs && id !in s.approvals.tickets && id !in s.leases.live && id !in s.leases.waiting
         && (Evaluate(s.autonomy, r.spec, r.action).decision.Confirm? ==>
               A.Enabled(s.approvals, A.Attempting(id, r.fingerprint, created, now, gate, rows')))
       case Try(id) =>
         id in s.jobs && s.jobs[id].phase.Waiting? && L.Enabled(s.leases, L.Try(id, LeaseFor(s.jobs[id].request)))
       case Arm(id) => id in s.leases.waiting
       case GiveUp(id) => id in s.jobs && s.jobs[id].phase.Waiting?
       case Handle(id) => id in s.jobs && s.jobs[id].phase.Holding?
       case Leave(id) => id in s.jobs && !s.jobs[id].phase.Waiting?
       case Answer(id, _, _) => id in s.approvals.rows
       case Expire(_) => true
       case Configure(_) => true
       case Crash => true
  }

  /** The attempt ends without having run: an approval it spent stays spent. */
  function Abandon(approvals: A.State, id: nat): A.State
  {
    if id in approvals.tickets then A.Next(approvals, A.GivingUp(id)) else approvals
  }

  ghost function Next(s: State, step: Step): State
    requires Enabled(s, step)
  {
    match step
    case Enter(id, r, created, now, gate, rows') =>
      (match Evaluate(s.autonomy, r.spec, r.action).decision
       case Deny => s
       case Allow => s.(jobs := s.jobs[id := Job(r, None, Waiting)])
       case Confirm =>
         var approvals := A.Next(s.approvals, A.Attempting(id, r.fingerprint, created, now, gate, rows'));
         s.(approvals := approvals,
            jobs := if gate.Passed? then s.jobs[id := Job(r, Some(A.Ticket(r.fingerprint, gate.approval)), Waiting)]
                      else s.jobs))
    case Try(id) =>
      var leases := L.Next(s.leases, L.Try(id, LeaseFor(s.jobs[id].request)));
      s.(leases := leases, jobs := s.jobs[id := s.jobs[id].(phase := if id in leases.live then Holding else Waiting)])
    case Arm(id) => s.(leases := L.Next(s.leases, L.Arm(id)))
    case GiveUp(id) =>
      s.(approvals := Abandon(s.approvals, id), jobs := s.jobs - {id},
         leases := if id in s.leases.waiting then L.Next(s.leases, L.Timeout(id)) else s.leases)
    case Handle(id) =>
      s.(approvals := if id in s.approvals.tickets then A.Next(s.approvals, A.Running(id)) else s.approvals,
         jobs := s.jobs[id := s.jobs[id].(phase := Running)],
         ran := s.ran + [Run(s.jobs[id].request, s.jobs[id].ticket)])
    case Leave(id) =>
      s.(approvals := Abandon(s.approvals, id), jobs := s.jobs - {id}, leases := L.Next(s.leases, L.Release(id)))
    case Answer(id, approved, now) => s.(approvals := A.Next(s.approvals, A.Answering(id, approved, now)))
    case Expire(cutoff) => s.(approvals := A.Next(s.approvals, A.Expiring(cutoff)))
    case Configure(autonomy) => s.(autonomy := autonomy)
    case Crash => s.(approvals := A.Next(s.approvals, A.Crash), leases := L.START, jobs := map[])
  }

  // ------------------------------------------------------- policy and approval, over every run

  /** The approvals spent on the handlers that ran, in the order they ran. */
  function Spent(ran: seq<Run>): (tickets: seq<A.Ticket>)
  {
    if ran == [] then []
    else
      var last := ran[|ran| - 1];
      Spent(ran[..|ran| - 1]) + if last.ticket.Some? then [last.ticket.value] else []
  }

  predicate Earned(request: Request, ticket: Option<A.Ticket>)
  {
    && (ticket.Some? ==> ticket.value.fingerprint == request.fingerprint)
    && (NonNegotiable(request) ==> ticket.Some?)
  }

  /** The tickets are those of the jobs that have not run yet. */
  ghost predicate TicketsAreJobs(s: State)
  {
    && (forall id ::
          id in s.approvals.tickets <==> id in s.jobs && s.jobs[id].ticket.Some? && !s.jobs[id].phase.Running?)
    && (forall id | id in s.approvals.tickets :: s.jobs[id].ticket == Some(s.approvals.tickets[id]))
  }

  ghost predicate JobsEarned(s: State) { forall id | id in s.jobs :: Earned(s.jobs[id].request, s.jobs[id].ticket) }

  ghost predicate TraceEarned(s: State)
  {
    && (forall i | 0 <= i < |s.ran| :: Earned(s.ran[i].request, s.ran[i].ticket))
    && Spent(s.ran) == s.approvals.runs
  }

  ghost predicate Gated(s: State) { A.Inv(s.approvals) && TicketsAreJobs(s) && JobsEarned(s) && TraceEarned(s) }

  lemma AbandonKeeps(approvals: A.State, id: nat)
    requires A.Inv(approvals)
    ensures A.Inv(Abandon(approvals, id))
  {
    if id in approvals.tickets { A.StepInv(approvals, A.GivingUp(id)); }
  }

  lemma StepApprovals(s: State, step: Step)
    requires A.Inv(s.approvals) && Enabled(s, step)
    ensures A.Inv(Next(s, step).approvals)
  {
    match step
    case Enter(id, r, created, now, gate, rows') =>
      if Evaluate(s.autonomy, r.spec, r.action).decision.Confirm? {
        A.StepInv(s.approvals, A.Attempting(id, r.fingerprint, created, now, gate, rows'));
      }
    case Handle(id) => if id in s.approvals.tickets { A.StepInv(s.approvals, A.Running(id)); }
    case GiveUp(id) => AbandonKeeps(s.approvals, id);
    case Leave(id) => AbandonKeeps(s.approvals, id);
    case Answer(id, approved, now) => A.StepInv(s.approvals, A.Answering(id, approved, now));
    case Expire(cutoff) => A.StepInv(s.approvals, A.Expiring(cutoff));
    case Crash => A.StepInv(s.approvals, A.Crash);
    case _ =>
  }

  lemma StepTickets(s: State, step: Step)
    requires TicketsAreJobs(s) && Enabled(s, step)
    ensures TicketsAreJobs(Next(s, step))
  {
  }

  lemma StepJobs(s: State, step: Step)
    requires JobsEarned(s) && Enabled(s, step)
    ensures JobsEarned(Next(s, step))
  {
    if step.Enter? {
      ConfigurationCannotLoosen(s.autonomy, s.autonomy, step.request.spec, step.request.action);
    }
  }

  lemma StepTrace(s: State, step: Step)
    requires TicketsAreJobs(s) && JobsEarned(s) && TraceEarned(s) && Enabled(s, step)
    ensures TraceEarned(Next(s, step))
  {
    if step.Handle? {
      assert Next(s, step).ran[..|s.ran|] == s.ran;
    }
  }

  lemma StepGated(s: State, step: Step)
    requires Gated(s) && Enabled(s, step)
    ensures Gated(Next(s, step))
  {
    StepApprovals(s, step);
    StepTickets(s, step);
    StepJobs(s, step);
    StepTrace(s, step);
  }

  ghost predicate Runs(s: State, steps: seq<Step>)
    decreases |steps|
  {
    steps == [] || (Enabled(s, steps[0]) && Runs(Next(s, steps[0]), steps[1..]))
  }

  ghost function After(s: State, steps: seq<Step>): State
    requires Runs(s, steps)
    decreases |steps|
  {
    if steps == [] then s else After(Next(s, steps[0]), steps[1..])
  }

  lemma {:induction false} RunGated(s: State, steps: seq<Step>)
    requires Gated(s) && Runs(s, steps)
    ensures Gated(After(s, steps))
    decreases |steps|
  {
    if steps != [] {
      StepGated(s, steps[0]);
      RunGated(Next(s, steps[0]), steps[1..]);
    }
  }

  /** The place of a run's approval among all that were spent. */
  lemma {:induction false} SpentAt(ran: seq<Run>, i: nat)
    requires i < |ran| && ran[i].ticket.Some?
    ensures |Spent(ran[..i])| < |Spent(ran)| && Spent(ran)[|Spent(ran[..i])|] == ran[i].ticket.value
  {
    var rest := ran[..|ran| - 1];
    if i < |ran| - 1 {
      SpentAt(rest, i);
      assert rest[..i] == ran[..i];
    }
  }

  /** However actions interleave, whatever is answered, answered again, expired or reconfigured, and
      wherever the process dies: a handler whose tool pays, publishes, sends, touches credentials or
      deletes for good ran only on an approval for that very operation, which a person gave and which is
      now spent; and no two handlers ran on the same approval. */
  lemma EveryRunHasItsYes(autonomy: Autonomy, steps: seq<Step>)
    requires Runs(Start(autonomy), steps)
    ensures var s := After(Start(autonomy), steps);
            && (forall i | 0 <= i < |s.ran| && NonNegotiable(s.ran[i].request) :: s.ran[i].ticket.Some?)
            && (forall i | 0 <= i < |s.ran| && s.ran[i].ticket.Some? ::
                  && s.ran[i].ticket.value.fingerprint == s.ran[i].request.fingerprint
                  && A.Backed(s.approvals, s.ran[i].ticket.value))
            && (forall i, j | 0 <= i < j < |s.ran| && s.ran[i].ticket.Some? && s.ran[j].ticket.Some? ::
                  s.ran[i].ticket.value.approval != s.ran[j].ticket.value.approval)
  {
    RunGated(Start(autonomy), steps);
    var s := After(Start(autonomy), steps);
    forall i | 0 <= i < |s.ran| && s.ran[i].ticket.Some?
      ensures A.Backed(s.approvals, s.ran[i].ticket.value)
    {
      SpentAt(s.ran, i);
    }
    forall i, j | 0 <= i < j < |s.ran| && s.ran[i].ticket.Some? && s.ran[j].ticket.Some?
      ensures s.ran[i].ticket.value.approval != s.ran[j].ticket.value.approval
    {
      SpentAt(s.ran, i);
      SpentAt(s.ran, j);
      SpentAt(s.ran[..j], i);
      assert s.ran[..j][..i] == s.ran[..i];
    }
  }

  // ------------------------------------------------------------------- leases, over every run

  /** A lease is live for exactly the jobs that hold or run. */
  ghost predicate LeasesAreJobs(s: State)
  {
    && (forall id :: id in s.leases.live <==> id in s.jobs && !s.jobs[id].phase.Waiting?)
    && (forall id | id in s.leases.live :: s.leases.live[id] == LeaseFor(s.jobs[id].request))
    && (forall id | id in s.leases.waiting :: id in s.jobs && s.jobs[id].phase.Waiting?)
  }

  ghost predicate Leased(s: State) { P.Refines(s.leases) && LeasesAreJobs(s) }

  /** The step asks exclusively for no key that its own holder already holds exclusively. */
  ghost predicate NoNesting(s: State, step: Step)
    requires Enabled(s, step)
  {
    step.Try? ==> P.NoNestedExclusive(s.leases, L.Try(step.id, LeaseFor(s.jobs[step.id].request)))
  }

  lemma StepRefines(s: State, step: Step)
    requires P.Refines(s.leases) && Enabled(s, step) && NoNesting(s, step)
    ensures P.Refines(Next(s, step).leases)
  {
    match step
    case Try(id) => P.StepRefines(s.leases, L.Try(id, LeaseFor(s.jobs[id].request)));
    case Arm(id) => P.StepRefines(s.leases, L.Arm(id));
    case GiveUp(id) => if id in s.leases.waiting { P.StepRefines(s.leases, L.Timeout(id)); }
    case Leave(id) => P.StepRefines(s.leases, L.Release(id));
    case Crash => P.StartRefines();
    case _ =>
  }

  lemma EnterJobs(s: State, step: Step)
    requires step.Enter? && LeasesAreJobs(s) && Enabled(s, step)
    ensures LeasesAreJobs(Next(s, step))
  {
  }

  lemma TryJobs(s: State, step: Step)
    requires step.Try? && LeasesAreJobs(s) && Enabled(s, step)
    ensures LeasesAreJobs(Next(s, step))
  {
  }

  lemma EndJobs(s: State, step: Step)
    requires (step.GiveUp? || step.Leave?) && LeasesAreJobs(s) && Enabled(s, step)
    ensures LeasesAreJobs(Next(s, step))
  {
  }

  lemma StepLeaseJobs(s: State, step: Step)
    requires LeasesAreJobs(s) && Enabled(s, step)
    ensures LeasesAreJobs(Next(s, step))
  {
    match step
    case Enter(_, _, _, _, _, _) => EnterJobs(s, step);
    case Try(_) => TryJobs(s, step);
    case GiveUp(_) => EndJobs(s, step);
    case Leave(_) => EndJobs(s, step);
    case _ =>
  }

  lemma StepLeased(s: State, step: Step)
    requires Leased(s) && Enabled(s, step) && NoNesting(s, step)
    ensures Leased(Next(s, step))
  {
    StepRefines(s, step);
    StepLeaseJobs(s, step);
  }

  ghost predicate NeverNested(s: State, steps: seq<Step>)
    requires Runs(s, steps)
    decreases |steps|
  {
    steps == [] || (NoNesting(s, steps[0]) && NeverNested(Next(s, steps[0]), steps[1..]))
  }

  lemma {:induction false} RunLeased(s: State, steps: seq<Step>)
    requires Leased(s) && Runs(s, steps) && NeverNested(s, steps)
    ensures Leased(After(s, steps))
    decreases |steps|
  {
    if steps != [] {
      StepLeased(s, steps[0]);
      RunLeased(Next(s, steps[0]), steps[1..]);
    }
  }

  /** The configuration that was set last decides about every action that comes next. */
  lemma LastConfigurationDecides(s: State, autonomy: Autonomy, enter: Step)
    requires Enabled(s, Configure(autonomy)) && Enabled(Next(s, Configure(autonomy)), enter) && enter.Enter?
    ensures var configured, decision := Next(s, Configure(autonomy)),
              Evaluate(autonomy, enter.request.spec, enter.request.action).decision;
            && configured.jobs == s.jobs && configured.approvals == s.approvals && configured.leases == s.leases
            && (enter.id in Next(configured, enter).jobs
                <==> decision.Allow? || (decision.Confirm? && enter.gate.Passed?))
  {
  }

  /** The other action does not stand in the way of this one on a resource they share. */
  predicate Together(other: Request, r: Request)
  {
    if Mutates(other) then other.holder == r.holder else !Mutates(r)
  }

  /** A pass of the wait succeeds exactly if no action that holds or runs on one of the resources stands in the way:
      actions that only read run side by side. */
  lemma TryIff(s: State, id: nat)
    requires Leased(s) && Enabled(s, Try(id))
    ensures Next(s, Try(id)).jobs[id].phase.Holding?
       <==> forall j, k | j in s.jobs && !s.jobs[j].phase.Waiting? && k in s.jobs[j].request.keys
                          && k in s.jobs[id].request.keys ::
              Together(s.jobs[j].request, s.jobs[id].request)
  {
    var r := s.jobs[id].request;
    P.GrantableIff(s.leases, LeaseFor(r));
    forall l | l in s.leases.live
      ensures l in s.jobs && !s.jobs[l].phase.Waiting? && s.leases.live[l] == LeaseFor(s.jobs[l].request)
      ensures P.Agrees(s.leases.live[l], LeaseFor(r).mode, r.holder) <==> Together(s.jobs[l].request, r)
    {
    }
  }

  /** While a handler that changes things runs on a resource, no handler of another holder runs on it; and
      every exit gives the lease back: when no job holds or runs, no key is taken. */
  lemma HandlersDoNotCollide(autonomy: Autonomy, steps: seq<Step>)
    requires Runs(Start(autonomy), steps) && NeverNested(Start(autonomy), steps)
    ensures var s := After(Start(autonomy), steps);
            && (forall i, j, k | i in s.jobs && j in s.jobs && s.jobs[i].phase.Running? && s.jobs[j].phase.Running?
                                 && k in s.jobs[i].request.keys && k in s.jobs[j].request.keys
                                 && Mutates(s.jobs[i].request) ::
                  s.jobs[i].request.holder == s.jobs[j].request.holder)
            && ((forall i | i in s.jobs :: s.jobs[i].phase.Waiting?) ==> P.TableEmpty(s.leases))
  {
    P.StartRefines();
    RunLeased(Start(autonomy), steps);
    var s := After(Start(autonomy), steps);
    var live := s.leases.live;
    forall i, j, k | i in s.jobs && j in s.jobs && s.jobs[i].phase.Running? && s.jobs[j].phase.Running?
                     && k in s.jobs[i].request.keys && k in s.jobs[j].request.keys && Mutates(s.jobs[i].request)
      ensures s.jobs[i].request.holder == s.jobs[j].request.holder
    {
      assert P.SlotRefines(L.Get(s.leases.slots, k), live, k);
      assert i in P.Owners(live, k) && (j in P.Owners(live, k) || j in P.Sharers(live, k));
    }
    if forall i | i in s.jobs :: s.jobs[i].phase.Waiting? {
      forall k
        ensures L.Get(s.leases.slots, k).cur.None?
      {
        assert P.SlotRefines(L.Get(s.leases.slots, k), live, k);
        assert P.Sharers(live, k) == {} && P.Owners(live, k) == {};
      }
    }
  }
}
