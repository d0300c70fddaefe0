/** `Runtime.perform` (runtime/executor.py) over the real tables, one action at a time: what each outcome
    leaves behind, and that it is a run of the protocol in `Runtime`. What the outside world decides, the
    registry, the validation, the vault, the handler and what ends a wait, comes in as a `World`. */
module Executor {
  import opened Options
  import A = Approvals
  import L = LeaseTable
  import R = Runtime
  import opened Policy
  import opened LeaseManagers

  datatype Call = Call(spec: Spec, action: Action, fingerprint: A.Fingerprint, names: seq<L.Key>, holder: L.Holder)

  function RequestOf(call: Call): R.Request
  {
    R.Request(call.spec, call.action, call.fingerprint, (set k | k in call.names && k != ""), call.holder)
  }

  datatype Handled = Returned | TimedOut | Cancelled | NeedsUser | Failed | Crashed

  datatype World = World(registered: bool, supported: bool, valid: bool, cancelledWaiting: bool, secretsFound: bool,
                         handled: Handled)

  datatype Outcome =
    | UnknownTool | Unsupported | InvalidParams
    | PolicyDenied(rule: string) | ApprovalDenied | ApprovalRequired(request: A.Id)
    | LeaseTimeout | CancelledWaiting | MissingSecret
    | Finished(handled: Handled)

  /** Gates 1 to 3: what ends an action before any table is touched. */
  function Turned(autonomy: Autonomy, call: Call, world: World): Option<Outcome>
  {
    var verdict := Evaluate(autonomy, call.spec, call.action);
    if !world.registered then Some(UnknownTool)
    else if !world.supported then Some(Unsupported)
    else if !world.valid then Some(InvalidParams)
    else if verdict.decision.Deny? then Some(PolicyDenied(verdict.rule))
    else None
  }

  /** Gate 4: what the approval gate leaves in the table, and the approval it spends. */
  ghost predicate Approved(autonomy: Autonomy, call: Call, created: A.Id, now: real, rows: A.Rows, rows': A.Rows,
                           stopped: Option<Outcome>, ticket: Option<A.Ticket>)
  {
    if Evaluate(autonomy, call.spec, call.action).decision.Confirm? then
      match stopped
      case Some(ApprovalDenied) =>
        ticket.None? && exists d :: A.Admits(rows, call.fingerprint, created, now, A.Refused(d), rows')
      case Some(ApprovalRequired(id)) =>
        ticket.None? && A.Admits(rows, call.fingerprint, created, now, A.Asked(id), rows')
      case Some(_) => false
      case None =>
        && ticket.Some? && ticket.value.fingerprint == call.fingerprint
        && A.Admits(rows, call.fingerprint, created, now, A.Passed(ticket.value.approval), rows')
    else
      stopped.None? && ticket.None? && rows' == rows
  }

  /** Gates 5 and 6: how an approved action ends, and what it leaves in the lease table. */
  ghost predicate Carried(call: Call, world: World, slots: L.Slots, slots': L.Slots, outcome: Outcome)
    requires L.AllOk(slots)
  {
    var lease := R.LeaseFor(RequestOf(call));
    if L.Grantable(slots, lease) then
      && outcome == (if world.secretsFound then Finished(world.handled) else MissingSecret)
      && var taken := L.TakeAll(slots, lease.keys, lease.mode, lease.holder);
         L.AllOk(taken) && slots' == L.GiveBackAll(taken, lease.keys, lease.mode, lease.holder)
    else
      && outcome == (if world.cancelledWaiting then CancelledWaiting else LeaseTimeout)
      && slots' == L.ClearAll(slots, L.Blockers(slots, lease))
  }

  datatype Tables = Tables(rows: A.Rows, slots: L.Slots, ran: seq<R.Run>)

  ghost predicate PerformedWith(autonomy: Autonomy, call: Call, world: World, created: A.Id, now: real,
                                before: Tables, after: Tables, outcome: Outcome,
                                stopped: Option<Outcome>, ticket: Option<A.Ticket>)
    requires L.AllOk(before.slots)
  {
    && Approved(autonomy, call, created, now, before.rows, after.rows, stopped, ticket)
    && if stopped.Some? then outcome == stopped.value && after.slots == before.slots && after.ran == before.ran
       else
         && Carried(call, world, before.slots, after.slots, outcome)
         && after.ran == before.ran + if outcome.Finished? then [R.Run(RequestOf(call), ticket)] else []
  }

  ghost predicate Performed(autonomy: Autonomy, call: Call, world: World, created: A.Id, now: real,
                            before: Tables, after: Tables, outcome: Outcome)
    requires L.AllOk(before.slots)
  {
    var turned := Turned(autonomy, call, world);
    if turned.Some? then outcome == turned.value && after == before
    else exists stopped, ticket ::
           PerformedWith(autonomy, call, world, created, now, before, after, outcome, stopped, ticket)
  }

  lemma TurnedAway(autonomy: Autonomy, call: Call, world: World, created: A.Id, now: real, tables: Tables,
                   outcome: Outcome)
    requires L.AllOk(tables.slots) && Turned(autonomy, call, world) == Some(outcome)
    ensures Performed(autonomy, call, world, created, now, tables, tables, outcome)
  {
  }

  lemma StoppedAtTheGate(autonomy: Autonomy, call: Call, world: World, created: A.Id, now: real,
                         before: Tables, after: Tables, stopped: Option<Outcome>, ticket: Option<A.Ticket>)
    requires L.AllOk(before.slots) && Turned(autonomy, call, world).None?
    requires Approved(autonomy, call, created, now, before.rows, after.rows, stopped, ticket) && stopped.Some?
    requires after.slots == before.slots && after.ran == before.ran
    ensures Performed(autonomy, call, world, created, now, before, after, stopped.value)
  {
    assert PerformedWith(autonomy, call, world, created, now, before, after, stopped.value, stopped, ticket);
  }

  lemma CarriedOn(autonomy: Autonomy, call: Call, world: World, created: A.Id, now: real,
                  before: Tables, after: Tables, outcome: Outcome, ticket: Option<A.Ticket>)
    requires L.AllOk(before.slots) && Turned(autonomy, call, world).None?
    requires Approved(autonomy, call, created, now, before.rows, after.rows, None, ticket)
    requires Carried(call, world, before.slots, after.slots, outcome)
    requires after.ran == before.ran + if outcome.Finished? then [R.Run(RequestOf(call), ticket)] else []
    ensures Performed(autonomy, call, world, created, now, before, after, outcome)
  {
    assert PerformedWith(autonomy, call, world, created, now, before, after, outcome, None, ticket);
  }

  /** All gates at once: a handler runs exactly when the tool exists here, its parameters are good, no
      guardrail refuses, a needed approval is there and no denial, the lease is free and the secrets are
      found; and when it runs on an approval, it is the one that was spent. */
  lemma HandlerRunsIff(autonomy: Autonomy, call: Call, world: World, created: A.Id, now: real,
                       before: Tables, after: Tables, outcome: Outcome)
    requires L.AllOk(before.slots) && Performed(autonomy, call, world, created, now, before, after, outcome)
    ensures var decision := Evaluate(autonomy, call.spec, call.action).decision;
            var unspent := (state: A.ApprovalState) => exists id :: A.Unspent(before.rows, id, call.fingerprint, state);
            after.ran != before.ran <==>
              && world.registered && world.supported && world.valid && !decision.Deny?
              && (decision.Confirm? ==> !unspent(A.Denied) && unspent(A.Approved))
              && L.Grantable(before.slots, R.LeaseFor(RequestOf(call))) && world.secretsFound
    ensures after.ran != before.ran ==>
              && |after.ran| == |before.ran| + 1 && after.ran[..|before.ran|] == before.ran
              && var run := after.ran[|before.ran|];
                 && run.request == RequestOf(call)
                 && (run.ticket.Some? <==> Evaluate(autonomy, call.spec, call.action).decision.Confirm?)
                 && (run.ticket.Some? ==>
                       var spent := run.ticket.value.approval;
                       && A.Unspent(before.rows, spent, call.fingerprint, A.Approved)
                       && spent in after.rows && after.rows[spent].consumed)
  {
    if Turned(autonomy, call, world).None? {
      var stopped, ticket :|
        PerformedWith(autonomy, call, world, created, now, before, after, outcome, stopped, ticket);
    }
  }

  /** The operation has an unspent answer of this kind. */
  ghost predicate HasUnspent(rows: A.Rows, call: Call, state: A.ApprovalState)
  {
    exists id :: A.Unspent(rows, id, call.fingerprint, state)
  }

  /** The tool is there, its parameters are good, no guardrail refuses and a needed approval is there and no denial. */
  ghost predicate Cleared(autonomy: Autonomy, call: Call, world: World, rows: A.Rows)
  {
    && world.registered && world.supported && world.valid
    && match Evaluate(autonomy, call.spec, call.action).decision
       case Deny => false
       case Confirm => !HasUnspent(rows, call, A.Denied) && HasUnspent(rows, call, A.Approved)
       case Allow => true
  }

  /** Every resource with a name can be taken, to write if the tool changes things and to read otherwise. */
  predicate Free(call: Call, slots: L.Slots)
  {
    var mode := if call.spec.effects * R.MUTATING != {} then L.Exclusive else L.Shared;
    forall k | k in call.names && k != "" :: L.CanTake(L.Get(slots, k), mode, call.holder)
  }

  lemma FreeIff(call: Call, slots: L.Slots)
    ensures Free(call, slots) <==> L.Grantable(slots, R.LeaseFor(RequestOf(call)))
  {
  }

  /** Which outcome it is, whatever the order of the gates: each one exactly under its own condition. */
  lemma OutcomeIff(autonomy: Autonomy, call: Call, world: World, created: A.Id, now: real,
                   before: Tables, after: Tables, outcome: Outcome)
    requires L.AllOk(before.slots) && Performed(autonomy, call, world, created, now, before, after, outcome)
    ensures var verdict, known := Evaluate(autonomy, call.spec, call.action), world.registered && world.supported;
            var asks := known && world.valid && verdict.decision.Confirm?;
            var cleared, free := Cleared(autonomy, call, world, before.rows), Free(call, before.slots);
            var denied := HasUnspent(before.rows, call, A.Denied);
            && (outcome.UnknownTool? <==> !world.registered)
            && (outcome.Unsupported? <==> world.registered && !world.supported)
            && (outcome.InvalidParams? <==> known && !world.valid)
            && (outcome.PolicyDenied? <==> known && world.valid && verdict.decision.Deny?)
            && (outcome.PolicyDenied? ==> outcome.rule == verdict.rule)
            && (outcome.ApprovalDenied? <==> asks && denied)
            && (outcome.ApprovalRequired? <==> asks && !denied && !HasUnspent(before.rows, call, A.Approved))
            && (outcome.CancelledWaiting? <==> cleared && !free && world.cancelledWaiting)
            && (outcome.LeaseTimeout? <==> cleared && !free && !world.cancelledWaiting)
            && (outcome.MissingSecret? <==> cleared && free && !world.secretsFound)
            && (outcome.Finished? <==> cleared && free && world.secretsFound)
            && (outcome.Finished? ==> outcome.handled == world.handled)
  {
    FreeIff(call, before.slots);
    if Turned(autonomy, call, world).None? {
      var stopped, ticket :|
        PerformedWith(autonomy, call, world, created, now, before, after, outcome, stopped, ticket);
      ApprovedMeans(autonomy, call, created, now, before.rows, after.rows, stopped, ticket);
    }
  }

  lemma ApprovedMeans(autonomy: Autonomy, call: Call, created: A.Id, now: real, rows: A.Rows, rows': A.Rows,
                      stopped: Option<Outcome>, ticket: Option<A.Ticket>)
    requires Approved(autonomy, call, created, now, rows, rows', stopped, ticket)
    ensures var asks := Evaluate(autonomy, call.spec, call.action).decision.Confirm?;
            var denied, approved := HasUnspent(rows, call, A.Denied), HasUnspent(rows, call, A.Approved);
            && (stopped == Some(ApprovalDenied) <==> asks && denied)
            && ((stopped.Some? && stopped.value.ApprovalRequired?) <==> asks && !denied && !approved)
            && (stopped.None? <==> (asks ==> !denied && approved))
  {
  }

  // --------------------------------------------------- one action alone is a run of the protocol

  lemma Then(s: R.State, step: R.Step, rest: seq<R.Step>)
    requires R.Enabled(s, step) && R.Runs(R.Next(s, step), rest)
    ensures R.Runs(s, [step] + rest) && R.After(s, [step] + rest) == R.After(R.Next(s, step), rest)
  {
    assert ([step] + rest)[1..] == rest;
  }

  lemma Done(s: R.State)
    ensures R.Runs(s, []) && R.After(s, []) == s
  {
  }

  ghost predicate Idle(s: R.State, id: nat)
  {
    id !in s.jobs && id !in s.approvals.tickets && id !in s.leases.live && id !in s.leases.waiting
  }

  function TablesOf(s: R.State): Tables { Tables(s.approvals.rows, s.leases.slots, s.ran) }

  /** The job of an admitted action, before its lease. */
  ghost predicate Admitted(s: R.State, id: nat, call: Call, ticket: Option<A.Ticket>)
  {
    && id in s.jobs && s.jobs[id] == R.Job(RequestOf(call), ticket, R.Waiting)
    && (ticket.Some? <==> id in s.approvals.tickets) && (ticket.Some? ==> s.approvals.tickets[id] == ticket.value)
    && id !in s.leases.live && id !in s.leases.waiting
  }

  lemma HandledIsARun(s: R.State, id: nat, call: Call, world: World, ticket: Option<A.Ticket>)
    returns (steps: seq<R.Step>)
    requires L.AllOk(s.leases.slots) && id in s.jobs && s.jobs[id] == R.Job(RequestOf(call), ticket, R.Holding)
    requires id !in s.leases.waiting && id in s.leases.live && s.leases.live[id] == R.LeaseFor(RequestOf(call))
    ensures R.Runs(s, steps)
    ensures var t := R.After(s, steps);
            var l := s.leases.live[id];
            && Idle(t, id)
            && t.approvals.rows == s.approvals.rows
            && t.leases.slots == L.GiveBackAll(s.leases.slots, l.keys, l.mode, l.holder)
            && t.ran == s.ran + if world.secretsFound then [R.Run(RequestOf(call), ticket)] else []
  {
    if world.secretsFound {
      var u := R.Next(s, R.Handle(id));
      Done(R.Next(u, R.Leave(id)));
      Then(u, R.Leave(id), []);
      Then(s, R.Handle(id), [R.Leave(id)] + []);
      steps := [R.Handle(id)] + ([R.Leave(id)] + []);
    } else {
      Done(R.Next(s, R.Leave(id)));
      Then(s, R.Leave(id), []);
      steps := [R.Leave(id)] + [];
    }
  }

  lemma CarriedIsARun(s: R.State, id: nat, call: Call, world: World, ticket: Option<A.Ticket>, slots': L.Slots,
                      outcome: Outcome)
    returns (steps: seq<R.Step>)
    requires L.AllOk(s.leases.slots) && Admitted(s, id, call, ticket)
    requires Carried(call, world, s.leases.slots, slots', outcome)
    ensures R.Runs(s, steps)
    ensures Idle(R.After(s, steps), id)
    ensures TablesOf(R.After(s, steps)) ==
            Tables(s.approvals.rows, slots', s.ran + if outcome.Finished? then [R.Run(RequestOf(call), ticket)] else [])
  {
    var t := R.Next(s, R.Try(id));
    if L.Grantable(s.leases.slots, R.LeaseFor(RequestOf(call))) {
      var rest := HandledIsARun(t, id, call, world, ticket);
      Then(s, R.Try(id), rest);
      steps := [R.Try(id)] + rest;
    } else {
      Done(R.Next(t, R.GiveUp(id)));
      Then(t, R.GiveUp(id), []);
      Then(s, R.Try(id), [R.GiveUp(id)] + []);
      steps := [R.Try(id)] + ([R.GiveUp(id)] + []);
    }
  }

  lemma StoppedIsARun(s: R.State, id: nat, call: Call, created: A.Id, now: real, rows': A.Rows, stopped: Outcome)
    returns (steps: seq<R.Step>)
    requires L.AllOk(s.leases.slots) && Idle(s, id) && created !in s.approvals.rows
    requires Approved(s.autonomy, call, created, now, s.approvals.rows, rows', Some(stopped), None)
    ensures R.Runs(s, steps) && Idle(R.After(s, steps), id)
    ensures TablesOf(R.After(s, steps)) == Tables(rows', s.leases.slots, s.ran)
  {
    var gate;
    if stopped.ApprovalDenied? {
      var d :| A.Admits(s.approvals.rows, call.fingerprint, created, now, A.Refused(d), rows');
      gate := A.Refused(d);
    } else {
      gate := A.Asked(stopped.request);
    }
    var step := R.Enter(id, RequestOf(call), created, now, gate, rows');
    Done(R.Next(s, step));
    Then(s, step, []);
    steps := [step] + [];
  }

  lemma EnterAdmits(s: R.State, id: nat, call: Call, created: A.Id, now: real, rows': A.Rows, ticket: Option<A.Ticket>)
    returns (step: R.Step)
    requires L.AllOk(s.leases.slots) && Idle(s, id) && created !in s.approvals.rows
    requires !Evaluate(s.autonomy, call.spec, call.action).decision.Deny?
    requires Approved(s.autonomy, call, created, now, s.approvals.rows, rows', None, ticket)
    ensures R.Enabled(s, step) && Admitted(R.Next(s, step), id, call, ticket)
    ensures R.Next(s, step).leases == s.leases && TablesOf(R.Next(s, step)) == Tables(rows', s.leases.slots, s.ran)
  {
    var gate := A.Passed(if ticket.Some? then ticket.value.approval else created);
    step := R.Enter(id, RequestOf(call), created, now, gate, rows');
  }

  /** What `Perform` does to the tables, when nothing else moves meanwhile, is what some run of the protocol
      does: so every property of the runs is a property of the method. */
  lemma PerformIsARun(s: R.State, id: nat, call: Call, world: World, created: A.Id, now: real, after: Tables,
                      outcome: Outcome)
    returns (steps: seq<R.Step>)
    requires L.AllOk(s.leases.slots) && Idle(s, id) && created !in s.approvals.rows
    requires Performed(s.autonomy, call, world, created, now, TablesOf(s), after, outcome)
    ensures R.Runs(s, steps) && Idle(R.After(s, steps), id) && TablesOf(R.After(s, steps)) == after
  {
    if Turned(s.autonomy, call, world).Some? {
      Done(s);
      return [];
    }
    var stopped, ticket :|
      PerformedWith(s.autonomy, call, world, created, now, TablesOf(s), after, outcome, stopped, ticket);
    if stopped.Some? {
      steps := StoppedIsARun(s, id, call, created, now, after.rows, stopped.value);
    } else {
      var step := EnterAdmits(s, id, call, created, now, after.rows, ticket);
      var t := R.Next(s, step);
      var rest := CarriedIsARun(t, id, call, world, ticket, after.slots, outcome);
      Then(s, step, rest);
      steps := [step] + rest;
    }
  }

  class Runtime {
    const approvals: A.ApprovalBroker
    const leases: LeaseManager
    var autonomy: Autonomy
    var ran: seq<R.Run>
    var audit: seq<Outcome>

    ghost predicate Valid()
      reads leases
    {
      leases.Valid()
    }

    ghost function View(): (t: Tables)
      reads `ran, approvals, leases, leases.keys.Values
      requires Valid()
      ensures L.AllOk(t.slots)
    {
      Tables(approvals.rows, leases.View(), ran)
    }

    constructor (autonomy: Autonomy)
      ensures Valid() && fresh(approvals) && fresh(leases)
      ensures View() == Tables(map[], map[], []) && audit == [] && this.autonomy == autonomy
    {
      this.autonomy, ran, audit := autonomy, [], [];
      approvals := new A.ApprovalBroker();
      leases := new LeaseManager();
    }

    /** Every action ends in one audit row, except one that needs the user from inside its handler, where
        the nested action wrote its own, and one cancelled while it waited for its lease. */
    method Perform(call: Call, world: World, created: A.Id, now: real) returns (outcome: Outcome)
      requires Valid() && created !in approvals.rows
      modifies `ran, `audit, approvals, leases, leases.keys.Values
      ensures Valid()
      ensures Performed(autonomy, call, world, created, now, old(View()), View(), outcome)
      ensures audit
           == old(audit) + if outcome == Finished(NeedsUser) || outcome == CancelledWaiting then [] else [outcome]
    {
      var turned := Turned(autonomy, call, world);
      if turned.Some? {
        outcome := turned.value;
        TurnedAway(autonomy, call, world, created, now, View(), outcome);
      } else {
        outcome := PerformValid(call, world, created, now);
      }
      ghost var after := View();
      if outcome != Finished(NeedsUser) && outcome != CancelledWaiting {
        audit := audit + [outcome];
      }
      assert View() == after;
    }

    method PerformValid(call: Call, world: World, created: A.Id, now: real) returns (outcome: Outcome)
      requires Valid() && created !in approvals.rows && Turned(autonomy, call, world).None?
      modifies `ran, approvals, leases, leases.keys.Values
      ensures Valid()
      ensures Performed(autonomy, call, world, created, now, old(View()), View(), outcome)
    {
      ghost var before := View();
      var stopped, ticket := RequireApproval(call, created, now);
      ghost var mid := View();
      assert mid.slots == before.slots && mid.ran == before.ran;
      if stopped.Some? {
        outcome := stopped.value;
        StoppedAtTheGate(autonomy, call, world, created, now, before, mid, stopped, ticket);
      } else {
        outcome := Carry(call, world, ticket);
        CarriedOn(autonomy, call, world, created, now, before, Tables(mid.rows, leases.View(), ran), outcome, ticket);
      }
    }

    method RequireApproval(call: Call, created: A.Id, now: real)
      returns (stopped: Option<Outcome>, ticket: Option<A.Ticket>)
      requires created !in approvals.rows
      modifies approvals
      ensures Approved(autonomy, call, created, now, old(approvals.rows), approvals.rows, stopped, ticket)
    {
      stopped, ticket := None, None;
      if Evaluate(autonomy, call.spec, call.action).decision.Confirm? {
        var gate := approvals.RequireApproval(call.fingerprint, created, now);
        match gate
        case Refused(d) => stopped := Some(ApprovalDenied);
        case Passed(id) => ticket := Some(A.Ticket(call.fingerprint, id));
        case Asked(id) => stopped := Some(ApprovalRequired(id));
      }
    }

    /** The lease around the handler; it is given back on every exit. */
    method Carry(call: Call, world: World, ticket: Option<A.Ticket>) returns (outcome: Outcome)
      requires Valid()
      modifies `ran, leases, leases.keys.Values
      ensures Valid()
      ensures Carried(call, world, old(leases.View()), leases.View(), outcome)
      ensures ran == old(ran) + if outcome.Finished? then [R.Run(RequestOf(call), ticket)] else []
    {
      ghost var free := leases.View();
      var ordered := LeaseManager.Requested(call.names);
      var mode := if R.Mutates(RequestOf(call)) then L.Exclusive else L.Shared;
      LeaseIs(call, ordered, mode);
      var granted, blockers := leases.TryAcquire(ordered, mode, call.holder);
      if granted {
        outcome := Leased(call, world, ticket, ordered, mode, free);
      } else {
        outcome := if world.cancelledWaiting then CancelledWaiting else LeaseTimeout;
        RefusedAs(call, world, ordered, mode, free, leases.View(), outcome);
      }
    }

    /** What happens between taking the lease and giving it back; `free` is the table before it was taken. */
    method Leased(call: Call, world: World, ticket: Option<A.Ticket>, ordered: seq<L.Key>, mode: L.Mode,
                  ghost free: L.Slots)
      returns (outcome: Outcome)
      requires Valid() && forall i, j | 0 <= i < j < |ordered| :: ordered[i] != ordered[j]
      requires L.AllOk(free) && L.Grantable(free, L.Lease(L.Elems(ordered), mode, call.holder))
      requires L.Lease(L.Elems(ordered), mode, call.holder) == R.LeaseFor(RequestOf(call))
      requires leases.View() == L.TakeAll(free, L.Elems(ordered), mode, call.holder)
      modifies `ran, leases, leases.keys.Values
      ensures Valid()
      ensures Carried(call, world, free, leases.View(), outcome)
      ensures ran == old(ran) + if outcome.Finished? then [R.Run(RequestOf(call), ticket)] else []
    {
      ghost var taken := leases.View();
      outcome := Invoke(call, world, ticket);
      leases.ReleaseKeys(ordered, mode, call.holder);
      GrantedAs(call, world, ordered, mode, free, taken, leases.View(), outcome);
    }

    /** What happens under the lease: the secrets are substituted, then the handler runs. */
    method Invoke(call: Call, world: World, ticket: Option<A.Ticket>) returns (outcome: Outcome)
      modifies `ran
      ensures outcome == if world.secretsFound then Finished(world.handled) else MissingSecret
      ensures ran == old(ran) + if outcome.Finished? then [R.Run(RequestOf(call), ticket)] else []
    {
      if world.secretsFound {
        ran := ran + [R.Run(RequestOf(call), ticket)];
        return Finished(world.handled);
      }
      return MissingSecret;
    }
  }

  lemma LeaseIs(call: Call, ordered: seq<L.Key>, mode: L.Mode)
    requires L.Elems(ordered) == (set k | k in call.names && k != "")
    requires mode == if R.Mutates(RequestOf(call)) then L.Exclusive else L.Shared
    ensures L.Lease(L.Elems(ordered), mode, call.holder) == R.LeaseFor(RequestOf(call))
  {
  }

  lemma GrantedAs(call: Call, world: World, ordered: seq<L.Key>, mode: L.Mode, free: L.Slots, taken: L.Slots,
                  back: L.Slots, outcome: Outcome)
    requires L.Lease(L.Elems(ordered), mode, call.holder) == R.LeaseFor(RequestOf(call))
    requires L.AllOk(free) && L.Grantable(free, L.Lease(L.Elems(ordered), mode, call.holder))
    requires taken == L.TakeAll(free, L.Elems(ordered), mode, call.holder) && L.AllOk(taken)
    requires back == L.GiveBackAll(taken, L.Elems(ordered), mode, call.holder)
    requires outcome == if world.secretsFound then Finished(world.handled) else MissingSecret
    ensures Carried(call, world, free, back, outcome)
  {
  }

  lemma RefusedAs(call: Call, world: World, ordered: seq<L.Key>, mode: L.Mode, free: L.Slots, back: L.Slots,
                  outcome: Outcome)
    requires L.Lease(L.Elems(ordered), mode, call.holder) == R.LeaseFor(RequestOf(call))
    requires L.AllOk(free) && !L.Grantable(free, L.Lease(L.Elems(ordered), mode, call.holder))
    requires back == L.ClearAll(free, L.Blockers(free, L.Lease(L.Elems(ordered), mode, call.holder)))
    requires outcome == if world.cancelledWaiting then CancelledWaiting else LeaseTimeout
    ensures Carried(call, world, free, back, outcome)
  {
  }
}
