/** Approvals (runtime/approvals.py) and the gate that spends them (runtime/executor.py): a yes is a row,
    matched by the fingerprint of the operation, and spent by the execution it allows. */
module Approvals {
  import opened Options

  type Id = string
  type Fingerprint = string

  datatype ApprovalState = Pending | Approved | Denied | Expired

  datatype Row = Row(fingerprint: Fingerprint, state: ApprovalState, consumed: bool, requestedAt: real,
                     resolvedAt: real)

  type Rows = map<Id, Row>

  predicate Unspent(rows: Rows, id: Id, f: Fingerprint, state: ApprovalState)
  {
    id in rows && rows[id].fingerprint == f && rows[id].state == state && !rows[id].consumed
  }

  predicate Waiting(rows: Rows, id: Id, f: Fingerprint)
  {
    id in rows && rows[id].fingerprint == f && rows[id].state.Pending?
  }

  /** SELECT ... WHERE fingerprint, state, consumed = 0 ORDER BY resolved_at DESC LIMIT 1. */
  ghost predicate NewestUnspent(rows: Rows, f: Fingerprint, state: ApprovalState, found: Option<Id>)
  {
    match found
    case None => forall id :: !Unspent(rows, id, f, state)
    case Some(id) =>
      && Unspent(rows, id, f, state)
      && forall other | Unspent(rows, other, f, state) :: rows[other].resolvedAt <= rows[id].resolvedAt
  }

  /** What the approval gate decides about one attempt. */
  datatype Gate = Refused(denial: Id) | Passed(approval: Id) | Asked(request: Id)

  /** The gate's decision and table change: an unspent denial is burned first, then an unspent approval is
      spent, and only then the user is asked, once. `created` is the id a new request would get. */
  ghost predicate Admits(rows: Rows, f: Fingerprint, created: Id, now: real, gate: Gate, rows': Rows)
  {
    match gate
    case Refused(id) => NewestUnspent(rows, f, Denied, Some(id)) && rows' == rows[id := rows[id].(consumed := true)]
    case Passed(id) =>
      && NewestUnspent(rows, f, Denied, None)
      && NewestUnspent(rows, f, Approved, Some(id)) && rows' == rows[id := rows[id].(consumed := true)]
    case Asked(id) =>
      && NewestUnspent(rows, f, Denied, None) && NewestUnspent(rows, f, Approved, None)
      && if exists other :: Waiting(rows, other, f) then
           Waiting(rows, id, f) && rows' == rows
         else
           id == created && rows' == rows[id := Row(f, Pending, false, now, 0.0)]
  }

  function Resolve(rows: Rows, id: Id, approved: bool, now: real): Rows
    requires id in rows
  {
    rows[id := rows[id].(state := if approved then Approved else Denied, resolvedAt := now)]
  }

  function Expire(rows: Rows, cutoff: real): Rows
  {
    map id | id in rows ::
      if rows[id].state.Pending? && rows[id].requestedAt < cutoff then rows[id].(state := Expired) else rows[id]
  }

  /** The row has the answer and the time of it, and is otherwise, spent or not, as it was; so are all others. */
  predicate Answered(rows: Rows, rows': Rows, id: Id, approved: bool, now: real)
    requires id in rows
  {
    && rows'.Keys == rows.Keys
    && (forall other | other in rows && other != id :: rows'[other] == rows[other])
    && (if approved then rows'[id].state.Approved? else rows'[id].state.Denied?)
    && rows'[id].resolvedAt == now && rows'[id].consumed == rows[id].consumed
    && rows'[id].fingerprint == rows[id].fingerprint && rows'[id].requestedAt == rows[id].requestedAt
  }

  // ------------------------------------------------------------------------- the broker

  class ApprovalBroker {
    var rows: Rows

    constructor ()
      ensures rows == map[]
    {
      rows := map[];
    }

    method Newest(f: Fingerprint, state: ApprovalState) returns (found: Option<Id>)
      ensures NewestUnspent(rows, f, state, found)
    {
      found := None;
      var left := rows.Keys;
      while left != {}
        invariant left <= rows.Keys
        invariant found.None? ==> forall id | id in rows && id !in left :: !Unspent(rows, id, f, state)
        invariant found.Some? ==>
                    && Unspent(rows, found.value, f, state)
                    && forall id | id !in left && Unspent(rows, id, f, state) ::
                         rows[id].resolvedAt <= rows[found.value].resolvedAt
      {
        var id :| id in left;
        left := left - {id};
        if Unspent(rows, id, f, state) && (found.None? || rows[id].resolvedAt > rows[found.value].resolvedAt) {
          found := Some(id);
        }
      }
    }

    method Consume(id: Id)
      modifies this
      ensures rows == if id in old(rows) then old(rows)[id := old(rows)[id].(consumed := true)] else old(rows)
    {
      if id in rows {
        rows := rows[id := rows[id].(consumed := true)];
      }
    }

    /** Opens a pending approval, or returns one that already waits. */
    method Request(f: Fingerprint, created: Id, now: real) returns (id: Id)
      requires created !in rows
      modifies this
      ensures if exists other :: Waiting(old(rows), other, f)
              then Waiting(old(rows), id, f) && rows == old(rows)
              else id == created && rows == old(rows)[id := Row(f, Pending, false, now, 0.0)]
    {
      if other :| other in rows && Waiting(rows, other, f) {
        return other;
      }
      rows := rows[created := Row(f, Pending, false, now, 0.0)];
      return created;
    }

    /** Records an answer on any existing row, whatever was answered before. */
    method ResolveRequest(id: Id, approved: bool, now: real) returns (found: bool)
      modifies this
      ensures found <==> id in old(rows)
      ensures rows == if found then Resolve(old(rows), id, approved, now) else old(rows)
      ensures found ==> Answered(old(rows), rows, id, approved, now)
    {
      found := id in rows;
      if found {
        rows := rows[id := rows[id].(state := if approved then Approved else Denied, resolvedAt := now)];
      }
    }

    method ExpireOlderThan(cutoff: real)
      modifies this
      ensures rows == Expire(old(rows), cutoff)
      ensures rows.Keys == old(rows).Keys && forall id | id in rows ::
                if old(rows)[id].state.Pending? && old(rows)[id].requestedAt < cutoff then rows[id].state.Expired?
                else rows[id] == old(rows)[id]
    {
      rows := map id | id in rows ::
        if rows[id].state.Pending? && rows[id].requestedAt < cutoff then rows[id].(state := Expired) else rows[id];
    }

    /** The approval gate of the executor. */
    method RequireApproval(f: Fingerprint, created: Id, now: real) returns (gate: Gate)
      requires created !in rows
      modifies this
      ensures Admits(old(rows), f, created, now, gate, rows)
    {
      var denied := Newest(f, Denied);
      if denied.Some? {
        Consume(denied.value);
        return Refused(denied.value);
      }
      var granted := Newest(f, Approved);
      if granted.Some? {
        Consume(granted.value);
        return Passed(granted.value);
      }
      var id := Request(f, created, now);
      return Asked(id);
    }
  }

  // ------------------------------------------------------------------------ the protocol

  type Attempt = nat

  /** An attempt that passed the gate on the strength of an approval and has not run its handler yet. */
  datatype Ticket = Ticket(fingerprint: Fingerprint, approval: Id)

  /** `yeses` are the rows a person ever answered yes to; `runs` are the handler runs that needed one. */
  datatype State = State(rows: Rows, tickets: map<Attempt, Ticket>, yeses: set<Id>, runs: seq<Ticket>)

  const START := State(map[], map[], {}, [])

  datatype Step =
    | Attempting(attempt: Attempt, fingerprint: Fingerprint, created: Id, now: real, gate: Gate, rows': Rows)
    | Running(attempt: Attempt)
    | GivingUp(attempt: Attempt)
    | Answering(id: Id, approved: bool, now: real)
    | Expiring(cutoff: real)
    | Crash

  ghost predicate Enabled(s: State, step: Step)
  {
    match step
    case Attempting(attempt, f, created, now, gate, rows') =>
      attempt !in s.tickets && created !in s.rows && Admits(s.rows, f, created, now, gate, rows')
    case Running(attempt) => attempt in s.tickets
    case GivingUp(attempt) => attempt in s.tickets
    case Answering(id, _, _) => id in s.rows
    case Expiring(_) => true
    case Crash => true
  }

  function Next(s: State, step: Step): State
    requires step.Running? ==> step.attempt in s.tickets
    requires step.Answering? ==> step.id in s.rows
  {
    match step
    case Attempting(attempt, f, _, _, gate, rows') =>
      s.(rows := rows', tickets := if gate.Passed? then s.tickets[attempt := Ticket(f, gate.approval)] else s.tickets)
    case Running(attempt) => s.(tickets := s.tickets - {attempt}, runs := s.runs + [s.tickets[attempt]])
    case GivingUp(attempt) => s.(tickets := s.tickets - {attempt})
    case Answering(id, approved, now) =>
      s.(rows := Resolve(s.rows, id, approved, now), yeses := if approved then s.yeses + {id} else s.yeses)
    case Expiring(cutoff) => s.(rows := Expire(s.rows, cutoff))
    case Crash => s.(tickets := map[])
  }

  /** A ticket names a row of its own fingerprint that got a yes and is spent. */
  predicate Backed(s: State, t: Ticket)
  {
    && t.approval in s.rows && t.approval in s.yeses
    && s.rows[t.approval].consumed && s.rows[t.approval].fingerprint == t.fingerprint
  }

  /** At most one request waits for each operation. */
  ghost predicate OneWaiting(rows: Rows)
  {
    forall i, j | i in rows && j in rows && rows[i].state.Pending? && rows[j].state.Pending? ::
      rows[i].fingerprint == rows[j].fingerprint ==> i == j
  }

  ghost predicate RowsOk(s: State)
  {
    && s.yeses <= s.rows.Keys
    && (forall id | id in s.rows && s.rows[id].state.Approved? :: id in s.yeses)
    && (forall id | id in s.rows && s.rows[id].state.Pending? :: !s.rows[id].consumed)
    && OneWaiting(s.rows)
  }

  /** Every ticket and every run has its own row. */
  ghost predicate TicketsOk(s: State)
  {
    && (forall a | a in s.tickets :: Backed(s, s.tickets[a]))
    && (forall i | 0 <= i < |s.runs| :: Backed(s, s.runs[i]))
    && (forall a, b | a in s.tickets && b in s.tickets && a != b :: s.tickets[a].approval != s.tickets[b].approval)
    && (forall i, j | 0 <= i < j < |s.runs| :: s.runs[i].approval != s.runs[j].approval)
    && (forall a, i | a in s.tickets && 0 <= i < |s.runs| :: s.tickets[a].approval != s.runs[i].approval)
  }

  ghost predicate Inv(s: State) { RowsOk(s) && TicketsOk(s) }

  lemma AttemptRows(s: State, step: Step)
    requires RowsOk(s) && Enabled(s, step) && step.Attempting?
    ensures RowsOk(Next(s, step))
  {
    var rows, rows', f := s.rows, step.rows', step.fingerprint;
    if step.gate.Asked? && rows' != rows {
      forall id | id in rows && rows[id].state.Pending?
        ensures rows[id].fingerprint != f
      {
        assert !Waiting(rows, id, f);
      }
    }
  }

  lemma AttemptTickets(s: State, step: Step)
    requires Inv(s) && Enabled(s, step) && step.Attempting?
    ensures TicketsOk(Next(s, step))
  {
    var s' := Next(s, step);
    forall t: Ticket | Backed(s, t)
      ensures Backed(s', t)
    {
    }
  }

  lemma SpendInv(s: State, attempt: Attempt)
    requires Inv(s) && Enabled(s, Running(attempt))
    ensures Inv(Next(s, Running(attempt)))
  {
    assert forall i | 0 <= i < |s.runs| :: Next(s, Running(attempt)).runs[i] == s.runs[i];
  }

  /** Answering or expiring rows leaves tickets and runs backed. */
  lemma RowsInv(s: State, step: Step)
    requires Inv(s) && Enabled(s, step) && (step.Answering? || step.Expiring?)
    ensures Inv(Next(s, step))
  {
  }

  lemma StepInv(s: State, step: Step)
    requires Inv(s) && Enabled(s, step)
    ensures Inv(Next(s, step))
  {
    match step
    case Attempting(_, _, _, _, _, _) => AttemptRows(s, step); AttemptTickets(s, step);
    case Running(attempt) => SpendInv(s, attempt);
    case Answering(_, _, _) => RowsInv(s, step);
    case Expiring(_) => RowsInv(s, step);
    case _ =>
  }

  ghost predicate Runs(s: State, steps: seq<Step>)
    decreases |steps|
  {
    steps == [] || (Enabled(s, steps[0]) && Runs(Next(s, steps[0]), steps[1..]))
  }

  ghost function After(s: State, steps: seq<Step>): State
    requires Runs(s, steps)
    decreases |steps|
  {
    if steps == [] then s else After(Next(s, steps[0]), steps[1..])
  }

  lemma {:induction false} RunInv(s: State, steps: seq<Step>)
    requires Inv(s) && Runs(s, steps)
    ensures Inv(After(s, steps))
    decreases |steps|
  {
    if steps != [] {
      StepInv(s, steps[0]);
      RunInv(Next(s, steps[0]), steps[1..]);
    }
  }

  /** How often an operation ran its handler on the strength of an approval. */
  function RunsOf(runs: seq<Ticket>, f: Fingerprint): nat
  {
    if runs == [] then 0
    else RunsOf(runs[..|runs| - 1], f) + if runs[|runs| - 1].fingerprint == f then 1 else 0
  }

  function ApprovalsUsed(runs: seq<Ticket>, f: Fingerprint): set<Id>
  {
    set i | 0 <= i < |runs| && runs[i].fingerprint == f :: runs[i].approval
  }

  lemma ApprovalsUsedSnoc(rest: seq<Ticket>, last: Ticket, f: Fingerprint)
    ensures ApprovalsUsed(rest + [last], f)
         == ApprovalsUsed(rest, f) + if last.fingerprint == f then {last.approval} else {}
  {
    var runs := rest + [last];
    forall id
      ensures id in ApprovalsUsed(runs, f)
         <==> id in ApprovalsUsed(rest, f) || (last.fingerprint == f && id == last.approval)
    {
      if id in ApprovalsUsed(rest, f) {
        var i :| 0 <= i < |rest| && rest[i].fingerprint == f && rest[i].approval == id;
        assert runs[i] == rest[i];
      }
      if last.fingerprint == f && id == last.approval {
        assert runs[|rest|].approval == id;
      }
    }
  }

  lemma NotUsedBefore(rest: seq<Ticket>, last: Ticket, f: Fingerprint)
    requires forall i | 0 <= i < |rest| :: rest[i].approval != last.approval
    ensures last.approval !in ApprovalsUsed(rest, f)
  {
  }

  lemma {:induction false} RunsCountApprovals(runs: seq<Ticket>, f: Fingerprint)
    requires forall i, j | 0 <= i < j < |runs| :: runs[i].approval != runs[j].approval
    ensures RunsOf(runs, f) == |ApprovalsUsed(runs, f)|
  {
    if runs != [] {
      var n := |runs| - 1;
      var rest, last := runs[..n], runs[n];
      RunsCountApprovals(rest, f);
      ApprovalsUsedSnoc(rest, last, f);
      NotUsedBefore(rest, last, f);
      assert runs == rest + [last];
    }
  }

  lemma SubsetCount(small: set<Id>, large: set<Id>)
    requires small <= large
    ensures |small| <= |large|
  {
    assert large == small + (large - small);
  }

  /** Over any interleaving of attempts, answers, repeated answers, expiry and crashes: every run that
      needed a yes has a row of its own, of the same operation, that a person said yes to and that is spent;
      so an operation runs at most as often as rows of it were ever approved, and never more than one
      request for it waits. */
  lemma OneYesOneRun(steps: seq<Step>, f: Fingerprint)
    requires Runs(START, steps)
    ensures var s := After(START, steps);
            && (forall i, j | 0 <= i < j < |s.runs| :: s.runs[i].approval != s.runs[j].approval)
            && (forall i | 0 <= i < |s.runs| :: Backed(s, s.runs[i]))
            && RunsOf(s.runs, f) <= |set id | id in s.yeses && id in s.rows && s.rows[id].fingerprint == f|
            && OneWaiting(s.rows)
  {
    RunInv(START, steps);
    var s := After(START, steps);
    RunsCountApprovals(s.runs, f);
    SubsetCount(ApprovalsUsed(s.runs, f), set id | id in s.yeses && id in s.rows && s.rows[id].fingerprint == f);
  }

  /** `yeses` is the record of the answers that were given. */
  lemma {:induction false} YesesWereGiven(s: State, steps: seq<Step>, id: Id)
    requires Runs(s, steps)
    ensures id in After(s, steps).yeses
       <==> || id in s.yeses
            || exists i :: 0 <= i < |steps| && steps[i].Answering? && steps[i].id == id && steps[i].approved
    decreases |steps|
  {
    if steps != [] {
      YesesWereGiven(Next(s, steps[0]), steps[1..], id);
      forall i | 0 <= i < |steps| - 1
        ensures steps[1..][i] == steps[i + 1]
      {
      }
      if steps[0].Answering? && steps[0].id == id && steps[0].approved {
        assert id in Next(s, steps[0]).yeses;
      } else if i :| 0 <= i < |steps| && steps[i].Answering? && steps[i].id == id && steps[i].approved {
        assert steps[1..][i - 1] == steps[i];
      }
    }
  }

  /** So behind every run there is a step of its own in which a person said yes to that operation. */
  lemma EveryRunWasApproved(steps: seq<Step>, i: nat)
    requires Runs(START, steps) && i < |After(START, steps).runs|
    ensures var s := After(START, steps);
            && s.runs[i].approval in s.rows && s.rows[s.runs[i].approval].fingerprint == s.runs[i].fingerprint
            && exists n :: 0 <= n < |steps| && steps[n].Answering? && steps[n].id == s.runs[i].approval
                           && steps[n].approved
  {
    RunInv(START, steps);
    assert Backed(After(START, steps), After(START, steps).runs[i]);
    YesesWereGiven(START, steps, After(START, steps).runs[i].approval);
  }

  /** A row is spent once and for all, and keeps its operation, whatever is answered later. */
  lemma {:induction false} SpentStaysSpent(s: State, steps: seq<Step>, id: Id)
    requires Runs(s, steps) && id in s.rows && s.rows[id].consumed
    ensures var rows := After(s, steps).rows;
            id in rows && rows[id].consumed && rows[id].fingerprint == s.rows[id].fingerprint
    decreases |steps|
  {
    if steps != [] {
      SpentStaysSpent(Next(s, steps[0]), steps[1..], id);
    }
  }

  /** An unspent no comes first: while there is one, no attempt passes, and each attempt burns one. */
  lemma DenialsBurnFirst(s: State, step: Step, id: Id)
    requires Enabled(s, step) && step.Attempting? && Unspent(s.rows, id, step.fingerprint, Denied)
    ensures step.gate.Refused? && Next(s, step).tickets == s.tickets
    ensures Unspent(s.rows, step.gate.denial, step.fingerprint, Denied)
    ensures forall other | other != step.gate.denial ::
              (Unspent(Next(s, step).rows, other, step.fingerprint, Denied)
               <==> Unspent(s.rows, other, step.fingerprint, Denied))
    ensures !Unspent(Next(s, step).rows, step.gate.denial, step.fingerprint, Denied)
  {
  }

  // ------------------------------------------------------------------------ what an answer does

  lemma AnswerMeans(s: State, id: Id, approved: bool, now: real)
    requires Enabled(s, Answering(id, approved, now))
    ensures Answered(s.rows, Next(s, Answering(id, approved, now)).rows, id, approved, now)
  {
  }

  /** An answer to an unspent row decides the next attempt of its operation: a no refuses it; a yes lets it pass
      exactly if no other no of that operation is unspent. */
  lemma AnswerDecides(s: State, id: Id, approved: bool, now: real, next: State, attempt: Step)
    requires id in s.rows && !s.rows[id].consumed && next == Next(s, Answering(id, approved, now))
    requires Enabled(next, attempt) && attempt.Attempting? && attempt.fingerprint == s.rows[id].fingerprint
    ensures !approved ==> attempt.gate.Refused?
    ensures approved ==>
              (attempt.gate.Passed?
               <==> forall other | other != id :: !Unspent(s.rows, other, attempt.fingerprint, Denied))
  {
    AnswerMeans(s, id, approved, now);
    var f := attempt.fingerprint;
    assert !approved ==> Unspent(next.rows, id, f, Denied);
    assert approved ==> Unspent(next.rows, id, f, Approved) && !Unspent(next.rows, id, f, Denied);
    assert forall other, state: ApprovalState | other != id ::
        Unspent(next.rows, other, f, state) <==> Unspent(s.rows, other, f, state);
  }

  /** Over every run: where a request of an operation waits and no no of it is unspent, a yes lets every attempt that
      comes next pass, and a no refuses it. */
  lemma WaitingIsDecided(steps: seq<Step>, id: Id, f: Fingerprint, approved: bool, now: real, attempt: Step)
    requires Runs(START, steps) && Waiting(After(START, steps).rows, id, f)
    requires forall other :: !Unspent(After(START, steps).rows, other, f, Denied)
    requires Enabled(Next(After(START, steps), Answering(id, approved, now)), attempt)
    requires attempt.Attempting? && attempt.fingerprint == f
    ensures if approved then attempt.gate.Passed? else attempt.gate.Refused?
  {
    var s := After(START, steps);
    RunInv(START, steps);
    AnswerDecides(s, id, approved, now, Next(s, Answering(id, approved, now)), attempt);
  }

  /** Who asks and is told yes, passes next time on that very request; who is told no is refused on it. */
  lemma AskAndBeAnswered(s: State, ask: Step, approved: bool, now: real, again: Step)
    requires Inv(s) && Enabled(s, ask) && ask.Attempting? && ask.gate.Asked?
    ensures ask.gate.request in Next(s, ask).rows
    ensures var next := Next(Next(s, ask), Answering(ask.gate.request, approved, now));
            Enabled(next, again) && again.Attempting? && again.fingerprint == ask.fingerprint ==>
              again.gate == if approved then Passed(ask.gate.request) else Refused(ask.gate.request)
  {
    var id, f, asked := ask.gate.request, ask.fingerprint, Next(s, ask);
    AttemptRows(s, ask);
    AnswerMeans(asked, id, approved, now);
    var next := Next(asked, Answering(id, approved, now));
    forall other, state: ApprovalState | other != id && !state.Pending?
      ensures Unspent(next.rows, other, f, state) <==> Unspent(s.rows, other, f, state)
    {
    }
    if Enabled(next, again) && again.Attempting? && again.fingerprint == f {
      OnlyAnswer(next.rows, id, approved, again);
    }
  }

  /** With one unspent answer to an operation the gate has no choice. */
  lemma OnlyAnswer(rows: Rows, id: Id, approved: bool, attempt: Step)
    requires attempt.Attempting? && id in rows && rows[id].fingerprint == attempt.fingerprint && !rows[id].consumed
    requires if approved then rows[id].state.Approved? else rows[id].state.Denied?
    requires forall other | other != id ::
               && !Unspent(rows, other, attempt.fingerprint, Denied)
               && !Unspent(rows, other, attempt.fingerprint, Approved)
    requires Admits(rows, attempt.fingerprint, attempt.created, attempt.now, attempt.gate, attempt.rows')
    ensures attempt.gate == if approved then Passed(id) else Refused(id)
  {
    assert Unspent(rows, id, attempt.fingerprint, if approved then Approved else Denied);
  }

  /** The gate uses the newest unspent answer of its kind, and a new request bears the time it was made. */
  lemma NewestFirst(s: State, step: Step)
    requires Enabled(s, step) && step.Attempting?
    ensures step.gate.Refused? ==> forall id | Unspent(s.rows, id, step.fingerprint, Denied) ::
              s.rows[id].resolvedAt <= s.rows[step.gate.denial].resolvedAt
    ensures step.gate.Passed? ==> forall id | Unspent(s.rows, id, step.fingerprint, Approved) ::
              s.rows[id].resolvedAt <= s.rows[step.gate.approval].resolvedAt
    ensures step.gate.Asked? && !(exists id :: Waiting(s.rows, id, step.fingerprint)) ==>
              && step.gate.request == step.created && Waiting(Next(s, step).rows, step.created, step.fingerprint)
              && Next(s, step).rows[step.created].requestedAt == step.now
  {
  }

  /** A request that was asked for expires with a later cutoff and with no other, and nothing else does. */
  lemma ExpiresIff(s: State, cutoff: real, id: Id)
    requires id in s.rows
    ensures var rows := Next(s, Expiring(cutoff)).rows;
            && rows.Keys == s.rows.Keys
            && (rows[id].state.Expired? <==>
                  s.rows[id].state.Expired? || (s.rows[id].state.Pending? && s.rows[id].requestedAt < cutoff))
            && rows[id] == s.rows[id].(state := rows[id].state)
            && (!rows[id].state.Expired? ==> rows[id].state == s.rows[id].state)
  {
  }
}
