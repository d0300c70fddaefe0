/** Effect reservations (kernel/effects.py): the right to do something to the world is a row written
    before it is done, and a row left open by a crash becomes uncertain. */
module Effects {
  import opened Options

  type Id = string
  type Hash = string

  datatype EffectState = Reserved | Done | Failed | Uncertain

  datatype Row = Row(state: EffectState, hash: Hash, reservedAt: real, settledAt: Option<real>) {
    predicate Repeatable() { state.Failed? }
  }

  type Rows = map<Id, Row>

  /** The answer to "may I proceed?". */
  datatype Answer = Granted | Existing(record: Row) | OtherArguments

  function Ask(rows: Rows, id: Id, hash: Hash): Answer
  {
    if id !in rows then Granted
    else if rows[id].hash != "" && rows[id].hash != hash then OtherArguments
    else Existing(rows[id])
  }

  function Reserve(rows: Rows, id: Id, hash: Hash, now: real): Rows
  {
    if id in rows then rows else rows[id := Row(Reserved, hash, now, None)]
  }

  /** UPDATE effects SET state ... WHERE effect_id: whatever the state was. */
  function Settle(rows: Rows, id: Id, state: EffectState, now: real): (settled: Rows)
    ensures settled.Keys == rows.Keys && forall other | other in rows && other != id :: settled[other] == rows[other]
    ensures id in rows ==>
              && settled[id].state == state && settled[id].settledAt == Some(now)
              && settled[id].hash == rows[id].hash && settled[id].reservedAt == rows[id].reservedAt
  {
    if id in rows then rows[id := rows[id].(state := state, settledAt := Some(now))] else rows
  }

  predicate Stranded(row: Row, cutoff: real) { row.state.Reserved? && row.reservedAt <= cutoff }

  /** A reservation of which nobody knows whether its action happened. */
  function Marked(row: Row, now: real): Row { row.(state := Uncertain, settledAt := Some(now)) }

  function Swept(rows: Rows, cutoff: real, now: real): Rows
  {
    map id | id in rows ::
      if Stranded(rows[id], cutoff) then Marked(rows[id], now) else rows[id]
  }

  /** A sweep leaves no reservation open if and only if none lies after its cutoff. */
  lemma SweepClosesIff(rows: Rows, cutoff: real, now: real)
    ensures (forall id | id in Swept(rows, cutoff, now) :: !Swept(rows, cutoff, now)[id].state.Reserved?)
            <==> forall id | id in rows && rows[id].state.Reserved? :: rows[id].reservedAt <= cutoff
  {
    var swept := Swept(rows, cutoff, now);
    forall id | id in rows
      ensures id in swept && (swept[id].state.Reserved? <==> rows[id].state.Reserved? && rows[id].reservedAt > cutoff)
    {
    }
  }

  // -------------------------------------------------------------------------- the store

  class EffectStore {
    var rows: Rows

    constructor ()
      ensures rows == map[]
    {
      rows := map[];
    }

    /** Claims an effect that nobody claimed before; otherwise nothing changes, also not for a record that
        calls itself repeatable. */
    method ReserveEffect(id: Id, hash: Hash, now: real) returns (answer: Answer)
      modifies this
      ensures answer == Ask(old(rows), id, hash) && rows == Reserve(old(rows), id, hash, now)
      ensures answer.Granted? <==> rows != old(rows)
    {
      if id in rows {
        var existing := rows[id];
        if existing.hash != "" && existing.hash != hash {
          return OtherArguments;
        }
        return Existing(existing);
      }
      rows := rows[id := Row(Reserved, hash, now, None)];
      return Granted;
    }

    method SettleEffect(id: Id, state: EffectState, now: real)
      modifies this
      ensures rows == Settle(old(rows), id, state, now)
    {
      if id in rows {
        rows := rows[id := rows[id].(state := state, settledAt := Some(now))];
      }
    }

    method Complete(id: Id, ok: bool, now: real)
      modifies this
      ensures rows == Settle(old(rows), id, if ok then Done else Failed, now)
    {
      SettleEffect(id, if ok then Done else Failed, now);
    }

    method MarkUncertain(id: Id, now: real)
      modifies this
      ensures rows == Settle(old(rows), id, Uncertain, now)
    {
      SettleEffect(id, Uncertain, now);
    }

    /** Settles every stranded reservation as uncertain, one row at a time. */
    method SweepUnsettled(cutoff: real, now: real) returns (stranded: set<Id>)
      modifies this
      ensures stranded == set id | id in old(rows) && Stranded(old(rows)[id], cutoff)
      ensures rows == Swept(old(rows), cutoff, now) && rows.Keys == old(rows).Keys
      ensures forall id | id in old(rows) ::
                rows[id] == if id in stranded then old(rows)[id].(state := Uncertain, settledAt := Some(now))
                            else old(rows)[id]
    {
      stranded := set id | id in rows && Stranded(rows[id], cutoff);
      var left := stranded;
      while left != {}
        invariant left <= stranded && rows.Keys == old(rows).Keys
        invariant forall id | id in rows ::
                    rows[id] == if id in stranded - left then Marked(old(rows)[id], now) else old(rows)[id]
      {
        var id :| id in left;
        MarkUncertain(id, now);
        left := left - {id};
      }
    }
  }

  // ------------------------------------------------------------------------ the protocol

  type Worker = nat

  /** Something that happened to the world, and whether it worked. */
  datatype Deed = Deed(id: Id, ok: bool)

  /** A worker that was granted an effect: not yet acted, or acted with this outcome. */
  datatype Claim = Claim(id: Id, acted: Option<bool>)

  /** `grants` and `acts` are everything that was ever granted and everything that ever happened to the
      world, with its outcome. `sweeping` is the time between a start and the end of its sweep. */
  datatype State = State(rows: Rows, claims: map<Worker, Claim>, sweeping: bool, clock: real,
                         grants: seq<Id>, acts: seq<Deed>)

  const START := State(map[], map[], true, 0.0, [], [])

  datatype Step =
    | SweepRow(id: Id, now: real)
    | SweepEnds
    | Request(worker: Worker, id: Id, hash: Hash, now: real)
    | Act(worker: Worker, ok: bool)
    | Report(worker: Worker, known: bool, now: real)
    | Crash

  predicate Enabled(s: State, step: Step)
  {
    match step
    case SweepRow(id, now) => s.sweeping && now >= s.clock && id in s.rows && Stranded(s.rows[id], now)
    case SweepEnds => s.sweeping && forall id | id in s.rows :: !Stranded(s.rows[id], s.clock)
    case Request(worker, _, _, now) => !s.sweeping && worker !in s.claims && now >= s.clock
    case Act(worker, _) => worker in s.claims && s.claims[worker].acted.None?
    case Report(worker, _, now) => worker in s.claims && now >= s.clock
    case Crash => true
  }

  /** What an honest worker settles: the outcome it saw, uncertain if it cannot tell, and a failure if it
      never acted. */
  function Settlement(claim: Claim, known: bool): EffectState
  {
    if claim.acted.None? then Failed
    else if !known then Uncertain
    else if claim.acted.value then Done else Failed
  }

  function Next(s: State, step: Step): State
    requires Enabled(s, step)
  {
    match step
    case SweepRow(id, now) => s.(rows := Settle(s.rows, id, Uncertain, now), clock := now)
    case SweepEnds => s.(sweeping := false)
    case Request(worker, id, hash, now) =>
      if Ask(s.rows, id, hash).Granted? then
        s.(rows := Reserve(s.rows, id, hash, now), claims := s.claims[worker := Claim(id, None)],
           grants := s.grants + [id], clock := now)
      else s.(clock := now)
    case Act(worker, ok) =>
      s.(claims := s.claims[worker := s.claims[worker].(acted := Some(ok))],
         acts := s.acts + [Deed(s.claims[worker].id, ok)])
    case Report(worker, known, now) =>
      s.(rows := Settle(s.rows, s.claims[worker].id, Settlement(s.claims[worker], known), now),
         claims := s.claims - {worker}, clock := now)
    case Crash => s.(claims := map[], sweeping := true)
  }

  predicate Acted(s: State, id: Id) { exists d :: d in s.acts && d.id == id }

  /** Nothing is granted twice and nothing happens twice, and whatever happened has a row. */
  ghost predicate Once(s: State)
  {
    && (forall i, j | 0 <= i < j < |s.grants| :: s.grants[i] != s.grants[j])
    && (forall i, j | 0 <= i < j < |s.acts| :: s.acts[i].id != s.acts[j].id)
    && (forall id :: id in s.grants <==> id in s.rows)
    && (forall id | Acted(s, id) :: id in s.rows)
  }

  /** A claim is the one open reservation of its effect, and knows whether it acted. */
  ghost predicate ClaimsOk(s: State)
  {
    && (s.sweeping ==> s.claims == map[])
    && (forall w | w in s.claims ::
          && s.claims[w].id in s.rows && s.rows[s.claims[w].id].state.Reserved?
          && (s.claims[w].acted.None? ==> !Acted(s, s.claims[w].id))
          && (s.claims[w].acted.Some? ==> Deed(s.claims[w].id, s.claims[w].acted.value) in s.acts))
    && (forall v, w | v in s.claims && w in s.claims && v != w :: s.claims[v].id != s.claims[w].id)
  }

  predicate Claimed(s: State, id: Id) { exists w | w in s.claims :: s.claims[w].id == id }

  /** Outside the sweep an open reservation has a living worker, and a settled row tells the truth. */
  ghost predicate RowsOk(s: State)
  {
    forall id | id in s.rows ::
      var row := s.rows[id];
      && row.reservedAt <= s.clock
      && (row.state.Reserved? ==> s.sweeping || Claimed(s, id))
      && (row.state.Done? ==> Deed(id, true) in s.acts)
      && (row.state.Failed? ==> Deed(id, true) !in s.acts)
  }

  ghost predicate Inv(s: State) { Once(s) && ClaimsOk(s) && RowsOk(s) }

  lemma OneOutcome(s: State, id: Id, ok: bool)
    requires Once(s) && Deed(id, ok) in s.acts
    ensures Deed(id, !ok) !in s.acts
  {
    var i :| 0 <= i < |s.acts| && s.acts[i] == Deed(id, ok);
    forall j | 0 <= j < |s.acts| && s.acts[j].id == id
      ensures s.acts[j] == Deed(id, ok)
    {
    }
  }

  lemma RequestOnce(s: State, step: Step)
    requires Inv(s) && Enabled(s, step) && step.Request?
    ensures Once(Next(s, step)) && forall id :: Acted(Next(s, step), id) <==> Acted(s, id)
  {
  }

  lemma RequestInv(s: State, step: Step)
    requires Inv(s) && Enabled(s, step) && step.Request?
    ensures Inv(Next(s, step))
  {
    RequestOnce(s, step);
    RequestClaims(s, step);
    if step.id !in s.rows {
      RequestClaimed(s, step);
    }
  }

  lemma RequestClaims(s: State, step: Step)
    requires Inv(s) && Enabled(s, step) && step.Request?
    ensures ClaimsOk(Next(s, step))
  {
    RequestOnce(s, step);
    if step.id !in s.rows {
      GrantClaims(s, step, Next(s, step));
    }
  }

  lemma GrantClaims(s: State, step: Step, s': State)
    requires ClaimsOk(s) && Enabled(s, step) && step.Request? && step.id !in s.rows && s' == Next(s, step)
    requires !Acted(s', step.id) && s'.acts == s.acts
    ensures ClaimsOk(s')
  {
    forall w | w in s.claims
      ensures w != step.worker && s'.claims[w] == s.claims[w] && s.claims[w].id != step.id
    {
    }
  }

  lemma RequestClaimed(s: State, step: Step)
    requires Inv(s) && Enabled(s, step) && step.Request? && step.id !in s.rows
    ensures forall id | Claimed(s, id) || id == step.id :: Claimed(Next(s, step), id)
  {
    var s' := Next(s, step);
    assert s'.claims[step.worker].id == step.id;
    forall id | Claimed(s, id)
      ensures Claimed(s', id)
    {
      var w :| w in s.claims && s.claims[w].id == id;
      assert w in s'.claims && s'.claims[w].id == id;
    }
  }

  lemma ActOnce(s: State, worker: Worker, ok: bool)
    requires Inv(s) && Enabled(s, Act(worker, ok))
    ensures Once(Next(s, Act(worker, ok)))
    ensures forall x :: Acted(Next(s, Act(worker, ok)), x) <==> Acted(s, x) || x == s.claims[worker].id
  {
    var s', id := Next(s, Act(worker, ok)), s.claims[worker].id;
    assert s'.acts[|s.acts|] == Deed(id, ok);
    assert forall a :: a in s'.acts <==> a in s.acts || a == Deed(id, ok);
    forall i | 0 <= i < |s.acts|
      ensures s.acts[i].id != id
    {
      assert s.acts[i] in s.acts;
    }
  }

  lemma ActInv(s: State, worker: Worker, ok: bool)
    requires Inv(s) && Enabled(s, Act(worker, ok))
    ensures Inv(Next(s, Act(worker, ok)))
  {
    var s', id := Next(s, Act(worker, ok)), s.claims[worker].id;
    ActOnce(s, worker, ok);
    assert forall a :: a in s'.acts <==> a in s.acts || a == Deed(id, ok);
    forall x | Claimed(s, x)
      ensures Claimed(s', x)
    {
      var w :| w in s.claims && s.claims[w].id == x;
      assert w in s'.claims && s'.claims[w].id == x;
    }
  }

  lemma ReportInv(s: State, step: Step)
    requires Inv(s) && Enabled(s, step) && step.Report?
    ensures Inv(Next(s, step))
  {
    var s' := Next(s, step);
    var claim := s.claims[step.worker];
    if claim.acted.Some? {
      OneOutcome(s, claim.id, claim.acted.value);
    }
    forall x | Claimed(s, x) && x != claim.id
      ensures Claimed(s', x)
    {
      var w :| w in s.claims && s.claims[w].id == x;
      assert w in s'.claims && s'.claims[w].id == x;
    }
    assert forall id :: Acted(s', id) <==> Acted(s, id);
  }

  lemma StepInv(s: State, step: Step)
    requires Inv(s) && Enabled(s, step)
    ensures Inv(Next(s, step))
  {
    match step
    case Request(_, _, _, _) => RequestInv(s, step);
    case Act(worker, ok) => ActInv(s, worker, ok);
    case Report(_, _, _) => ReportInv(s, step);
    case _ => assert forall id :: Acted(Next(s, step), id) <==> Acted(s, id);
  }

  predicate Runs(s: State, steps: seq<Step>)
    decreases |steps|
  {
    steps == [] || (Enabled(s, steps[0]) && Runs(Next(s, steps[0]), steps[1..]))
  }

  function After(s: State, steps: seq<Step>): State
    requires Runs(s, steps)
    decreases |steps|
  {
    if steps == [] then s else After(Next(s, steps[0]), steps[1..])
  }

  lemma {:induction false} RunInv(s: State, steps: seq<Step>)
    requires Inv(s) && Runs(s, steps)
    ensures Inv(After(s, steps))
    decreases |steps|
  {
    if steps != [] {
      StepInv(s, steps[0]);
      RunInv(Next(s, steps[0]), steps[1..]);
    }
  }

  /** Over every run, with workers and crashes anywhere: an effect is granted at most once and happens at
      most once; what happened has a row; a row marked done did happen, a row marked failed did not
      succeed; and outside the sweep a row is open only while a living worker holds it. */
  lemma AtMostOnce(steps: seq<Step>)
    requires Runs(START, steps)
    ensures var s := After(START, steps);
            && (forall i, j | 0 <= i < j < |s.grants| :: s.grants[i] != s.grants[j])
            && (forall i, j | 0 <= i < j < |s.acts| :: s.acts[i].id != s.acts[j].id)
            && (forall id | Acted(s, id) :: id in s.rows)
            && (forall id | id in s.rows && s.rows[id].state.Done? :: Deed(id, true) in s.acts)
            && (forall id | id in s.rows && s.rows[id].state.Failed? :: Deed(id, true) !in s.acts)
            && (forall id | id in s.rows && s.rows[id].state.Reserved? && !s.sweeping :: Claimed(s, id))
  {
    RunInv(START, steps);
  }

  /** One row over one step or many: it keeps its arguments, opens never again and, once settled, is final. */
  predicate RowKept(before: Rows, after: Rows, id: Id)
    requires id in before
  {
    && id in after && after[id].hash == before[id].hash && after[id].reservedAt == before[id].reservedAt
    && (after[id].state.Reserved? ==> before[id].state.Reserved?)
    && (!before[id].state.Reserved? ==> after[id] == before[id])
  }

  lemma RowStep(s: State, step: Step, id: Id)
    requires Inv(s) && Enabled(s, step) && id in s.rows
    ensures RowKept(s.rows, Next(s, step).rows, id)
  {
  }

  /** Only a run from one state to another: rows are never removed, keep the arguments they were reserved
      for, and never open again; what the sweep changed was open. */
  lemma {:induction false} RowsAreForever(s: State, steps: seq<Step>, id: Id)
    requires Inv(s) && Runs(s, steps) && id in s.rows
    ensures RowKept(s.rows, After(s, steps).rows, id)
    decreases |steps|
  {
    if steps != [] {
      var next := Next(s, steps[0]);
      StepInv(s, steps[0]);
      RowStep(s, steps[0], id);
      RowsAreForever(next, steps[1..], id);
    }
  }

  /** Whoever is granted an effect leaves a row with its arguments: from then on, whatever happens, the same arguments
      are answered with that row as it is, and others are refused, unless none were given at first. */
  lemma AskedAgain(s: State, step: Step, steps: seq<Step>, hash: Hash)
    requires Inv(s) && Enabled(s, step) && step.Request? && step.id !in s.rows && Runs(Next(s, step), steps)
    ensures var granted, rows := Next(s, step).rows, After(Next(s, step), steps).rows;
            && step.id in granted && granted[step.id].state.Reserved? && granted[step.id].reservedAt == step.now
            && step.id in rows && rows[step.id].hash == step.hash
            && Ask(rows, step.id, hash)
               == if step.hash == "" || hash == step.hash then Existing(rows[step.id]) else OtherArguments
  {
    StepInv(s, step);
    RowsAreForever(Next(s, step), steps, step.id);
  }

  /** What an honest worker reports: an action it never took as failed, one it cannot tell about as uncertain, and one
      it saw as done exactly if it succeeded. No other row changes. */
  lemma ReportMeans(s: State, worker: Worker, known: bool, now: real)
    requires Inv(s) && Enabled(s, Report(worker, known, now))
    ensures var id, rows := s.claims[worker].id, Next(s, Report(worker, known, now)).rows;
            && id in rows && rows[id].settledAt == Some(now)
            && (forall other | other in s.rows && other != id :: other in rows && rows[other] == s.rows[other])
            && (rows[id].state.Uncertain? <==> Acted(s, id) && !known)
            && (rows[id].state.Done? <==> known && Deed(id, true) in s.acts)
            && (rows[id].state.Failed? <==> !Acted(s, id) || (known && Deed(id, false) in s.acts))
  {
    var claim := s.claims[worker];
    if claim.acted.Some? {
      OneOutcome(s, claim.id, claim.acted.value);
      assert Acted(s, claim.id);
    } else {
      assert Deed(claim.id, true) !in s.acts && Deed(claim.id, false) !in s.acts;
    }
  }

  /** The second list continues the first without this effect. */
  predicate NoneMore(before: State, after: State, id: Id)
  {
    && before.grants <= after.grants && id !in after.grants[|before.grants|..]
    && before.acts <= after.acts && forall i | |before.acts| <= i < |after.acts| :: after.acts[i].id != id
  }

  lemma StepNoneMore(s: State, step: Step, id: Id)
    requires Inv(s) && Enabled(s, step) && id in s.rows && !s.rows[id].state.Reserved?
    ensures NoneMore(s, Next(s, step), id)
  {
  }

  lemma NoneMoreTrans(a: State, b: State, c: State, id: Id)
    requires NoneMore(a, b, id) && NoneMore(b, c, id)
    ensures NoneMore(a, c, id)
  {
    forall i | |a.grants| <= i < |c.grants|
      ensures c.grants[i] != id
    {
      if i < |b.grants| {
        assert c.grants[i] == b.grants[i] == b.grants[|a.grants|..][i - |a.grants|];
      } else {
        assert c.grants[i] == c.grants[|b.grants|..][i - |b.grants|];
      }
    }
  }

  /** A record that says it is repeatable, which is a failed one, is never repeated: whoever asks for it again, with
      whatever arguments, is not granted it, nothing is done under it in any continuation, and the record stays as it
      is. */
  lemma {:induction false} RepeatableIsNeverRepeated(s: State, steps: seq<Step>, id: Id)
    requires Inv(s) && Runs(s, steps) && id in s.rows && s.rows[id].Repeatable()
    ensures s.rows[id].state.Failed?
    ensures forall hash :: !Ask(s.rows, id, hash).Granted?
    ensures id in After(s, steps).rows && After(s, steps).rows[id] == s.rows[id]
    ensures NoneMore(s, After(s, steps), id)
    decreases |steps|
  {
    RowsAreForever(s, steps, id);
    if steps != [] {
      var next := Next(s, steps[0]);
      StepInv(s, steps[0]);
      RowStep(s, steps[0], id);
      StepNoneMore(s, steps[0], id);
      RepeatableIsNeverRepeated(next, steps[1..], id);
      NoneMoreTrans(s, next, After(s, steps), id);
    }
  }

  /** After a crash and the sweep that follows it, exactly the effects that were in flight are uncertain
      and every other row is as it was. */
  lemma {:induction false} SweepMarksInFlight(s: State, steps: seq<Step>, id: Id)
    requires Inv(s) && s.sweeping && Runs(s, steps) && id in s.rows
    requires forall i | 0 <= i < |steps| ::
               steps[i].SweepRow? || steps[i].Crash? || (steps[i].SweepEnds? && i == |steps| - 1)
    ensures var t := After(s, steps);
            && id in t.rows
            && (!s.rows[id].state.Reserved? ==> t.rows[id] == s.rows[id])
            && (t.rows[id] == s.rows[id] || t.rows[id].state.Uncertain?)
            && (!t.sweeping ==> t.rows[id].state == if s.rows[id].state.Reserved? then Uncertain else s.rows[id].state)
    decreases |steps|
  {
    if steps != [] {
      StepInv(s, steps[0]);
      if steps[0].SweepEnds? {
        assert steps[1..] == [];
      } else {
        SweepMarksInFlight(Next(s, steps[0]), steps[1..], id);
      }
    }
  }
}
