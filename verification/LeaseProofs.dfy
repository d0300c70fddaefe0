/** What the lease protocol keeps over every run, and where it stops keeping it. */
module LeaseProofs {
  import opened Options
  import opened LeaseTable

  // ---------------------------------------------------- the table refines the live leases

  ghost function Sharers(live: map<nat, Lease>, k: Key): set<nat>
  {
    set l | l in live && k in live[l].keys && live[l].mode.Shared?
  }

  ghost function Owners(live: map<nat, Lease>, k: Key): set<nat>
  {
    set l | l in live && k in live[l].keys && live[l].mode.Exclusive?
  }

  /** The counters of a key say exactly which leases are live on it. */
  ghost predicate SlotRefines(slot: Slot, live: map<nat, Lease>, k: Key)
  {
    var sharers, owners := Sharers(live, k), Owners(live, k);
    && slot.Ok()
    && (slot.cur.None? <==> sharers == {} && owners == {})
    && (slot.cur.Some? ==>
          var cell := slot.cur.value;
          && cell.readers == |sharers|
          && (cell.writer.None? <==> owners == {})
          && |owners| <= 1
          && (forall l | l in owners :: cell.writer == Some(live[l].holder))
          && (forall l, m | l in owners && m in sharers :: live[l].holder == live[m].holder))
  }

  ghost predicate Refines(s: State)
  {
    && AllOk(s.slots)
    && forall k :: SlotRefines(Get(s.slots, k), s.live, k)
  }

  /** The requester already is the writer of one of the keys it asks for. */
  predicate Reentrant(s: State, req: Lease)
  {
    exists k | k in req.keys :: var cur := Get(s.slots, k).cur; cur.Some? && cur.value.writer == Some(req.holder)
  }

  /** The step takes no exclusive lease on a key its holder already holds exclusively. */
  ghost predicate NoNestedExclusive(s: State, step: Step)
  {
    step.Try? && step.req.mode.Exclusive? ==> !Reentrant(s, step.req)
  }

  lemma TakeSharedRefines(slot: Slot, live: map<nat, Lease>, k: Key, id: nat, req: Lease)
    requires SlotRefines(slot, live, k) && id !in live && k in req.keys
    requires req.mode.Shared? && CanTake(slot, Shared, req.holder)
    ensures SlotRefines(Take(slot, Shared, req.holder), live[id := req], k)
  {
    var sharers, owners := Sharers(live, k), Owners(live, k);
    SharedCounts(live, k, id, req);
    forall l | l in owners
      ensures live[l].holder == req.holder
    {
      assert slot.cur.value.writer == Some(live[l].holder);
    }
  }

  lemma SharedCounts(live: map<nat, Lease>, k: Key, id: nat, req: Lease)
    requires id !in live && k in req.keys && req.mode.Shared?
    ensures id !in Sharers(live, k) && Sharers(live[id := req], k) == Sharers(live, k) + {id}
    ensures Owners(live[id := req], k) == Owners(live, k)
  {
  }

  lemma TakeExclusiveRefines(slot: Slot, live: map<nat, Lease>, k: Key, id: nat, req: Lease)
    requires SlotRefines(slot, live, k) && id !in live && k in req.keys
    requires req.mode.Exclusive? && CanTake(slot, Exclusive, req.holder)
    requires slot.cur.None? || slot.cur.value.writer != Some(req.holder)
    ensures SlotRefines(Take(slot, Exclusive, req.holder), live[id := req], k)
  {
    var live' := live[id := req];
    assert Sharers(live', k) == Sharers(live, k) == {};
    assert Owners(live', k) == {id} by { assert Owners(live, k) == {}; }
  }

  lemma TakeRefines(slot: Slot, live: map<nat, Lease>, k: Key, id: nat, req: Lease)
    requires SlotRefines(slot, live, k) && id !in live && k in req.keys
    requires CanTake(slot, req.mode, req.holder)
    requires req.mode.Exclusive? ==> slot.cur.None? || slot.cur.value.writer != Some(req.holder)
    ensures SlotRefines(Take(slot, req.mode, req.holder), live[id := req], k)
  {
    if req.mode.Shared? {
      TakeSharedRefines(slot, live, k, id, req);
    } else {
      TakeExclusiveRefines(slot, live, k, id, req);
    }
  }

  lemma GiveBackRefines(slot: Slot, live: map<nat, Lease>, k: Key, id: nat)
    requires SlotRefines(slot, live, k) && id in live && k in live[id].keys
    ensures SlotRefines(GiveBack(slot, live[id].mode, live[id].holder), live - {id}, k)
  {
    var live' := live - {id};
    if live[id].mode.Shared? {
      assert id in Sharers(live, k);
      assert Sharers(live', k) == Sharers(live, k) - {id} && Owners(live', k) == Owners(live, k);
    } else {
      assert id in Owners(live, k);
      assert Sharers(live', k) == Sharers(live, k) && Owners(live', k) == Owners(live, k) - {id};
    }
  }

  lemma OtherKeyRefines(slot: Slot, live: map<nat, Lease>, live': map<nat, Lease>, k: Key)
    requires SlotRefines(slot, live, k)
    requires forall l | l in live && k in live[l].keys :: l in live' && live'[l] == live[l]
    requires forall l | l in live' && k in live'[l].keys :: l in live && live'[l] == live[l]
    ensures SlotRefines(slot, live', k)
  {
    assert Sharers(live', k) == Sharers(live, k) && Owners(live', k) == Owners(live, k);
  }

  lemma StepRefines(s: State, step: Step)
    requires Refines(s) && Enabled(s, step) && NoNestedExclusive(s, step)
    ensures Refines(Next(s, step))
  {
    var s' := Next(s, step);
    forall k
      ensures SlotRefines(Get(s'.slots, k), s'.live, k)
    {
      var slot := Get(s.slots, k);
      match step
      case Try(id, req) =>
        if Grantable(s.slots, req) {
          if k in req.keys {
            TakeRefines(slot, s.live, k, id, req);
          } else {
            OtherKeyRefines(slot, s.live, s'.live, k);
          }
        }
      case Release(id) =>
        if id in s.live {
          if k in s.live[id].keys {
            GiveBackRefines(slot, s.live, k, id);
            assert Get(s'.slots, k) == GiveBack(slot, s.live[id].mode, s.live[id].holder);
          } else {
            OtherKeyRefines(slot, s.live, s'.live, k);
          }
        }
      case _ =>
    }
    assert AllOk(s'.slots) by {
      forall k | k in s'.slots ensures s'.slots[k].Ok() { assert Get(s'.slots, k) == s'.slots[k]; }
    }
  }

  // ------------------------------------------------------------------------------- runs

  ghost predicate Runs(s: State, steps: seq<Step>)
    decreases |steps|
  {
    steps == [] || (Enabled(s, steps[0]) && Runs(Next(s, steps[0]), steps[1..]))
  }

  ghost function After(s: State, steps: seq<Step>): State
    requires Runs(s, steps)
    decreases |steps|
  {
    if steps == [] then s else After(Next(s, steps[0]), steps[1..])
  }

  ghost predicate NeverNestedExclusive(s: State, steps: seq<Step>)
    requires Runs(s, steps)
    decreases |steps|
  {
    steps == [] || (NoNestedExclusive(s, steps[0]) && NeverNestedExclusive(Next(s, steps[0]), steps[1..]))
  }

  lemma {:induction false} RunRefines(s: State, steps: seq<Step>)
    requires Refines(s) && Runs(s, steps) && NeverNestedExclusive(s, steps)
    ensures Refines(After(s, steps))
    decreases |steps|
  {
    if steps != [] {
      StepRefines(s, steps[0]);
      RunRefines(Next(s, steps[0]), steps[1..]);
    }
  }

  lemma StartRefines()
    ensures Refines(START)
  {
    forall k
      ensures SlotRefines(Get(START.slots, k), START.live, k)
    {
      assert Sharers(START.live, k) == {} && Owners(START.live, k) == {};
    }
  }

  /** A live exclusive lease keeps every other holder off each of its keys. */
  lemma ExclusiveExcludes(steps: seq<Step>, l: nat, m: nat, k: Key)
    requires Runs(START, steps) && NeverNestedExclusive(START, steps)
    requires var live := After(START, steps).live;
             && l in live && m in live && k in live[l].keys && k in live[m].keys
             && live[l].mode.Exclusive?
    ensures After(START, steps).live[l].holder == After(START, steps).live[m].holder
  {
    StartRefines();
    RunRefines(START, steps);
    var s := After(START, steps);
    assert SlotRefines(Get(s.slots, k), s.live, k);
    assert l in Owners(s.live, k);
    assert m in Owners(s.live, k) || m in Sharers(s.live, k);
  }

  ghost predicate TableEmpty(s: State) { forall k :: Get(s.slots, k).cur.None? }

  /** No key stays in the table without a live lease, and none is missing; so once the last lease is
      released any request is granted. */
  lemma TableEmptyIffIdle(steps: seq<Step>, req: Lease)
    requires Runs(START, steps) && NeverNestedExclusive(START, steps)
    ensures var s := After(START, steps);
            && (TableEmpty(s) <==> forall l | l in s.live :: s.live[l].keys == {})
            && (TableEmpty(s) ==> Grantable(s.slots, req))
  {
    StartRefines();
    RunRefines(START, steps);
    var s := After(START, steps);
    forall l, k | l in s.live && k in s.live[l].keys
      ensures Get(s.slots, k).cur.Some?
    {
      assert SlotRefines(Get(s.slots, k), s.live, k);
      assert l in Sharers(s.live, k) || l in Owners(s.live, k);
    }
    if forall l | l in s.live :: s.live[l].keys == {} {
      forall k
        ensures Get(s.slots, k).cur.None?
      {
        assert SlotRefines(Get(s.slots, k), s.live, k);
        assert Sharers(s.live, k) == {} && Owners(s.live, k) == {};
      }
    } else {
      var l :| l in s.live && s.live[l].keys != {};
      var k :| k in s.live[l].keys;
      assert Get(s.slots, k).cur.Some?;
    }
  }

  /** Releasing a lease undoes exactly what taking it did to the counters, unless it was an exclusive
      lease on a key the holder already had: then, and only then, the table loses the outer one. */
  lemma ReleaseUndoesAcquireIff(s: State, id: nat, req: Lease)
    requires Refines(s) && Enabled(s, Try(id, req)) && Grantable(s.slots, req)
    ensures var t := Next(s, Try(id, req));
            && AllOk(t.slots)
            && ((forall k :: Get(Next(t, Release(id)).slots, k).cur == Get(s.slots, k).cur)
                <==> (req.mode.Exclusive? ==> !Reentrant(s, req)))
  {
    var t := Next(s, Try(id, req));
    forall k | k in t.slots
      ensures t.slots[k].Ok()
    {
      assert SlotRefines(Get(s.slots, k), s.live, k);
    }
    var u := Next(t, Release(id));
    forall k
      ensures Get(u.slots, k).cur ==
              if k in req.keys && req.mode.Exclusive? && Get(s.slots, k).cur.Some? then None else Get(s.slots, k).cur
    {
      var slot := Get(s.slots, k);
      assert SlotRefines(slot, s.live, k);
      if k in req.keys {
        assert Get(t.slots, k) == Take(slot, req.mode, req.holder);
        assert Get(u.slots, k) == GiveBack(Take(slot, req.mode, req.holder), req.mode, req.holder);
      }
    }
    if req.mode.Exclusive? {
      forall k | k in req.keys
        ensures Get(s.slots, k).cur.Some? <==>
                Get(s.slots, k).cur.Some? && Get(s.slots, k).cur.value.writer == Some(req.holder)
      {
        assert SlotRefines(Get(s.slots, k), s.live, k);
        assert CanTake(Get(s.slots, k), req.mode, req.holder);
        if Get(s.slots, k).cur.Some? {
          assert Get(s.slots, k).cur.value.writer.Some?;
        }
      }
    }
  }

  /** A lease that is live on the key agrees with the request: a reader with another reader, a writer with its own
      holder. */
  predicate Agrees(lease: Lease, mode: Mode, holder: Holder)
  {
    if lease.mode.Exclusive? then lease.holder == holder else mode.Shared?
  }

  lemma CanTakeIff(s: State, k: Key, mode: Mode, holder: Holder)
    requires Refines(s)
    ensures CanTake(Get(s.slots, k), mode, holder)
       <==> forall l | l in s.live && k in s.live[l].keys :: Agrees(s.live[l], mode, holder)
  {
    var slot, sharers, owners := Get(s.slots, k), Sharers(s.live, k), Owners(s.live, k);
    assert SlotRefines(slot, s.live, k);
    assert forall l | l in s.live && k in s.live[l].keys :: l in sharers || l in owners;
    assert forall l | l in sharers || l in owners :: l in s.live && k in s.live[l].keys;
    if slot.cur.Some? && !CanTake(slot, mode, holder) {
      if slot.cur.value.writer.Some? && slot.cur.value.writer.value != holder {
        var l :| l in owners;
        assert !Agrees(s.live[l], mode, holder);
      } else {
        assert sharers != {};
        var l :| l in sharers;
        assert !Agrees(s.live[l], mode, holder);
      }
    }
  }

  /** A request is granted at once exactly if every lease that is live on one of its keys agrees with it: readers
      share, a holder may write what it already writes, and everything else waits. */
  lemma GrantableIff(s: State, req: Lease)
    requires Refines(s)
    ensures Grantable(s.slots, req)
       <==> forall l, k | l in s.live && k in req.keys && k in s.live[l].keys :: Agrees(s.live[l], req.mode, req.holder)
  {
    forall k | k in req.keys
      ensures CanTake(Get(s.slots, k), req.mode, req.holder)
         <==> forall l | l in s.live && k in s.live[l].keys :: Agrees(s.live[l], req.mode, req.holder)
    {
      CanTakeIff(s, k, req.mode, req.holder);
    }
  }

  // -------------------------------------------------------------------- no lost wake-up

  /** No shared request of this step comes from a holder that already is the writer of a key it asks for. */
  ghost predicate NoSharedReentry(s: State, step: Step)
  {
    step.Try? && step.req.mode.Shared? ==> !Reentrant(s, step.req)
  }

  /** A key in the table is held, and never by a writer and readers at once. */
  predicate Tidy(slot: Slot)
  {
    && slot.Ok()
    && (slot.cur.Some? ==> !slot.cur.value.Free() && (slot.cur.value.writer.None? || slot.cur.value.readers == 0))
  }

  /** The state object a waiter sleeps on for `k` still blocks it, or it was dropped from the table with
      its event set. */
  predicate Sound(slot: Slot, req: Lease, i: nat)
  {
    && i < |slot.flags|
    && if slot.Attached(i) then !CanTake(slot, req.mode, req.holder) else slot.flags[i]
  }

  ghost predicate SoundWaiter(slots: Slots, w: Waiter)
  {
    && w.sleeps != map[]
    && (forall k | k in w.sleeps :: k in w.req.keys && k in slots && Sound(slots[k], w.req, w.sleeps[k]))
    && (w.armed && SomeSet(slots, w.sleeps) ==> w.woken)
  }

  predicate HoldsExclusively(live: map<nat, Lease>, l: nat, k: Key, holder: Holder)
  {
    l in live && live[l].mode.Exclusive? && k in live[l].keys && live[l].holder == holder
  }

  /** The writer of a key still has an exclusive lease on it. */
  ghost predicate WriterLives(slot: Slot, live: map<nat, Lease>, k: Key)
  {
    slot.cur.Some? && slot.cur.value.writer.Some? ==>
      exists l :: HoldsExclusively(live, l, k, slot.cur.value.writer.value)
  }

  ghost predicate TableAwake(s: State)
  {
    forall k | k in s.slots :: Tidy(s.slots[k]) && WriterLives(s.slots[k], s.live, k)
  }

  ghost predicate Awake(s: State)
  {
    TableAwake(s) && forall id | id in s.waiting :: SoundWaiter(s.slots, s.waiting[id])
  }

  lemma TakeTidy(slot: Slot, live: map<nat, Lease>, k: Key, id: nat, req: Lease)
    requires Tidy(slot) && WriterLives(slot, live, k) && CanTake(slot, req.mode, req.holder) && id !in live
    requires k in req.keys
    requires req.mode.Shared? ==> slot.cur.None? || slot.cur.value.writer != Some(req.holder)
    ensures Tidy(Take(slot, req.mode, req.holder)) && WriterLives(Take(slot, req.mode, req.holder), live[id := req], k)
  {
    var live' := live[id := req];
    if req.mode.Exclusive? {
      assert HoldsExclusively(live', id, k, req.holder);
    }
  }

  lemma WriterStays(slot: Slot, live: map<nat, Lease>, id: nat, req: Lease, k: Key)
    requires WriterLives(slot, live, k) && id !in live
    ensures WriterLives(slot, live[id := req], k)
  {
    if slot.cur.Some? && slot.cur.value.writer.Some? {
      var l :| HoldsExclusively(live, l, k, slot.cur.value.writer.value);
      assert HoldsExclusively(live[id := req], l, k, slot.cur.value.writer.value);
    }
  }

  lemma GiveBackTidy(slot: Slot, live: map<nat, Lease>, k: Key, id: nat)
    requires Tidy(slot) && WriterLives(slot, live, k) && id in live
    ensures var after := if k in live[id].keys then GiveBack(slot, live[id].mode, live[id].holder) else slot;
            Tidy(after) && WriterLives(after, live - {id}, k)
  {
    var after := if k in live[id].keys then GiveBack(slot, live[id].mode, live[id].holder) else slot;
    if after.cur.Some? && after.cur.value.writer.Some? {
      var l :| HoldsExclusively(live, l, k, after.cur.value.writer.value);
      assert HoldsExclusively(live - {id}, l, k, after.cur.value.writer.value);
    }
  }

  /** Another coroutine taking the key leaves a blocked waiter blocked. */
  lemma TakeKeepsSound(slot: Slot, req: Lease, i: nat, other: Lease)
    requires Tidy(slot) && Sound(slot, req, i) && CanTake(slot, other.mode, other.holder)
    requires other.mode.Shared? ==> slot.cur.None? || slot.cur.value.writer != Some(other.holder)
    ensures Sound(Take(slot, other.mode, other.holder), req, i)
  {
  }

  /** A lease given back leaves the waiter blocked on the same object, or drops the object with its event
      set. */
  lemma GiveBackKeepsSound(slot: Slot, req: Lease, i: nat, mode: Mode, holder: Holder)
    requires Tidy(slot) && Sound(slot, req, i)
    ensures Sound(GiveBack(slot, mode, holder), req, i)
  {
  }

  lemma StepTable(s: State, step: Step)
    requires TableAwake(s) && Enabled(s, step) && NoSharedReentry(s, step)
    ensures TableAwake(Next(s, step))
  {
    var s' := Next(s, step);
    forall k | k in s'.slots
      ensures Tidy(s'.slots[k]) && WriterLives(s'.slots[k], s'.live, k)
    {
      match step
      case Try(id, req) =>
        if Grantable(s.slots, req) {
          if k in req.keys {
            TakeTidy(Get(s.slots, k), s.live, k, id, req);
          } else {
            WriterStays(s.slots[k], s.live, id, req, k);
          }
        }
      case Release(id) => if id in s.live { GiveBackTidy(s.slots[k], s.live, k, id); }
      case _ =>
    }
  }

  lemma GrantKeepsWaiter(s: State, id: nat, req: Lease, w: Waiter)
    requires TableAwake(s) && Enabled(s, Try(id, req)) && NoSharedReentry(s, Try(id, req)) && Grantable(s.slots, req)
    requires SoundWaiter(s.slots, w)
    ensures SoundWaiter(TakeAll(s.slots, req.keys, req.mode, req.holder), w)
  {
    var slots' := TakeAll(s.slots, req.keys, req.mode, req.holder);
    forall k | k in w.sleeps
      ensures Sound(slots'[k], w.req, w.sleeps[k])
      ensures FlagSet(slots', k, w.sleeps[k]) == FlagSet(s.slots, k, w.sleeps[k])
    {
      if k in req.keys {
        TakeKeepsSound(s.slots[k], w.req, w.sleeps[k], req);
      }
    }
  }

  lemma ClearKeepsWaiter(s: State, keys: set<Key>, w: Waiter)
    requires TableAwake(s) && AllOk(s.slots) && SoundWaiter(s.slots, w)
    requires forall k | k in keys :: k in s.slots && s.slots[k].cur.Some?
    ensures SoundWaiter(ClearAll(s.slots, keys), w)
  {
    var slots' := ClearAll(s.slots, keys);
    forall k | k in w.sleeps
      ensures Sound(slots'[k], w.req, w.sleeps[k])
      ensures FlagSet(slots', k, w.sleeps[k]) ==> FlagSet(s.slots, k, w.sleeps[k])
    {
    }
  }

  lemma ReleaseKeepsWaiter(s: State, id: nat, w: Waiter)
    requires TableAwake(s) && AllOk(s.slots) && id in s.live && SoundWaiter(s.slots, w)
    ensures var l := s.live[id]; SoundWaiter(GiveBackAll(s.slots, l.keys, l.mode, l.holder), Wake(s.slots, l.keys, w))
  {
    var l := s.live[id];
    var slots' := GiveBackAll(s.slots, l.keys, l.mode, l.holder);
    forall k | k in w.sleeps
      ensures Sound(slots'[k], w.req, w.sleeps[k])
      ensures FlagSet(slots', k, w.sleeps[k]) ==>
                FlagSet(s.slots, k, w.sleeps[k]) || (k in l.keys && s.slots[k].Attached(w.sleeps[k]))
    {
      if k in l.keys {
        GiveBackKeepsSound(s.slots[k], w.req, w.sleeps[k], l.mode, l.holder);
      }
    }
  }

  lemma GrantAwake(s: State, id: nat, req: Lease)
    requires Awake(s) && Enabled(s, Try(id, req)) && NoSharedReentry(s, Try(id, req)) && Grantable(s.slots, req)
    ensures var s' := Next(s, Try(id, req)); forall w | w in s'.waiting :: SoundWaiter(s'.slots, s'.waiting[w])
  {
    forall w | w in s.waiting ensures SoundWaiter(TakeAll(s.slots, req.keys, req.mode, req.holder), s.waiting[w]) {
      GrantKeepsWaiter(s, id, req, s.waiting[w]);
    }
  }

  lemma BlockedIsSound(slots: Slots, req: Lease)
    requires AllOk(slots) && !Grantable(slots, req)
    requires forall k | k in Blockers(slots, req) :: k in slots && slots[k].cur.Some? && |slots[k].flags| > 0
    ensures SoundWaiter(ClearAll(slots, Blockers(slots, req)),
                        Waiter(req, Snapshot(slots, Blockers(slots, req)), false, false))
  {
    var k :| k in req.keys && !CanTake(Get(slots, k), req.mode, req.holder);
    assert k in Snapshot(slots, Blockers(slots, req));
  }

  lemma BlockAwake(s: State, id: nat, req: Lease)
    requires Awake(s) && Enabled(s, Try(id, req)) && !Grantable(s.slots, req)
    ensures var s' := Next(s, Try(id, req)); forall w | w in s'.waiting :: SoundWaiter(s'.slots, s'.waiting[w])
  {
    BlockersAttached(s.slots, req);
    BlockedIsSound(s.slots, req);
    var blockers := Blockers(s.slots, req);
    forall w | w in s.waiting ensures SoundWaiter(ClearAll(s.slots, blockers), s.waiting[w]) {
      ClearKeepsWaiter(s, blockers, s.waiting[w]);
    }
  }

  lemma StepAwake(s: State, step: Step)
    requires Awake(s) && Enabled(s, step) && NoSharedReentry(s, step)
    ensures Awake(Next(s, step))
  {
    var s' := Next(s, step);
    StepTable(s, step);
    match step
    case Try(id, req) => if Grantable(s.slots, req) { GrantAwake(s, id, req); } else { BlockAwake(s, id, req); }
    case Release(l) =>
      if l in s.live {
        forall w | w in s'.waiting
          ensures SoundWaiter(s'.slots, s'.waiting[w])
        {
          ReleaseKeepsWaiter(s, l, s.waiting[w]);
        }
      }
    case _ =>
  }

  ghost predicate NeverSharedReentrant(s: State, steps: seq<Step>)
    requires Runs(s, steps)
    decreases |steps|
  {
    steps == [] || (NoSharedReentry(s, steps[0]) && NeverSharedReentrant(Next(s, steps[0]), steps[1..]))
  }

  lemma {:induction false} RunAwake(s: State, steps: seq<Step>)
    requires Awake(s) && Runs(s, steps) && NeverSharedReentrant(s, steps)
    ensures Awake(After(s, steps))
    decreases |steps|
  {
    if steps != [] {
      StepAwake(s, steps[0]);
      RunAwake(Next(s, steps[0]), steps[1..]);
    }
  }

  /** A coroutine that waits for keys it could have is left asleep: its wait tasks run, no event is set. */
  ghost predicate LeftAsleep(s: State, id: nat)
  {
    && id in s.waiting && Grantable(s.slots, s.waiting[id].req)
    && s.waiting[id].armed && !s.waiting[id].woken && !SomeSet(s.slots, s.waiting[id].sleeps)
  }

  lemma AwakeMeans(s: State, id: nat)
    requires Awake(s) && id in s.waiting && Grantable(s.slots, s.waiting[id].req)
    ensures var w := s.waiting[id];
            && SomeSet(s.slots, w.sleeps)
            && (forall k | k in w.sleeps :: FlagSet(s.slots, k, w.sleeps[k]))
            && (w.armed ==> w.woken)
  {
    var w := s.waiting[id];
    forall k | k in w.sleeps
      ensures FlagSet(s.slots, k, w.sleeps[k])
    {
      assert CanTake(Get(s.slots, k), w.req.mode, w.req.holder);
    }
    var k :| k in w.sleeps;
    assert FlagSet(s.slots, k, w.sleeps[k]);
  }

  /** A coroutine that waits for keys it could have had is never left asleep: every event it snapshotted
      is set, and once its wait tasks run it has been woken. Holders may nest in every way but one. */
  lemma NoLostWakeup(steps: seq<Step>, id: nat)
    requires Runs(START, steps) && NeverSharedReentrant(START, steps)
    requires var s := After(START, steps); id in s.waiting && Grantable(s.slots, s.waiting[id].req)
    ensures var s := After(START, steps);
            var w := s.waiting[id];
            && SomeSet(s.slots, w.sleeps)
            && (forall k | k in w.sleeps :: FlagSet(s.slots, k, w.sleeps[k]))
            && (w.armed ==> w.woken)
  {
    RunAwake(START, steps);
    AwakeMeans(After(START, steps), id);
  }

  // ------------------------------------------------------------- and nobody waits busily

  /** The waiter is asleep: it was not woken and none of the events it sleeps on is set. */
  ghost predicate Sleeping(s: State, id: nat)
  {
    && id in s.waiting && !s.waiting[id].woken && !SomeSet(s.slots, s.waiting[id].sleeps)
    && forall k | k in s.waiting[id].sleeps :: k in s.slots && s.waiting[id].sleeps[k] < |s.slots[k].flags|
  }

  /** The step is none of the waiter's own passes and gives back none of the keys it sleeps on. */
  ghost predicate Spares(s: State, step: Step, id: nat)
  {
    match step
    case Try(other, _) => other != id
    case Arm(_) => true
    case Timeout(other) => other != id
    case Release(l) => id in s.waiting && l in s.live ==> s.live[l].keys !! s.waiting[id].sleeps.Keys
  }

  ghost predicate AllSpare(s: State, steps: seq<Step>, id: nat)
    requires Runs(s, steps)
    decreases |steps|
  {
    steps == [] || (Spares(s, steps[0], id) && AllSpare(Next(s, steps[0]), steps[1..], id))
  }

  /** The table grows, and a flag that is not among the cleared or returned ones stays. */
  lemma FlagStays(s: State, step: Step, k: Key, i: nat)
    requires Enabled(s, step) && k in s.slots && i < |s.slots[k].flags| && !s.slots[k].flags[i]
    requires step.Release? && step.id in s.live ==> k !in s.live[step.id].keys
    ensures var slots := Next(s, step).slots; k in slots && i < |slots[k].flags| && !slots[k].flags[i]
  {
  }

  lemma StepSleeping(s: State, step: Step, id: nat)
    requires Enabled(s, step) && Sleeping(s, id) && Spares(s, step, id)
    ensures Sleeping(Next(s, step), id)
  {
    var w := s.waiting[id];
    forall k | k in w.sleeps
      ensures var slots := Next(s, step).slots;
              k in slots && w.sleeps[k] < |slots[k].flags| && !slots[k].flags[w.sleeps[k]]
    {
      assert !FlagSet(s.slots, k, w.sleeps[k]);
      FlagStays(s, step, k, w.sleeps[k]);
    }
  }

  /** A refused pass puts the coroutine to sleep, on exactly the keys that refused it, and asleep it stays over every
      run in which it does not come round again and nobody gives one of these keys back. */
  lemma RefusedSleeps(s: State, id: nat, req: Lease)
    requires Enabled(s, Try(id, req)) && !Grantable(s.slots, req)
    ensures var next := Next(s, Try(id, req));
            && Sleeping(next, id) && next.live == s.live
            && next.waiting[id].sleeps.Keys == set k | k in req.keys && !CanTake(Get(s.slots, k), req.mode, req.holder)
  {
    BlockersAttached(s.slots, req);
  }

  lemma {:induction false} SleepsUntilGivenBack(s: State, steps: seq<Step>, id: nat)
    requires Runs(s, steps) && Sleeping(s, id) && AllSpare(s, steps, id)
    ensures Sleeping(After(s, steps), id)
    decreases |steps|
  {
    if steps != [] {
      StepSleeping(s, steps[0], id);
      SleepsUntilGivenBack(Next(s, steps[0]), steps[1..], id);
    }
  }

  /** Giving a lease back wakes a sleeping coroutine exactly if its wait tasks run and it sleeps on one of the keys; if
      they do not run yet, they find the event set. */
  lemma GivenBackWakesIff(s: State, id: nat, l: nat)
    requires Awake(s) && Sleeping(s, id) && Enabled(s, Release(l)) && l in s.live
    ensures var w, next := s.waiting[id], Next(s, Release(l));
            var shared := exists k :: k in w.sleeps && k in s.live[l].keys;
            && id in next.waiting && next.waiting[id] == w.(woken := w.armed && shared)
            && (SomeSet(next.slots, w.sleeps) <==> shared)
  {
    var w, next := s.waiting[id], Next(s, Release(l));
    forall k | k in w.sleeps
      ensures s.slots[k].Attached(w.sleeps[k]) && k in next.slots
      ensures FlagSet(next.slots, k, w.sleeps[k]) <==> k in s.live[l].keys
    {
      assert !FlagSet(s.slots, k, w.sleeps[k]) && Sound(s.slots[k], w.req, w.sleeps[k]);
    }
  }

  // ------------------------------------------------------------- no release takes a key from another

  predicate Writes(s: State, k: Key, holder: Holder)
  {
    Get(s.slots, k).cur.Some? && Get(s.slots, k).cur.value.writer == Some(holder)
  }

  /** The holder gives no lease back in this run. */
  ghost predicate GivesNothingBack(s: State, steps: seq<Step>, holder: Holder)
    requires Runs(s, steps)
    decreases |steps|
  {
    steps == [] ||
    (&& (steps[0].Release? && steps[0].id in s.live ==> s.live[steps[0].id].holder != holder)
     && GivesNothingBack(Next(s, steps[0]), steps[1..], holder))
  }

  /** However leases are nested, over every run in which the writer of a key itself gives nothing back it stays the
      writer, whatever others release, and nobody else is granted anything on that key. */
  lemma {:induction false} WriterIsSafe(s: State, steps: seq<Step>, k: Key, holder: Holder)
    requires Runs(s, steps) && Writes(s, k, holder) && GivesNothingBack(s, steps, holder)
    ensures Writes(After(s, steps), k, holder)
    ensures forall mode, other | other != holder :: !CanTake(Get(After(s, steps).slots, k), mode, other)
    decreases |steps|
  {
    if steps != [] {
      assert Writes(Next(s, steps[0]), k, holder);
      WriterIsSafe(Next(s, steps[0]), steps[1..], k, holder);
    }
  }

  // ------------------------------------------------------------- where nesting breaks it

  /** `writer` is not a count. Whenever a holder takes an exclusive lease on a key it already holds
      exclusively and gives it back, its outer lease is still live and anyone can take the key. */
  lemma NestedExclusiveLosesTheOuterLease(s: State, id: nat, req: Lease)
    requires Refines(s) && Enabled(s, Try(id, req)) && Grantable(s.slots, req)
    requires req.mode.Exclusive? && Reentrant(s, req)
    ensures AllOk(Next(s, Try(id, req)).slots)
    ensures var u := Next(Next(s, Try(id, req)), Release(id));
            exists l, k ::
              && l in u.live && u.live[l].mode.Exclusive? && k in u.live[l].keys && u.live[l].holder == req.holder
              && forall mode, holder :: CanTake(Get(u.slots, k), mode, holder)
  {
    ReleaseUndoesAcquireIff(s, id, req);
    var u := Next(Next(s, Try(id, req)), Release(id));
    var k :| k in req.keys && Get(s.slots, k).cur.Some? && Get(s.slots, k).cur.value.writer == Some(req.holder);
    assert SlotRefines(Get(s.slots, k), s.live, k);
    var l :| l in Owners(s.live, k);
    assert Get(u.slots, k) == GiveBack(Take(Get(s.slots, k), Exclusive, req.holder), Exclusive, req.holder);
    assert l in u.live && u.live[l] == s.live[l];
  }

  // ------------------------------------------------------------- the one way to lose a wake-up

  lemma NewId(s: State, not: nat) returns (id: nat)
    ensures id !in s.live && id !in s.waiting && id != not
  {
    id := Above(s.live.Keys + s.waiting.Keys + {not});
  }

  lemma {:induction false} Above(ids: set<nat>) returns (id: nat)
    ensures forall i | i in ids :: i < id
    decreases |ids|
  {
    if ids == {} {
      id := 0;
    } else {
      var i :| i in ids;
      var rest := Above(ids - {i});
      id := if rest > i then rest else i + 1;
      forall j | j in ids ensures j < id { assert j == i || j in ids - {i}; }
    }
  }

  /** A shared request for one key by somebody other than its writer is refused: it sleeps on the attached
      object, whose event is now clear. */
  lemma BlockOne(s: State, id: nat, k: Key, mode: Mode, holder: Holder)
    requires AllOk(s.slots) && k in s.slots && s.slots[k].cur.Some? && id !in s.live && id !in s.waiting
    requires !CanTake(s.slots[k], mode, holder)
    ensures var step := Try(id, Lease({k}, mode, holder));
            && Enabled(s, step)
            && var t := Next(s, step);
               && t.live == s.live && k in t.slots && t.slots[k] == Clear(s.slots[k])
               && t.waiting == s.waiting[id := Waiter(step.req, map[k := |s.slots[k].flags| - 1], false, false)]
               && AllOk(t.slots)
  {
    var req := Lease({k}, mode, holder);
    assert k in req.keys && Get(s.slots, k) == s.slots[k];
    assert Blockers(s.slots, req) == {k};
    assert Snapshot(s.slots, {k}) == map[k := |s.slots[k].flags| - 1];
  }

  /** What the release of a writer's lease does to a key with one nested reader, and to a coroutine whose wait
      tasks have not started. */
  lemma StepDown(s: State, l: nat, k: Key, id: nat, holder: Holder)
    requires AllOk(s.slots) && k in s.slots && s.slots[k].cur == Some(Cell(1, Some(holder)))
    requires HoldsExclusively(s.live, l, k, holder) && id in s.waiting && !s.waiting[id].armed
    ensures Enabled(s, Release(l))
    ensures var t := Next(s, Release(l));
            && AllOk(t.slots) && k in t.slots && t.slots[k].cur == Some(Cell(1, None))
            && |t.slots[k].flags| == |s.slots[k].flags|
            && t.live == s.live - {l} && id in t.waiting && t.waiting[id] == s.waiting[id]
            && t.waiting.Keys == s.waiting.Keys
  {
    var lease, t := s.live[l], Next(s, Release(l));
    forall q | q in t.slots ensures t.slots[q].Ok() { }
  }

  /** A run without shared re-entry and without nested exclusive leases that ends in a state. */
  ghost predicate RunsTo(s: State, steps: seq<Step>, end: State)
  {
    Runs(s, steps) && NeverSharedReentrant(s, steps) && NeverNestedExclusive(s, steps) && After(s, steps) == end
  }

  lemma RunsMore(s: State, step: Step, t: State, rest: seq<Step>, end: State)
    requires Enabled(s, step) && t == Next(s, step) && RunsTo(t, rest, end)
    requires NoSharedReentry(s, step) && NoNestedExclusive(s, step)
    ensures RunsTo(s, [step] + rest, end)
  {
    var steps := [step] + rest;
    assert steps[0] == step && steps[1..] == rest;
  }

  /** A waiter "a" is blocked by the writer; the writer steps down to its own nested reader; the pass of an
      exclusive request "b" clears the event; only then the wait tasks of "a" start. */
  lemma NestedReaderStrands(s: State, k: Key, holder: Holder) returns (steps: seq<Step>, id: nat)
    requires AllOk(s.slots) && k in s.slots && s.slots[k].cur == Some(Cell(1, Some(holder)))
    requires exists l :: HoldsExclusively(s.live, l, k, holder)
    ensures Loses(s, steps, id) && NeverNestedExclusive(s, steps)
  {
    var l :| HoldsExclusively(s.live, l, k, holder);
    id := NewId(s, l);
    var other := holder + "x";
    var a := Try(id, Lease({k}, Shared, other));
    BlockOne(s, id, k, Shared, other);
    var t := Next(s, a);
    StepDown(t, l, k, id, holder);
    var u := Next(t, Release(l));
    steps := StrandsBehindReader(u, id, k, other);
    var end := After(u, steps);
    RunsMore(t, Release(l), u, steps, end);
    NewcomersDoNotNest(s, k, holder, other, a);
    RunsMore(s, a, t, [Release(l)] + steps, end);
    steps := [a] + ([Release(l)] + steps);
  }

  lemma NewcomersDoNotNest(s: State, k: Key, holder: Holder, other: Holder, step: Step)
    requires k in s.slots && s.slots[k].cur.Some? && s.slots[k].cur.value.writer == Some(holder) && holder != other
    requires step.Try? && step.req == Lease({k}, Shared, other)
    ensures NoSharedReentry(s, step) && NoNestedExclusive(s, step)
  {
    assert Get(s.slots, k) == s.slots[k];
  }

  /** Behind one reader an exclusive request clears the event; then the wait tasks of the waiter start. */
  lemma StrandsBehindReader(u: State, id: nat, k: Key, other: Holder) returns (steps: seq<Step>)
    requires AllOk(u.slots) && k in u.slots && u.slots[k].cur == Some(Cell(1, None)) && id in u.waiting
    requires u.waiting[id] == Waiter(Lease({k}, Shared, other), map[k := |u.slots[k].flags| - 1], false, false)
    ensures Runs(u, steps) && RunsTo(u, steps, After(u, steps)) && LeftAsleep(After(u, steps), id)
  {
    var id' := NewId(u, id);
    var c := Try(id', Lease({k}, Exclusive, other));
    BlockOne(u, id', k, Exclusive, other);
    var v := Next(u, c);
    Asleep(v, id, k, other);
    var w := Next(v, Arm(id));
    RunsMore(v, Arm(id), w, [], w);
    assert Get(u.slots, k) == u.slots[k];
    RunsMore(u, c, v, [Arm(id)] + [], w);
    steps := [c] + ([Arm(id)] + []);
  }

  lemma Asleep(v: State, id: nat, k: Key, other: Holder)
    requires AllOk(v.slots) && k in v.slots && v.slots[k].cur == Some(Cell(1, None)) && |v.slots[k].flags| > 0
    requires !v.slots[k].flags[|v.slots[k].flags| - 1]
    requires id in v.waiting
    requires v.waiting[id] == Waiter(Lease({k}, Shared, other), map[k := |v.slots[k].flags| - 1], false, false)
    ensures Enabled(v, Arm(id)) && LeftAsleep(Next(v, Arm(id)), id)
  {
    var w := Next(v, Arm(id));
    assert Get(w.slots, k) == v.slots[k];
    assert forall q | q in w.waiting[id].sleeps :: q == k;
  }

  /** A run without shared re-entry leaves a waiter asleep. */
  ghost predicate Loses(s: State, steps: seq<Step>, id: nat)
  {
    Runs(s, steps) && NeverSharedReentrant(s, steps) && LeftAsleep(After(s, steps), id)
  }

  /** Granting a request can lose a wake-up, in some continuation without further shared re-entry, if and only
      if it is a shared request by the writer of one of its keys. */
  lemma WakeupLostIff(s: State, id: nat, req: Lease)
    requires Awake(s) && Enabled(s, Try(id, req)) && Grantable(s.slots, req)
    ensures var t := Next(s, Try(id, req));
            (exists steps, waiter :: Loses(t, steps, waiter)) <==> req.mode.Shared? && Reentrant(s, req)
  {
    var t := Next(s, Try(id, req));
    if req.mode.Shared? && Reentrant(s, req) {
      var k :| k in req.keys && Get(s.slots, k).cur.Some? && Get(s.slots, k).cur.value.writer == Some(req.holder);
      NestedGrant(s, id, req, k);
      var steps, waiter := NestedReaderStrands(t, k, req.holder);
      assert Loses(t, steps, waiter);
    } else {
      StepAwake(s, Try(id, req));
      forall steps, waiter
        ensures !Loses(t, steps, waiter)
      {
        NothingLost(t, steps, waiter);
      }
    }
  }

  lemma NothingLost(s: State, steps: seq<Step>, id: nat)
    requires Awake(s)
    ensures !Loses(s, steps, id)
  {
    if Runs(s, steps) && NeverSharedReentrant(s, steps) {
      RunAwake(s, steps);
      var t := After(s, steps);
      if id in t.waiting && Grantable(t.slots, t.waiting[id].req) {
        AwakeMeans(t, id);
      }
    }
  }

  lemma NestedGrant(s: State, id: nat, req: Lease, k: Key)
    requires Awake(s) && Enabled(s, Try(id, req)) && Grantable(s.slots, req) && req.mode.Shared?
    requires k in req.keys && Get(s.slots, k).cur.Some? && Get(s.slots, k).cur.value.writer == Some(req.holder)
    ensures var t := Next(s, Try(id, req));
            && AllOk(t.slots) && k in t.slots && t.slots[k].cur == Some(Cell(1, Some(req.holder)))
            && exists l :: HoldsExclusively(t.live, l, k, req.holder)
  {
    var t := Next(s, Try(id, req));
    assert Tidy(s.slots[k]) && WriterLives(s.slots[k], s.live, k);
    var l :| HoldsExclusively(s.live, l, k, req.holder);
    assert HoldsExclusively(t.live, l, k, req.holder);
    forall q | q in t.slots ensures t.slots[q].Ok() { }
  }

  lemma GrantOne(s: State, id: nat, k: Key, mode: Mode, holder: Holder)
    requires AllOk(s.slots) && CanTake(Get(s.slots, k), mode, holder) && id !in s.live && id !in s.waiting
    ensures var step := Try(id, Lease({k}, mode, holder));
            && Enabled(s, step) && Grantable(s.slots, step.req)
            && var t := Next(s, step);
               k in t.slots && t.slots[k] == Take(Get(s.slots, k), mode, holder) && t.live == s.live[id := step.req]
               && t.waiting.Keys == s.waiting.Keys
  {
    var step := Try(id, Lease({k}, mode, holder));
    assert k in step.req.keys;
  }

  lemma Prepend(s: State, step: Step, rest: seq<Step>)
    requires Enabled(s, step) && NoNestedExclusive(s, step)
    requires Runs(Next(s, step), rest) && NeverNestedExclusive(Next(s, step), rest)
    ensures Runs(s, [step] + rest) && NeverNestedExclusive(s, [step] + rest)
    ensures After(s, [step] + rest) == After(Next(s, step), rest)
  {
    assert ([step] + rest)[1..] == rest;
  }

  /** Such a request is within reach: one holder that takes a key exclusively and then shared is enough. */
  lemma NestedSharedLosesAWakeup(k: Key, holder: Holder) returns (steps: seq<Step>, id: nat)
    ensures Runs(START, steps) && NeverNestedExclusive(START, steps) && LeftAsleep(After(START, steps), id)
  {
    var outer, inner := Try(0, Lease({k}, Exclusive, holder)), Try(1, Lease({k}, Shared, holder));
    GrantOne(START, 0, k, Exclusive, holder);
    var s := Next(START, outer);
    StepAwake(START, outer);
    GrantOne(s, 1, k, Shared, holder);
    NestedGrant(s, 1, inner.req, k);
    var t := Next(s, inner);
    var rest;
    rest, id := NestedReaderStrands(t, k, holder);
    Prepend(s, inner, rest);
    Prepend(START, outer, [inner] + rest);
    steps := [outer] + ([inner] + rest);
  }

  // -------------------------------------------------------------- a holder that waits for itself

  /** The lease is live on a key that refuses the request. */
  predicate InTheWay(s: State, req: Lease, l: nat, k: Key)
  {
    k in Blockers(s.slots, req) && l in s.live && k in s.live[l].keys
  }

  /** Nothing but leases of its own holder is in the way of the request. */
  ghost predicate WaitsForItself(s: State, req: Lease)
  {
    forall l, k | InTheWay(s, req, l, k) :: s.live[l].holder == req.holder
  }

  /** The key has readers, and all of them are this holder's. */
  ghost predicate ReadByItself(s: State, k: Key, holder: Holder)
  {
    Sharers(s.live, k) != {} && forall l | l in Sharers(s.live, k) :: s.live[l].holder == holder
  }

  lemma InTheWayIff(s: State, req: Lease, k: Key)
    requires Refines(s) && k in Blockers(s.slots, req)
    ensures (forall l | l in s.live && k in s.live[l].keys :: s.live[l].holder == req.holder)
       <==> req.mode.Exclusive? && ReadByItself(s, k, req.holder)
  {
    var slot, sharers, owners := Get(s.slots, k), Sharers(s.live, k), Owners(s.live, k);
    assert SlotRefines(slot, s.live, k);
    assert forall l | l in s.live && k in s.live[l].keys :: l in sharers || l in owners;
    if slot.cur.value.writer.Some? && slot.cur.value.writer.value != req.holder {
      var l :| l in owners;
      assert s.live[l].holder != req.holder;
      if sharers != {} {
        var m :| m in sharers;
        assert s.live[m].holder == s.live[l].holder;
      }
    } else {
      assert sharers != {};
      if l :| l in owners {
        assert slot.cur.value.writer == Some(s.live[l].holder);
      }
    }
  }

  /** A refused request waits for nobody but its own holder exactly if it is exclusive and every key that refuses
      it is read by that holder alone. Sorting the keys does not prevent this wait. */
  lemma WaitsForItselfIff(s: State, req: Lease)
    requires Refines(s) && !Grantable(s.slots, req)
    ensures WaitsForItself(s, req)
       <==> req.mode.Exclusive? && forall k | k in Blockers(s.slots, req) :: ReadByItself(s, k, req.holder)
  {
    forall k | k in Blockers(s.slots, req)
      ensures (forall l | InTheWay(s, req, l, k) :: s.live[l].holder == req.holder)
         <==> req.mode.Exclusive? && ReadByItself(s, k, req.holder)
    {
      InTheWayIff(s, req, k);
      assert forall l :: InTheWay(s, req, l, k) <==> l in s.live && k in s.live[l].keys;
    }
    var k :| k in req.keys && !CanTake(Get(s.slots, k), req.mode, req.holder);
    assert k in Blockers(s.slots, req);
  }

  lemma ReadKeyRefuses(s: State, l: nat, k: Key, req: Lease)
    requires Refines(s) && l in Sharers(s.live, k) && req.mode.Exclusive? && k in req.keys
    ensures !Grantable(s.slots, req)
  {
    assert SlotRefines(Get(s.slots, k), s.live, k);
    assert |Sharers(s.live, k)| > 0;
  }

  /** And the wait lasts, whatever else happens, until that reader is released. */
  lemma {:induction false} WaitsUntilReleased(s: State, steps: seq<Step>, l: nat, k: Key, req: Lease)
    requires Refines(s) && Runs(s, steps) && NeverNestedExclusive(s, steps)
    requires l in Sharers(s.live, k) && req.mode.Exclusive? && k in req.keys
    requires forall i | 0 <= i < |steps| :: steps[i] != Release(l)
    ensures !Grantable(After(s, steps).slots, req)
    decreases |steps|
  {
    if steps == [] {
      ReadKeyRefuses(s, l, k, req);
    } else {
      StepRefines(s, steps[0]);
      WaitsUntilReleased(Next(s, steps[0]), steps[1..], l, k, req);
    }
  }

  lemma WriteWaits(s: State, k: Key, holder: Holder, write: Step)
    requires Refines(s) && s.live == map[0 := Lease({k}, Shared, holder)] && s.waiting == map[]
    requires k in s.slots && s.slots[k].cur == Some(Cell(1, None)) && write == Try(1, Lease({k}, Exclusive, holder))
    ensures Runs(s, [write]) && NeverNestedExclusive(s, [write])
    ensures var t := After(s, [write]);
            Refines(t) && 1 in t.waiting && !Grantable(t.slots, write.req) && WaitsForItself(t, write.req)
  {
    BlockOne(s, 1, k, Exclusive, holder);
    assert Get(s.slots, k) == s.slots[k];
    StepRefines(s, write);
    var t := Next(s, write);
    Prepend(s, write, []);
    assert [write] + [] == [write] && 0 in Sharers(t.live, k);
    ReadKeyRefuses(t, 0, k, write.req);
  }

  /** Such a wait is within reach: a holder that reads a key and then wants to write it. */
  lemma ReadThenWriteWaits(k: Key, holder: Holder)
    ensures var read, write := Try(0, Lease({k}, Shared, holder)), Try(1, Lease({k}, Exclusive, holder));
            && Runs(START, [read, write]) && NeverNestedExclusive(START, [read, write])
            && var s := After(START, [read, write]);
               Refines(s) && 1 in s.waiting && !Grantable(s.slots, write.req) && WaitsForItself(s, write.req)
  {
    var read, write := Try(0, Lease({k}, Shared, holder)), Try(1, Lease({k}, Exclusive, holder));
    StartRefines();
    GrantOne(START, 0, k, Shared, holder);
    StepRefines(START, read);
    WriteWaits(Next(START, read), k, holder, write);
    Prepend(START, read, [write]);
    assert [read] + [write] == [read, write];
  }
}
