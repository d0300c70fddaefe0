/** The in-process lease table as the program keeps it: a dictionary of mutable state objects
    (runtime/leases.py). Every method is proved against the slot functions of `LeaseTable`. */
module LeaseManagers {
  import opened Options
  import opened LeaseTable

  class KeyState {
    var readers: nat
    var writer: Option<Holder>
    var signalled: bool

    constructor ()
      ensures readers == 0 && writer == None && signalled
    {
      readers, writer, signalled := 0, None, true;
    }
  }

  class LeaseManager {
    var keys: map<Key, KeyState>
    /** For every key ever taken, the event flags its dropped state objects had when they were dropped.
        A dropped object is out of reach of every method here, so its flag keeps that value. */
    ghost var dropped: map<Key, seq<bool>>

    ghost predicate Valid()
      reads this
    {
      && keys.Keys <= dropped.Keys
      && forall k, l | k in keys && l in keys :: keys[k] == keys[l] ==> k == l
    }

    ghost function SlotOf(k: Key): Slot
      reads this, keys.Values
      requires Valid() && k in dropped
    {
      if k in keys then Slot(Some(Cell(keys[k].readers, keys[k].writer)), dropped[k] + [keys[k].signalled])
      else Slot(None, dropped[k])
    }

    ghost function View(): (slots: Slots)
      reads this, keys.Values
      requires Valid()
      ensures AllOk(slots)
    {
      map k | k in dropped :: SlotOf(k)
    }

    constructor ()
      ensures Valid() && View() == map[] && keys == map[]
    {
      keys, dropped := map[], map[];
    }

    method CanTakeKey(k: Key, mode: Mode, holder: Holder) returns (ok: bool)
      requires Valid()
      ensures ok == CanTake(Get(View(), k), mode, holder)
    {
      if k !in keys {
        return true;
      }
      var state := keys[k];
      if state.writer.Some? && state.writer.value != holder {
        return false;
      }
      if mode.Exclusive? && state.readers > 0 {
        return false;
      }
      return true;
    }

    /** State objects are not shared between keys: when only the object of `k` changed, only its slot did. */
    twostate lemma OtherSlotsKept(k: Key)
      requires old(Valid()) && Valid() && k in dropped
      requires forall l | l != k :: (l in dropped <==> l in old(dropped)) && (l in keys <==> l in old(keys))
      requires forall l | l != k && l in dropped :: dropped[l] == old(dropped)[l]
      requires forall l | l != k && l in keys :: keys[l] == old(keys)[l] && unchanged(keys[l])
      ensures View() == old(View())[k := SlotOf(k)]
    {
      forall l | l in dropped && l != k
        ensures SlotOf(l) == old(SlotOf(l))
      {
      }
    }

    /** The state object of `k`, made and attached if the key has none. */
    method StateOf(k: Key) returns (state: KeyState)
      requires Valid()
      modifies this
      ensures Valid() && k in keys && state == keys[k] && keys.Keys == old(keys.Keys) + {k}
      ensures forall l | l in keys :: if l in old(keys) then keys[l] == old(keys)[l] else fresh(keys[l])
      ensures View() == old(View())[k := Attach(Get(old(View()), k))]
      ensures k !in old(keys) ==> state.readers == 0 && state.writer == None && state.signalled
    {
      if k !in keys {
        state := new KeyState();
        keys, dropped := keys[k := state], dropped[k := if k in dropped then dropped[k] else []];
      } else {
        state := keys[k];
      }
      OtherSlotsKept(k);
    }

    method TakeKey(k: Key, mode: Mode, holder: Holder)
      requires Valid()
      modifies this, keys.Values
      ensures Valid() && keys.Keys == old(keys.Keys) + {k}
      ensures forall l | l in keys :: if l in old(keys) then keys[l] == old(keys)[l] else fresh(keys[l])
      ensures View() == old(View())[k := Take(Get(old(View()), k), mode, holder)]
    {
      ghost var before := View();
      var state := StateOf(k);
      ghost var between := View();
      TakeAttached(state, k, mode, holder);
      AttachedThenTaken(before, between, View(), k, mode, holder);
    }

    lemma AttachedThenTaken(before: Slots, between: Slots, after: Slots, k: Key, mode: Mode, holder: Holder)
      requires between == before[k := Attach(Get(before, k))] && after == between[k := Take(between[k], mode, holder)]
      ensures after == before[k := Take(Get(before, k), mode, holder)]
    {
    }

    method TakeAttached(state: KeyState, k: Key, mode: Mode, holder: Holder)
      requires Valid() && k in keys && state == keys[k]
      modifies state
      ensures Valid() && View() == old(View())[k := Take(old(View())[k], mode, holder)]
    {
      if mode.Exclusive? {
        state.writer := Some(holder);
      } else {
        state.readers := state.readers + 1;
      }
      OtherSlotsKept(k);
    }

    /** Gives back one key. The object that was attached has its event set, also when it is dropped. */
    method GiveBackKey(k: Key, mode: Mode, holder: Holder)
      requires Valid()
      modifies this, keys.Values
      ensures Valid() && forall l | l in keys :: l in old(keys) && keys[l] == old(keys)[l]
      ensures k !in old(keys) ==> View() == old(View())
      ensures k in old(keys) ==> old(keys[k]).signalled
      ensures k in old(keys) ==> View() == old(View())[k := GiveBack(old(SlotOf(k)), mode, holder)]
    {
      if k !in keys {
        return;
      }
      GiveBackAttached(k, mode, holder);
    }

    method GiveBackAttached(k: Key, mode: Mode, holder: Holder)
      requires Valid() && k in keys
      modifies this, keys[k]
      ensures Valid() && k in dropped && forall l | l in keys :: l in old(keys) && keys[l] == old(keys)[l]
      ensures old(keys[k]).signalled
      ensures SlotOf(k) == GiveBack(old(SlotOf(k)), mode, holder)
      ensures View() == old(View())[k := SlotOf(k)]
    {
      var state := keys[k];
      if mode.Exclusive? {
        if state.writer == Some(holder) {
          state.writer := None;
        }
      } else if state.readers > 0 {
        state.readers := state.readers - 1;
      }
      state.signalled := true;
      ghost var flags := old(dropped[k] + [keys[k].signalled]);
      assert flags[|flags| - 1 := true] == dropped[k] + [true];
      if state.readers == 0 && state.writer.None? {
        keys, dropped := keys - {k}, dropped[k := dropped[k] + [true]];
      }
      OtherSlotsKept(k);
    }

    lemma TakeOneMore(slots: Slots, done: set<Key>, k: Key, mode: Mode, holder: Holder)
      requires k !in done
      ensures var part := TakeAll(slots, done, mode, holder);
              part[k := Take(Get(part, k), mode, holder)] == TakeAll(slots, done + {k}, mode, holder)
    {
    }

    lemma TakeNext(slots: Slots, ordered: seq<Key>, i: nat, mode: Mode, holder: Holder)
      requires i < |ordered| && ordered[i] !in ordered[..i]
      ensures var part := TakeAll(slots, Elems(ordered[..i]), mode, holder);
              var more := TakeAll(slots, Elems(ordered[..i + 1]), mode, holder);
              part[ordered[i] := Take(Get(part, ordered[i]), mode, holder)] == more
    {
      assert Elems(ordered[..i + 1]) == Elems(ordered[..i]) + {ordered[i]};
      TakeOneMore(slots, Elems(ordered[..i]), ordered[i], mode, holder);
    }

    lemma GiveBackOneMore(slots: Slots, done: set<Key>, k: Key, mode: Mode, holder: Holder)
      requires AllOk(slots) && k !in done
      ensures var part := GiveBackAll(slots, done, mode, holder);
              && (k in slots ==>
                    && k in part && part[k] == slots[k]
                    && part[k := GiveBack(slots[k], mode, holder)] == GiveBackAll(slots, done + {k}, mode, holder))
              && (k !in slots || slots[k].cur.None? ==> part == GiveBackAll(slots, done + {k}, mode, holder))
    {
    }

    /** The keys of a request: empty names dropped, repetitions dropped. */
    static method Requested(names: seq<Key>) returns (ordered: seq<Key>)
      ensures Elems(ordered) == set k | k in names && k != ""
      ensures forall i, j | 0 <= i < j < |ordered| :: ordered[i] != ordered[j]
    {
      ordered := [];
      for i := 0 to |names|
        invariant Elems(ordered) == set k | k in names[..i] && k != ""
        invariant forall i, j | 0 <= i < j < |ordered| :: ordered[i] != ordered[j]
      {
        if names[i] != "" && names[i] !in ordered {
          assert Elems(ordered + [names[i]]) == Elems(ordered) + {names[i]};
          ordered := ordered + [names[i]];
        }
        assert names[..i + 1] == names[..i] + [names[i]];
      }
      assert names[..|names|] == names;
    }

    /** One pass of the acquire loop under the lock, for the requested keys without repetition. A grant
        takes every key; a refusal takes none and clears the event of every key that blocks. */
    method TryAcquire(ordered: seq<Key>, mode: Mode, holder: Holder) returns (granted: bool, blockers: seq<KeyState>)
      requires Valid()
      requires forall i, j | 0 <= i < j < |ordered| :: ordered[i] != ordered[j]
      modifies this, keys.Values
      ensures Valid() && forall l | l in keys :: keys[l] in old(keys.Values) || fresh(keys[l])
      ensures var req := Lease(Elems(ordered), mode, holder);
              && granted == Grantable(old(View()), req)
              && (granted ==> View() == TakeAll(old(View()), req.keys, mode, holder))
              && (!granted ==> View() == ClearAll(old(View()), Blockers(old(View()), req)))
              && (granted ==> blockers == [])
              && (!granted ==> forall k | k in keys :: keys[k] in blockers <==> k in Blockers(old(View()), req))
      ensures forall state | state in blockers :: state in keys.Values
    {
      granted, blockers := true, [];
      for i := 0 to |ordered|
        invariant granted == forall j | 0 <= j < i :: CanTake(Get(View(), ordered[j]), mode, holder)
        modifies {}
      {
        var ok := CanTakeKey(ordered[i], mode, holder);
        granted := granted && ok;
      }
      if granted {
        TakeEach(ordered, mode, holder);
      } else {
        blockers := ClearBlockers(ordered, mode, holder);
      }
    }

    method TakeEach(ordered: seq<Key>, mode: Mode, holder: Holder)
      requires Valid()
      requires forall i, j | 0 <= i < j < |ordered| :: ordered[i] != ordered[j]
      modifies this, keys.Values
      ensures Valid() && forall l | l in keys :: keys[l] in old(keys.Values) || fresh(keys[l])
      ensures View() == TakeAll(old(View()), Elems(ordered), mode, holder)
    {
      ghost var before := View();
      assert TakeAll(before, Elems(ordered[..0]), mode, holder) == before;
      for i := 0 to |ordered|
        invariant Valid()
        invariant forall l | l in keys :: keys[l] in old(keys.Values) || fresh(keys[l])
        invariant View() == TakeAll(before, Elems(ordered[..i]), mode, holder)
      {
        TakeKey(ordered[i], mode, holder);
        TakeNext(before, ordered, i, mode, holder);
      }
      assert ordered[..|ordered|] == ordered;
    }

    /** Lease.release on a lease that was not released yet: every key is given back. */
    method ReleaseKeys(ordered: seq<Key>, mode: Mode, holder: Holder)
      requires Valid()
      requires forall i, j | 0 <= i < j < |ordered| :: ordered[i] != ordered[j]
      modifies this, keys.Values
      ensures Valid()
      ensures View() == GiveBackAll(old(View()), Elems(ordered), mode, holder)
    {
      ghost var before := View();
      assert GiveBackAll(before, Elems(ordered[..0]), mode, holder) == before;
      for i := 0 to |ordered|
        invariant Valid()
        invariant forall l | l in keys :: l in old(keys) && keys[l] == old(keys)[l]
        invariant View() == GiveBackAll(before, Elems(ordered[..i]), mode, holder)
      {
        GiveBackKey(ordered[i], mode, holder);
        GiveBackOneMore(before, Elems(ordered[..i]), ordered[i], mode, holder);
        assert Elems(ordered[..i + 1]) == Elems(ordered[..i]) + {ordered[i]};
      }
      assert ordered[..|ordered|] == ordered;
    }

    /** The state objects of the keys that block a request. */
    method BlockingStates(ordered: seq<Key>, mode: Mode, holder: Holder) returns (blockers: seq<KeyState>)
      requires Valid()
      ensures forall state | state in blockers :: state in keys.Values
      ensures forall k | k in keys :: keys[k] in blockers <==> k in ordered && !CanTake(View()[k], mode, holder)
    {
      blockers := [];
      for i := 0 to |ordered|
        invariant forall state | state in blockers :: state in keys.Values
        invariant forall k | k in keys ::
                    keys[k] in blockers <==> k in ordered[..i] && !CanTake(View()[k], mode, holder)
      {
        var ok := CanTakeKey(ordered[i], mode, holder);
        if !ok {
          blockers := blockers + [keys[ordered[i]]];
        }
        assert ordered[..i + 1] == ordered[..i] + [ordered[i]];
      }
      assert ordered[..|ordered|] == ordered;
    }

    twostate lemma ClearedView(blocking: set<Key>)
      requires old(Valid()) && Valid() && keys == old(keys) && dropped == old(dropped)
      requires blocking <= keys.Keys
      requires forall k | k in keys ::
                 && keys[k].readers == old(keys[k].readers) && keys[k].writer == old(keys[k].writer)
                 && keys[k].signalled == if k in blocking then false else old(keys[k].signalled)
      ensures View() == ClearAll(old(View()), blocking)
    {
      forall k | k in dropped
        ensures SlotOf(k) == if k in blocking then Clear(old(SlotOf(k))) else old(SlotOf(k))
      {
        if k in keys {
          var flags := old(dropped[k] + [keys[k].signalled]);
          assert flags[|flags| - 1 := false] == dropped[k] + [false];
        }
      }
    }

    /** The snapshot of a refused pass: every blocking key has its event cleared. */
    method ClearBlockers(ordered: seq<Key>, mode: Mode, holder: Holder) returns (blockers: seq<KeyState>)
      requires Valid()
      modifies keys.Values
      ensures Valid()
      ensures View() == ClearAll(old(View()), Blockers(old(View()), Lease(Elems(ordered), mode, holder)))
      ensures forall k | k in keys ::
                keys[k] in blockers <==> k in Blockers(old(View()), Lease(Elems(ordered), mode, holder))
      ensures forall state | state in blockers :: state in keys.Values
    {
      blockers := BlockingStates(ordered, mode, holder);
      for i := 0 to |blockers|
        invariant forall k | k in keys ::
                    && keys[k].readers == old(keys[k].readers) && keys[k].writer == old(keys[k].writer)
                    && keys[k].signalled == if keys[k] in blockers[..i] then false else old(keys[k].signalled)
      {
        blockers[i].signalled := false;
        assert blockers[..i + 1] == blockers[..i] + [blockers[i]];
      }
      assert blockers[..|blockers|] == blockers;
      ghost var blocking := Blockers(old(View()), Lease(Elems(ordered), mode, holder));
      ClearedView(blocking);
    }
  }

  /** What `acquire` hands out. */
  class Handle {
    const manager: LeaseManager
    const ordered: seq<Key>
    const mode: Mode
    const holder: Holder
    var released: bool

    constructor (manager: LeaseManager, ordered: seq<Key>, mode: Mode, holder: Holder)
      ensures this.manager == manager && this.ordered == ordered && this.mode == mode && this.holder == holder
      ensures !released
    {
      this.manager, this.ordered, this.mode, this.holder, this.released := manager, ordered, mode, holder, false;
    }

    /** The first call gives every key back; every later call changes nothing. */
    method Release()
      requires manager.Valid()
      requires forall i, j | 0 <= i < j < |ordered| :: ordered[i] != ordered[j]
      modifies this, manager, manager.keys.Values
      ensures manager.Valid() && released
      ensures manager.View() ==
              if old(released) then old(manager.View())
              else GiveBackAll(old(manager.View()), Elems(ordered), mode, holder)
    {
      if !released {
        released := true;
        manager.ReleaseKeys(ordered, mode, holder);
      }
    }
  }
}
