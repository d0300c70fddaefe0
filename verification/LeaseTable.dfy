/** The lease protocol on values: the key table, the leases that are live, the coroutines that wait,
    and the event objects they sleep on (runtime/leases.py).

    A `Slot` is everything that ever happened to one key: the attached state object, if there is one,
    and the event flag of every state object made for that key, oldest first. The attached object is
    always the newest, so an index into `flags` is the identity of a state object and an index that is
    not attached belongs to an object that was dropped from the table. */
module LeaseTable {
  import opened Options

  type Key = string
  type Holder = string

  datatype Mode = Shared | Exclusive

  datatype Cell = Cell(readers: nat, writer: Option<Holder>) {
    predicate Free() { readers == 0 && writer.None? }
  }

  datatype Slot = Slot(cur: Option<Cell>, flags: seq<bool>) {
    predicate Ok() { cur.Some? ==> |flags| > 0 }

    /** Is object number `i` the one in the table now? */
    predicate Attached(i: nat) { cur.Some? && i == |flags| - 1 }
  }

  type Slots = map<Key, Slot>

  /** A lease, and equally the request for one. */
  datatype Lease = Lease(keys: set<Key>, mode: Mode, holder: Holder)

  function Elems(ordered: seq<Key>): set<Key> { set k | k in ordered }

  const VACANT := Slot(None, [])

  function Get(slots: Slots, k: Key): Slot { if k in slots then slots[k] else VACANT }

  predicate CanTake(slot: Slot, mode: Mode, holder: Holder)
  {
    match slot.cur
    case None => true
    case Some(cell) =>
      && (cell.writer.Some? ==> cell.writer.value == holder)
      && (mode.Exclusive? ==> cell.readers == 0)
  }

  /** The slot once a state object is attached to the key. */
  function Attach(slot: Slot): Slot
  {
    if slot.cur.None? then Slot(Some(Cell(0, None)), slot.flags + [true]) else slot
  }

  function Take(slot: Slot, mode: Mode, holder: Holder): Slot
  {
    var flags := if slot.cur.None? then slot.flags + [true] else slot.flags;
    var cell := if slot.cur.None? then Cell(0, None) else slot.cur.value;
    Slot(Some(if mode.Exclusive? then cell.(writer := Some(holder)) else cell.(readers := cell.readers + 1)), flags)
  }

  function GiveBack(slot: Slot, mode: Mode, holder: Holder): Slot
    requires slot.Ok()
  {
    match slot.cur
    case None => slot
    case Some(cell) =>
      var cell' :=
        if mode.Exclusive? then
          if cell.writer == Some(holder) then cell.(writer := None) else cell
        else if cell.readers > 0 then cell.(readers := cell.readers - 1) else cell;
      Slot(if cell'.Free() then None else Some(cell'), slot.flags[|slot.flags| - 1 := true])
  }

  /** `waiters.clear()` on the attached object. */
  function Clear(slot: Slot): Slot
    requires slot.Ok()
  {
    if slot.cur.None? then slot else slot.(flags := slot.flags[|slot.flags| - 1 := false])
  }

  ghost predicate AllOk(slots: Slots) { forall k | k in slots :: slots[k].Ok() }

  predicate Grantable(slots: Slots, req: Lease)
  {
    forall k | k in req.keys :: CanTake(Get(slots, k), req.mode, req.holder)
  }

  function Blockers(slots: Slots, req: Lease): set<Key>
  {
    set k | k in req.keys && !CanTake(Get(slots, k), req.mode, req.holder)
  }

  function TakeAll(slots: Slots, keys: set<Key>, mode: Mode, holder: Holder): Slots
  {
    map k | k in slots.Keys + keys :: if k in keys then Take(Get(slots, k), mode, holder) else slots[k]
  }

  ghost function GiveBackAll(slots: Slots, keys: set<Key>, mode: Mode, holder: Holder): Slots
    requires AllOk(slots)
  {
    map k | k in slots :: if k in keys then GiveBack(slots[k], mode, holder) else slots[k]
  }

  ghost function ClearAll(slots: Slots, keys: set<Key>): Slots
    requires AllOk(slots)
  {
    map k | k in slots :: if k in keys then Clear(slots[k]) else slots[k]
  }

  // ------------------------------------------------------------------ the protocol

  /** A coroutine inside `acquire`. `sleeps` names, for every key that blocked it, the state object
      whose event it snapshotted. `armed` says its wait tasks have started, `woken` that one of them
      has completed. */
  datatype Waiter = Waiter(req: Lease, sleeps: map<Key, nat>, armed: bool, woken: bool)

  datatype State = State(slots: Slots, live: map<nat, Lease>, waiting: map<nat, Waiter>)

  const START := State(map[], map[], map[])

  datatype Step =
    | Try(id: nat, req: Lease)   // one pass of the acquire loop under the lock
    | Arm(id: nat)               // the wait tasks of a sleeping coroutine start
    | Timeout(id: nat)           // the wait gives up
    | Release(id: nat)           // Lease.release

  predicate FlagSet(slots: Slots, k: Key, i: nat)
  {
    k in slots && i < |slots[k].flags| && slots[k].flags[i]
  }

  /** Some event the waiter sleeps on is set. */
  predicate SomeSet(slots: Slots, sleeps: map<Key, nat>)
  {
    exists k | k in sleeps :: FlagSet(slots, k, sleeps[k])
  }

  function Snapshot(slots: Slots, blockers: set<Key>): map<Key, nat>
    requires forall k | k in blockers :: |Get(slots, k).flags| > 0
  {
    map k | k in blockers :: |Get(slots, k).flags| - 1
  }

  /** Giving back `keys` sets the event of each attached object among them: an armed waiter that
      sleeps on one of these wakes. */
  function Wake(slots: Slots, keys: set<Key>, w: Waiter): Waiter
  {
    if w.armed && exists k | k in w.sleeps && k in keys :: Get(slots, k).Attached(w.sleeps[k])
    then w.(woken := true) else w
  }

  ghost predicate Enabled(s: State, step: Step)
  {
    && AllOk(s.slots)
    && match step
       case Try(id, req) => id !in s.live && (id in s.waiting ==> s.waiting[id].req == req)
       case Arm(id) => id in s.waiting
       case Timeout(id) => id in s.waiting
       case Release(id) => true
  }

  lemma BlockersAttached(slots: Slots, req: Lease)
    requires AllOk(slots)
    ensures forall k | k in Blockers(slots, req) :: k in slots && slots[k].cur.Some? && |slots[k].flags| > 0
  {
  }

  ghost function Next(s: State, step: Step): State
    requires Enabled(s, step)
  {
    match step
    case Try(id, req) =>
      if Grantable(s.slots, req) then
        State(TakeAll(s.slots, req.keys, req.mode, req.holder), s.live[id := req], s.waiting - {id})
      else
        BlockersAttached(s.slots, req);
        var blockers := Blockers(s.slots, req);
        State(ClearAll(s.slots, blockers), s.live,
              s.waiting[id := Waiter(req, Snapshot(s.slots, blockers), false, false)])
    case Arm(id) =>
      var w := s.waiting[id];
      s.(waiting := s.waiting[id := w.(armed := true, woken := w.woken || SomeSet(s.slots, w.sleeps))])
    case Timeout(id) => s.(waiting := s.waiting - {id})
    case Release(id) =>
      if id !in s.live then s
      else
        var l := s.live[id];
        State(GiveBackAll(s.slots, l.keys, l.mode, l.holder), s.live - {id},
              map w | w in s.waiting :: Wake(s.slots, l.keys, s.waiting[w]))
  }
}
