/** The outbox as the program keeps it: one table that is inserted into, updated and deleted from, and a
    bus that only grows (kernel/outbox.py). */
module EventOutboxes {
  import opened Options
  import opened Outbox

  predicate UniqueIds(rows: seq<Row>)
  {
    forall i, j | 0 <= i < j < |rows| :: rows[i].event.id != rows[j].event.id
  }

  predicate Ordered(events: seq<Event>)
  {
    forall i, j | 0 <= i < j < |events| :: !Before(events[j], events[i])
  }

  predicate NoRepeats(events: seq<Event>)
  {
    forall i, j | 0 <= i < j < |events| :: events[i] != events[j]
  }

  /** Inserts a new event into an answer that is already in order. */
  method InsertOrdered(events: seq<Event>, e: Event) returns (out: seq<Event>)
    requires Ordered(events) && NoRepeats(events) && e !in events
    ensures Ordered(out) && NoRepeats(out)
    ensures forall x :: x in out <==> x in events || x == e
  {
    var i := |events|;
    while i > 0 && Before(e, events[i - 1])
      invariant 0 <= i <= |events|
      invariant forall k | i <= k < |events| :: Before(e, events[k])
    {
      i := i - 1;
    }
    out := events[..i] + [e] + events[i..];
    assert forall k | 0 <= k < |out| :: out[k] == if k < i then events[k] else if k == i then e else events[k - 1];
    InsertedOnce(events, i, e, out);
  }

  lemma InsertedOnce(events: seq<Event>, i: nat, e: Event, out: seq<Event>)
    requires NoRepeats(events) && e !in events && i <= |events| && out == events[..i] + [e] + events[i..]
    ensures NoRepeats(out) && forall x :: x in out <==> x in events || x == e
  {
    assert events == events[..i] + events[i..];
  }

  lemma {:induction false} PruneUnique(rows: seq<Row>, keepAfter: real)
    requires UniqueIds(rows)
    ensures UniqueIds(Prune(rows, keepAfter)) && |Prune(rows, keepAfter)| <= |rows|
  {
    if rows != [] {
      var n := |rows| - 1;
      PruneUnique(rows[..n], keepAfter);
      forall r | r in Prune(rows[..n], keepAfter)
        ensures r.event.id != rows[n].event.id
      {
        assert r in rows[..n];
      }
    }
  }

  lemma PrunedMeans(rows: seq<Row>, keepAfter: real, kept: seq<Row>)
    requires kept == Prune(rows, keepAfter)
    ensures forall r :: r in kept <==> r in rows && !(r.published && r.event.at < keepAfter)
  {
  }

  class EventOutbox {
    var rows: seq<Row>
    const hasBus: bool
    /** Everything put on the bus. */
    var emitted: seq<Event>

    ghost predicate Valid()
      reads this
    {
      UniqueIds(rows)
    }

    constructor (hasBus: bool)
      ensures Valid() && rows == [] && emitted == [] && this.hasBus == hasBus
    {
      rows, emitted, this.hasBus := [], [], hasBus;
    }

    method Last(task: Task) returns (last: nat)
      ensures last == LastSequence(rows, task)
    {
      last := 0;
      for i := 0 to |rows|
        invariant last == LastSequence(rows[..i], task)
      {
        assert rows[..i + 1][..i] == rows[..i];
        if rows[i].event.task == task && rows[i].event.sequence > last {
          last := rows[i].event.sequence;
        }
      }
      assert rows[..|rows|] == rows;
    }

    /** Inside the caller's transaction. A primary key already in use rolls the transaction back. */
    method Stage(id: Id, topic: string, task: Task, payload: string, now: real) returns (event: Option<Event>)
      requires Valid()
      modifies `rows
      ensures Valid()
      ensures event.None? <==> exists r :: r in old(rows) && r.event.id == id
      ensures rows == if event.None? then old(rows) else old(rows) + [Row(event.value, false)]
      ensures event.Some? ==> event.value == Staged(old(rows), id, topic, task, payload, now)
      ensures event.Some? ==>
                && event.value.id == id && event.value.topic == topic && event.value.task == task
                && event.value.payload == payload && event.value.at == now
                && event.value.sequence == LastSequence(old(rows), task) + 1
    {
      var last := Last(task);
      if exists r :: r in rows && r.event.id == id {
        return None;
      }
      var e := Event(id, topic, task, last + 1, now, payload);
      forall i | 0 <= i < |rows| ensures rows[i].event.id != id { assert rows[i] in rows; }
      rows := rows + [Row(e, false)];
      return Some(e);
    }

    method Unpublished() returns (events: seq<Event>)
      requires Valid()
      ensures Ordered(events) && NoRepeats(events)
      ensures forall e :: e in events <==> Waiting(rows, e)
    {
      events := [];
      for i := 0 to |rows|
        invariant Ordered(events) && NoRepeats(events)
        invariant forall e :: e in events <==> Row(e, false) in rows[..i]
      {
        assert rows[..i + 1] == rows[..i] + [rows[i]];
        if !rows[i].published {
          assert rows[i] == Row(rows[i].event, false);
          assert rows[i] !in rows[..i];
          events := InsertOrdered(events, rows[i].event);
        }
      }
      assert rows[..|rows|] == rows;
    }

    method Pending(limit: int) returns (events: seq<Event>)
      requires Valid()
      ensures IsPending(rows, limit, events)
    {
      var all := Unpublished();
      events := if 0 <= limit < |all| then all[..limit] else all;
      forall e | Waiting(rows, e) && e !in events
        ensures |events| == limit && forall x | x in events :: !Before(e, x)
      {
        var k :| 0 <= k < |all| && all[k] == e;
      }
    }

    /** Publish what has committed, then mark it published; without a bus it is only marked. */
    method Drain(limit: int) returns (events: seq<Event>)
      requires Valid()
      modifies this
      ensures Valid()
      ensures IsPending(old(rows), limit, events)
      ensures rows == Mark(old(rows), events)
      ensures emitted == old(emitted) + if hasBus then events else []
    {
      events := Pending(limit);
      if events == [] {
        assert Mark(rows, []) == rows;
        return;
      }
      for i := 0 to |events|
        invariant rows == old(rows)
        invariant emitted == old(emitted) + if hasBus then events[..i] else []
      {
        if hasBus {
          emitted := emitted + [events[i]];
        }
        assert events[..i + 1] == events[..i] + [events[i]];
      }
      assert events[..|events|] == events;
      rows := Mark(rows, events);
    }

    method PruneOlder(keepAfter: real) returns (deleted: nat)
      requires Valid()
      modifies `rows
      ensures Valid()
      ensures rows == Prune(old(rows), keepAfter) && deleted == |old(rows)| - |rows|
      ensures forall r :: r in rows <==> r in old(rows) && !(r.published && r.event.at < keepAfter)
    {
      var before := rows;
      rows := [];
      for i := 0 to |before|
        invariant rows == Prune(before[..i], keepAfter)
      {
        assert before[..i + 1][..i] == before[..i];
        if !Prunable(before[i], keepAfter) {
          rows := rows + [before[i]];
        }
      }
      assert before[..|before|] == before;
      PruneUnique(before, keepAfter);
      PrunedMeans(before, keepAfter, rows);
      deleted := |before| - |rows|;
    }
  }

  /** What a consumer does with at-least-once delivery. */
  method Deduplicate(events: seq<Event>) returns (out: seq<Event>)
    ensures out == Deduplicated(events)
  {
    var seen: set<Id> := {};
    out := [];
    for i := 0 to |events|
      invariant out == Deduplicated(events[..i]) && seen == Ids(events[..i])
    {
      assert events[..i + 1] == events[..i] + [events[i]];
      assert events[..i + 1][..i] == events[..i];
      if events[i].id !in seen {
        seen := seen + {events[i].id};
        out := out + [events[i]];
      }
    }
    assert events[..|events|] == events;
  }
}
