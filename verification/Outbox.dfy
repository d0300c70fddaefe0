/** The transactional outbox (kernel/outbox.py): events are rows committed with the fact they report,
    a drain publishes committed rows and then marks them, consumers drop repetitions by event id.
    This module has the table operations as functions on values and the drain cut into the steps
    between which the process can die. */
module Outbox {
  import opened Options

  type Id = string
  type Task = string

  datatype Event = Event(id: Id, topic: string, task: Task, sequence: nat, at: real, payload: string)

  /** A row of event_outbox; `published` says that published_at is not null. */
  datatype Row = Row(event: Event, published: bool)

  // ------------------------------------------------------------------ table operations

  /** SELECT COALESCE(MAX(sequence), 0) over the rows of one task. */
  function LastSequence(rows: seq<Row>, task: Task): (last: nat)
    ensures forall r | r in rows && r.event.task == task :: r.event.sequence <= last
    ensures last > 0 ==> exists r :: r in rows && r.event.task == task && r.event.sequence == last
  {
    if rows == [] then 0
    else
      var rest, r := LastSequence(rows[..|rows| - 1], task), rows[|rows| - 1];
      if r.event.task == task && r.event.sequence > rest then r.event.sequence else rest
  }

  function Staged(rows: seq<Row>, id: Id, topic: string, task: Task, payload: string, now: real): Event
  {
    Event(id, topic, task, LastSequence(rows, task) + 1, now, payload)
  }

  /** ORDER BY occurred_at, sequence. */
  predicate Before(a: Event, b: Event) { a.at < b.at || (a.at == b.at && a.sequence < b.sequence) }

  predicate Waiting(rows: seq<Row>, e: Event) { Row(e, false) in rows }

  /** `batch` is an answer to: unpublished rows, in order, at most `limit` of them (a negative limit is no
      limit). Rows that the order does not separate may come in any order. */
  ghost predicate IsPending(rows: seq<Row>, limit: int, batch: seq<Event>)
  {
    && (forall e | e in batch :: Waiting(rows, e))
    && (forall i, j | 0 <= i < j < |batch| :: batch[i] != batch[j] && !Before(batch[j], batch[i]))
    && (limit >= 0 ==> |batch| <= limit)
    && (forall e | Waiting(rows, e) && e !in batch :: |batch| == limit && forall x | x in batch :: !Before(e, x))
  }

  function Mark(rows: seq<Row>, batch: seq<Event>): (marked: seq<Row>)
    ensures |marked| == |rows|
    ensures forall i | 0 <= i < |rows| ::
              marked[i] == rows[i].(published := rows[i].published || rows[i].event.id in Ids(batch))
  {
    seq(|rows|, i requires 0 <= i < |rows| =>
      rows[i].(published := rows[i].published || rows[i].event.id in Ids(batch)))
  }

  predicate Prunable(r: Row, keepAfter: real) { r.published && r.event.at < keepAfter }

  function Prune(rows: seq<Row>, keepAfter: real): (kept: seq<Row>)
    ensures forall r :: r in kept <==> r in rows && !Prunable(r, keepAfter)
  {
    if rows == [] then []
    else
      var r := rows[|rows| - 1];
      Prune(rows[..|rows| - 1], keepAfter) + if Prunable(r, keepAfter) then [] else [r]
  }

  function Ids(events: seq<Event>): set<Id> { set e | e in events :: e.id }

  /** The first event of every id, in order of arrival. */
  function Deduplicated(events: seq<Event>): seq<Event>
  {
    if events == [] then []
    else
      var rest, e := events[..|events| - 1], events[|events| - 1];
      Deduplicated(rest) + if e.id in Ids(rest) then [] else [e]
  }

  function OfTask(events: seq<Event>, task: Task): (out: seq<Event>)
    ensures forall e :: e in out <==> e in events && e.task == task
  {
    if events == [] then []
    else
      var e := events[|events| - 1];
      OfTask(events[..|events| - 1], task) + if e.task == task then [e] else []
  }

  // ------------------------------------------------------------------------- protocol

  /** A drain in progress: what it read, and how much of it was published. */
  datatype Drain = Drain(batch: seq<Event>, sent: nat)

  /** `rows` survives a crash. `emitted` is everything ever put on the bus, `log` everything ever
      committed, in commit order. */
  datatype State = State(rows: seq<Row>, emitted: seq<Event>, drain: Option<Drain>, log: seq<Event>, clock: real)

  const START := State([], [], None, [], 0.0)

  datatype Step =
    | Stage(id: Id, topic: string, task: Task, payload: string, now: real, committed: bool)
    | Fetch(limit: int, batch: seq<Event>)
    | Emit
    | MarkPublished
    | Crash
    | PruneOld(keepAfter: real)

  /** Event ids are fresh and the clock does not run backwards. */
  ghost predicate Enabled(s: State, step: Step)
  {
    match step
    case Stage(id, _, _, _, now, _) => now >= s.clock && forall e | e in s.log :: e.id != id
    case Fetch(limit, batch) => s.drain.None? && IsPending(s.rows, limit, batch)
    case Emit => s.drain.Some? && s.drain.value.sent < |s.drain.value.batch|
    case MarkPublished => s.drain.Some? && s.drain.value.sent == |s.drain.value.batch|
    case Crash => true
    case PruneOld(_) => true
  }

  ghost function Next(s: State, step: Step): State
    requires Enabled(s, step)
  {
    match step
    case Stage(id, topic, task, payload, now, committed) =>
      if committed then
        var e := Staged(s.rows, id, topic, task, payload, now);
        s.(rows := s.rows + [Row(e, false)], log := s.log + [e], clock := now)
      else s.(clock := now)
    case Fetch(_, batch) => s.(drain := Some(Drain(batch, 0)))
    case Emit =>
      var d := s.drain.value;
      s.(emitted := s.emitted + [d.batch[d.sent]], drain := Some(d.(sent := d.sent + 1)))
    case MarkPublished => s.(rows := Mark(s.rows, s.drain.value.batch), drain := None)
    case Crash => s.(drain := None)
    case PruneOld(keepAfter) => s.(rows := Prune(s.rows, keepAfter))
  }
}
