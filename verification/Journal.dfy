/** The step journal (tasks/store.py): one row per task step, written before and after the step runs.
    `Replay` is what a sequence of journal events leaves in the table. */
module Journals {
  import opened Options

  type Key = string
  type Value = string

  datatype StepState = Pending | Running | Done | Failed

  /** What a step does: the tool it calls and the parameters it calls it with. */
  datatype Action = Action(tool: string, params: string)

  datatype Row = Row(state: StepState, result: Option<Value>, attempts: nat, action: Action)

  type Rows = map<Key, Row>

  /** What happens to a step, in order. Only `Started` and `Finished` touch the table; `Performed` is the
      action in the outside world, with its outcome. */
  datatype Event =
    | Started(key: Key, action: Action)
    | Performed(key: Key, ok: bool)
    | Finished(key: Key, ok: bool, value: Value)

  function Apply(rows: Rows, e: Event): Rows
  {
    match e
    case Started(k, action) =>
      rows[k := if k in rows then rows[k].(state := Running, attempts := rows[k].attempts + 1)
                else Row(Running, None, 1, action)]
    case Performed(_, _) => rows
    case Finished(k, ok, v) =>
      if k in rows then rows[k := rows[k].(state := if ok then Done else Failed, result := Some(v))] else rows
  }

  function Replay(rows: Rows, events: seq<Event>): Rows
  {
    if events == [] then rows else Apply(Replay(rows, events[..|events| - 1]), events[|events| - 1])
  }

  /** On recovery a step caught mid-flight goes back to pending. */
  function ResetRunning(rows: Rows): (reset: Rows)
    ensures reset.Keys == rows.Keys
    ensures forall k | k in rows ::
              if rows[k].state.Running? then reset[k].state.Pending? && reset[k] == rows[k].(state := reset[k].state)
              else reset[k] == rows[k]
  {
    map k | k in rows :: if rows[k].state.Running? then rows[k].(state := Pending) else rows[k]
  }

  predicate IsDone(rows: Rows, k: Key) { k in rows && rows[k].state.Done? }

  /** SELECT step_key, result ... WHERE state = 'done'. */
  function Completed(rows: Rows): (done: map<Key, Option<Value>>)
    ensures forall k :: k in done <==> IsDone(rows, k)
    ensures forall k | k in done && k in rows :: done[k] == rows[k].result
  {
    map k | k in rows && rows[k].state.Done? :: rows[k].result
  }

  class Journal {
    var rows: Rows
    /** The trace: everything that was journalled or performed since the journal was opened. */
    var events: seq<Event>

    constructor (rows: Rows)
      ensures this.rows == rows && events == []
    {
      this.rows, events := rows, [];
    }

    /** A key that has a row keeps the action it was first started with. */
    method StepStarted(k: Key, action: Action)
      modifies this
      ensures events == old(events) + [Started(k, action)] && rows == Apply(old(rows), Started(k, action))
    {
      if k in rows {
        rows := rows[k := rows[k].(state := Running, attempts := rows[k].attempts + 1)];
      } else {
        rows := rows[k := Row(Running, None, 1, action)];
      }
      events := events + [Started(k, action)];
    }

    method StepFinished(k: Key, ok: bool, value: Value)
      modifies this
      ensures events == old(events) + [Finished(k, ok, value)] && rows == Apply(old(rows), Finished(k, ok, value))
    {
      if k in rows {
        rows := rows[k := rows[k].(state := if ok then Done else Failed, result := Some(value))];
      }
      events := events + [Finished(k, ok, value)];
    }

    /** The outside world acted; the table does not change. */
    method Note(k: Key, ok: bool)
      modifies `events
      ensures events == old(events) + [Performed(k, ok)]
    {
      events := events + [Performed(k, ok)];
    }

    method ResetRunningSteps() returns (count: nat)
      modifies `rows
      ensures rows == ResetRunning(old(rows)) && count == |set k | k in old(rows) && old(rows)[k].state.Running?|
    {
      count := |set k | k in rows && rows[k].state.Running?|;
      rows := map k | k in rows :: if rows[k].state.Running? then rows[k].(state := Pending) else rows[k];
    }
  }
}
