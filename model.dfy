// Data model of the production-line engine: items, machines and the global
// simulation state (backend/main.py, lines 11-21 and 52-69).

module Model {

  datatype Option<T> = None | Some(value: T)

  /** The HTTP errors of the edit routes and the crash of the snapshot route. */
  datatype Error =
    | NotFound          // HTTP 404: unknown machine id or insert_after_id
    | TaktNotPositive   // HTTP 400: takt_time must be > 0
    | BufferNegative    // HTTP 400: buffer must be >= 0
    | DivisionByZero    // get_state divides by a takt_time of 0

  datatype Result<T> = Ok(value: T) | Err(error: Error)

  datatype Outcome = Pass | Fail(error: Error)

  /** An item dictionary: `item_id` and `created_at` are always present,
      `start_time` and `entered_machine_at` only once some machine stamped it. */
  datatype Item = Item(
    itemId: int,
    createdAt: real,
    startTime: Option<real>,
    enteredMachineAt: Option<real>)

  /** The `Machine` record. `inProgress` and `queue` are the two item lists. */
  datatype Machine = Machine(
    id: int,
    name: string,
    next: Option<int>,
    taktTime: real,
    buffer: int,
    inProgress: seq<Item>,
    queue: seq<Item>,
    completed: int,
    busyTime: real,
    lastStateChange: real)

  /** The module-level globals of the engine. */
  datatype State = State(
    machines: seq<Machine>,
    running: bool,
    totalStarted: int,
    totalCompleted: int,
    cycleTimes: seq<real>,
    itemIdSeq: int)

  /** A machine as the pydantic defaults build it: no items, zero counters. */
  function NewMachine(id: int, name: string, next: Option<int>, taktTime: real, buffer: int): (m: Machine)
    ensures m.id == id && m.name == name && m.next == next
    ensures m.taktTime == taktTime && m.buffer == buffer
    ensures m.inProgress == [] && m.queue == [] && m.completed == 0 && m.busyTime == 0.0
  {
    Machine(id, name, next, taktTime, buffer, [], [], 0, 0.0, 0.0)
  }

  /** Every item being processed carries a `start_time`. */
  predicate Stamped(m: Machine)
  {
    forall k :: 0 <= k < |m.inProgress| ==> m.inProgress[k].startTime.Some?
  }

  /** The three-machine line the module starts with, paused, no items, zero counters. */
  function InitialState(): (s: State)
    ensures |s.machines| == 3 && !s.running
    ensures s.totalStarted == 0 && s.totalCompleted == 0 && s.cycleTimes == [] && s.itemIdSeq == 0
    ensures forall i :: 0 <= i < 3 ==> s.machines[i].id == i + 1
    ensures forall i :: 0 <= i < 3 ==> s.machines[i].inProgress == [] && s.machines[i].queue == []
  {
    State(
      [ NewMachine(1, "Cutting", Some(2), 5.0, 2),
        NewMachine(2, "Assembly", Some(3), 7.5, 2),
        NewMachine(3, "Packaging", None, 3.0, 1) ],
      false, 0, 0, [], 0)
  }
}
