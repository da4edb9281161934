# Manufacturing line simulator: the production-line engine

This project models, in Dafny, the engine of the manufacturing line simulator in
`backend/main.py`. The line is an ordered list of machines. Each machine has:

- an `id`, a `name` and a `next` link to the id of its downstream machine;
- a takt time and a buffer size;
- a FIFO `queue` of waiting items and an `in_progress` list;
- the counters `completed` and `busy_time`.

The globals `running`, `total_started`, `total_completed`, `cycle_times` and
`item_id_seq` complete the state.

The model has two layers.

- **Specification functions on a `State` value.**
  - `Topology` covers the lookups `get_machine`, `index_of`, `next_id` and `upstream_of`, and the edit routes `update_machine`, `add_machine` and `remove_machine`.
  - `Flow` covers one tick: the push phase over the list in reverse, the start phase in list order, then one spawn attempt.
  - `Metrics` covers the snapshot that `get_state` returns.
- **The class `Engine.Line`.** Its fields are the module globals. Its methods change them step by step, with the same loops as the Python code:
  - the push loop and the start loop of the tick;
  - the rewiring loop, the in-progress hand-over and the `while victim.queue` drain of `remove_machine`;
  - the view loop of `get_state`.

  Every method is proved to leave exactly the state that the matching specification function describes.

`Invariants` proves what the engine keeps true across every operation:

- machine ids are unique;
- every machine has at most one item in progress;
- every item in progress carries a `start_time`;
- the item balance `total_started - total_completed - items_in_system` is never negative. A tick, an add or an update keep it exactly. A removal raises it by the items it drops;
- no two items on the line share an `item_id`, and no `item_id` is above `item_id_seq`. `ItemIdentity` counts the items holding each id and proves that only a spawn adds one, under the id it hands out.

From a line that holds no unaccounted item, any run of operations satisfies `total_started >= total_completed + items_in_system`. Equality holds as long as no machine is removed.

Failures of the HTTP routes become error values instead of exceptions:

- `NotFound` for 404;
- `TaktNotPositive` and `BufferNegative` for 400;
- `DivisionByZero` for the `ZeroDivisionError` that `get_state` raises when a machine with an item in progress has a takt time of 0.

The current time is a parameter of every operation that reads the clock.

The model follows the code where it departs from a textbook production line:

- A blocked finished item is put back at the head of the machine's own queue, not held in progress. The start phase of the same tick then starts it again.
- Queue lengths are not kept within the buffer. A blocked item is re-queued whatever the capacity. `remove_machine` ignores the downstream capacity. `update_machine` can shrink the buffer below the queue length.
- Busy time grows by one takt time each time an item finishes. It does not grow with elapsed time.
- Utilisation is not clamped to [0, 1].
- `add_machine` does not validate the takt time or the buffer.
- `update_machine` writes a valid takt time before it rejects a negative buffer. So a request that fails with 400 can still have changed the machine.
- `next` is always overwritten on update, because the guard at line 216 always holds.
- `next` links are never checked. The override in `add_machine` and the `next` of `update_machine` may name an unknown machine or close a cycle.
- `remove_machine` drops the in-progress item of a terminal machine without counting it.
- There is no "blocked" status.

## Model

| member | source | states |
|---|---|---|
| Model.NewMachine | backend/main.py:11-21 | the given id, name, link, takt time and buffer, with no items and zero counters, as the class defaults give |
| Model.InitialState | backend/main.py:52-69 | the three-machine line with ids 1, 2 and 3, empty, paused, with zero counters |
| Topology.FirstIndex | backend/main.py:176-180 | the first position holding the id; None exactly when no machine has it |
| Topology.GetMachine | backend/main.py:79-83 | the first machine with the id, None exactly when there is none (KeyError) |
| Topology.NextId | backend/main.py:173-174 | exceeds every id in use and is one above an id in use (so it is the maximum plus 1); 1 on an empty line |
| Topology.UpstreamOf | backend/main.py:182-183 | exactly the positions whose `next` is the target, in increasing list order |
| Topology.Redirect | backend/main.py:282-284 | one entry per machine; exactly the machines that pointed at the target take the new link, and every other machine is unchanged |
| Topology.UpdateMachine | backend/main.py:197-217 | unknown id: NotFound and no change; takt <= 0: TaktNotPositive and no change; any outcome: only the target machine changes, and never its id, items or counters |
| Topology.UpdateWrites | backend/main.py:205-217 | the takt time is written before a negative buffer fails with BufferNegative; on success buffer and name follow the request and `next` is always the request's `next` |
| Topology.AddMachine | backend/main.py:230-268 | fails with NotFound exactly when `insert_after_id` is given and unknown; otherwise adds one machine and moves no counter |
| Topology.AddAfter | backend/main.py:242-258 | the new machine sits right after the predecessor, has the fresh id and points at the override or the old successor; the predecessor points at it; the others keep their order |
| Topology.AddAtEnd | backend/main.py:259-266 | the new machine is last and points at the override or nowhere; the old last machine points at it; the fresh id is not in use |
| Topology.RemoveMachine | backend/main.py:270-307 | NotFound exactly for an unknown id; otherwise one machine fewer, and each survivor keeps every field but its link and its queue; a terminal victim's queue counts as completed, with its cycle times recorded in queue order |
| Topology.Evicted | backend/main.py:281-305 | one machine fewer, and each survivor, in its old order, keeps every field but its link and its queue |
| Topology.EvictedRewires | backend/main.py:281-284 | the survivors keep their order, ids and in-progress items, and each one that pointed at the victim points at the victim's successor |
| Topology.EvictedHandsOver | backend/main.py:286-296 | the successor's queue gains the victim's in-progress item (re-stamped) and then the victim's queue, in order; no other queue changes |
| Topology.EvictedKeepsQueues | backend/main.py:286-305 | a victim with no items or no successor changes no survivor's queue |
| Topology.Handed | backend/main.py:281-296 | before the deletion: ids and in-progress items are kept, every link to the victim is redirected to its successor, and only the successor's queue changes, gaining Topology.Evacuees at its end |
| Topology.HandOverInProgress | backend/main.py:287-293 | the first in-progress item leaves the victim and is appended, re-stamped, to the successor's queue, or dropped with no successor; ids and links are unchanged |
| Topology.ShiftOne | backend/main.py:294-296 | one pass of the drain keeps ids and links and takes the head off the victim's queue; what it moves where is Topology.ShiftOneMoves |
| Topology.ShiftOneMoves | backend/main.py:294-296 | one pass of the drain moves the queue head to the end of the successor's queue and changes no other machine |
| Topology.Drain | backend/main.py:294-302 | the drain loop ends with the victim's queue empty |
| Topology.DrainMoves | backend/main.py:294-296 | draining appends the whole queue, in order, to the successor's queue and changes no other machine |
| Topology.ShiftState | backend/main.py:294-302 | one pass on the whole state keeps the number of machines, the flag, the start counter and the id sequence; its counts are in Topology.DrainStateCounts |
| Topology.DrainState | backend/main.py:294-302 | the whole drain keeps the number of machines; its machines and counts are Topology.DrainStateMachines and Topology.DrainStateCounts |
| Topology.DrainStateCounts | backend/main.py:297-302 | draining a terminal victim counts each queued item as completed and records its cycle time; with a successor no counter moves |
| Topology.EvictionSteps | backend/main.py:281-305 | rewiring, hand-over, drain and deletion, in the code's order, give exactly the list that Topology.Evicted describes |
| Topology.RemovalSteps | backend/main.py:279-305 | the same steps on the whole state give exactly the state of Topology.RemoveMachine, counters included |
| Flow.Stamp | backend/main.py:89-91 | `start_time` becomes the current time; `entered_machine_at` is set only if absent |
| Flow.StartProcessing | backend/main.py:85-93 | an idle machine with a waiting item takes the head of its queue (FIFO) into processing; otherwise nothing changes; no item is lost and an idle machine is left with an empty queue |
| Flow.StartPhase | backend/main.py:150-151 | every machine runs the start step, and the layout of the line does not change |
| Flow.Finish | backend/main.py:103-106 | a finished item counts once as completed and adds one takt time of busy time |
| Flow.TryPushToNext | backend/main.py:95-121 | keeps the number of machines, the flag, the start counter and the id sequence; its effect on each machine is Flow.TryPushEffect |
| Flow.TryPushEffect | backend/main.py:95-121 | an unfinished item changes nothing; a finished one is counted at its machine and then leaves the line at a terminal machine (cycle time recorded), joins the end of the successor's queue when that queue is below its buffer, or goes back to the head of its own queue; no other machine's work or counters change |
| Flow.PushKeepsReady | backend/main.py:146-147 | a push leaves every earlier position still able to push without a KeyError |
| Flow.PushPhase | backend/main.py:146-147 | the reverse loop keeps the number of machines, the flag, the start counter and the id sequence; Flow.PushPhaseLayout, Invariants.PushPhaseBalance and ItemIdentity.PushPhaseIds say what it keeps of the machines |
| Flow.PushPhaseLayout | backend/main.py:146-147 | the reverse push loop never rewires, renames or reorders the line |
| Flow.SpawnNewItem | backend/main.py:123-136 | on a non-empty line whose first queue is below its buffer, the item with the next id and creation time `t` joins the end of that queue, the first machine changes in nothing else, the other machines not at all, and `total_started` and `item_id_seq` rise by 1; otherwise nothing changes |
| Flow.PushAndStart | backend/main.py:145-151 | the push phase then the start phase keep the layout and move neither the start counter nor the flag |
| Flow.Tick | backend/main.py:141-156 | a paused tick changes nothing; a running tick keeps the layout and starts at most one item, with `item_id_seq` and `total_started` rising together |
| Flow.TickLeavesNoIdleWork | backend/main.py:145-154 | after a running tick no machine but the first sits idle with a waiting item, and the first holds at most the one item just spawned |
| Flow.TickSpawns | backend/main.py:153-154 | the spawn of a running tick happens exactly when the first queue, as the start phase left it, is below its buffer |
| Metrics.ItemsInSystem | backend/main.py:328 | 0 on an empty line, at least the first machine's load otherwise |
| Metrics.ItemsUpdate | backend/main.py:328 | replacing one machine changes the total by the difference of the two loads |
| Metrics.ItemsWithout | backend/main.py:328 | deleting one machine removes exactly its load from the total |
| Metrics.ItemsInsert | backend/main.py:328 | inserting one machine adds exactly its load |
| Metrics.ItemsPointwise | backend/main.py:328 | lists with the same load at each position have the same total |
| Metrics.Throughput | backend/main.py:329 | 0 unless time is positive; otherwise the rate that gives `total_completed` over time `t`, never negative |
| Metrics.AvgCycleTime | backend/main.py:330 | 0 with no cycle times; otherwise the value whose product with the count is the sum |
| Metrics.AvgCycleTimeBetween | backend/main.py:330 | the average lies between the smallest and the largest cycle time |
| Metrics.Utilization | backend/main.py:352 | 0 unless time is positive; otherwise busy time over time, within [0, 1] when the busy time is |
| Metrics.StatusOf | backend/main.py:334 | processing iff some item is in progress; idle iff nothing is in progress and the queue is empty; queued otherwise |
| Metrics.Clamp01 | backend/main.py:339 | the value clamped to [0, 1] |
| Metrics.Progress | backend/main.py:339 | within [0, 1]; with a positive takt it is 1 exactly when the item is finished, 0 exactly when no time has elapsed, and in between the elapsed time divided by the takt time |
| Metrics.View | backend/main.py:333-353 | one view per machine: id, name, link, status, item counts, buffer, takt time, completed count, an in-progress detail per item whose progress is Metrics.Progress of its start time (so in [0, 1]), and utilisation |
| Metrics.GetState | backend/main.py:324-363 | fails with DivisionByZero exactly when a machine with an item in progress has takt 0; otherwise the timestamp `t`, items in system, counters, throughput, average and one view per machine in list order |
| Invariants.InitialStateInv | backend/main.py:52-69 | the initial line satisfies the invariant with a zero balance |
| Invariants.TryPushBalance | backend/main.py:103-121 | a push keeps the item balance exactly |
| Invariants.PushPhaseBalance | backend/main.py:146-147 | the push phase keeps the balance exactly |
| Invariants.TickBalance | backend/main.py:141-156 | a tick keeps the balance exactly: the spawned item is both started and in the system |
| Invariants.TryPushWork | backend/main.py:99-121 | a push keeps at most one stamped item in progress per machine |
| Invariants.PushPhaseWork | backend/main.py:146-147 | the push phase keeps at most one stamped item in progress per machine |
| Invariants.TickInv | backend/main.py:141-156 | a tick keeps unique machine ids, at most one stamped in-progress item per machine, unique bounded item ids, and the balance |
| Invariants.AddAfterInv | backend/main.py:242-258 | inserting after a known machine keeps the invariant and the balance |
| Invariants.AddAtEndInv | backend/main.py:259-266 | appending keeps the invariant and the balance |
| Invariants.AddInv | backend/main.py:230-268 | a successful add keeps the invariant and the balance |
| Invariants.UpdateInv | backend/main.py:197-217 | every update outcome keeps the invariant and the balance |
| Invariants.EvictedItems | backend/main.py:281-305 | eviction removes the victim's load and adds back exactly what it hands over |
| Invariants.RemoveBalance | backend/main.py:286-305 | a removal raises the balance by exactly the items it neither hands over nor counts |
| Invariants.DroppedAtMostOne | backend/main.py:287-293 | under the invariant the only item that can be dropped is a terminal victim's in-progress item |
| Invariants.RemoveInv | backend/main.py:270-305 | a removal keeps the invariant and never lowers the balance |
| Invariants.SnapshotAccounts | backend/main.py:328 | in every reachable snapshot, started >= completed + items in system |
| Invariants.ApplyInv | backend/main.py:141-322 | every operation keeps the invariant; only a removal changes the balance, and only upward |
| Invariants.RunInv | backend/main.py:141-322 | any run of operations keeps the invariant, and keeps the balance exactly when it holds no removal |
| Invariants.PausedRunIsFrozen | backend/main.py:141-142 | a paused line stays exactly as it is through any run of ticks and pauses |
| Invariants.ConservationFrom | backend/main.py:103-136 | from a line with no unaccounted item, started >= completed + items in system after any run, with equality when the run holds no removal |
| ItemIdentity.HoldingUpdate | backend/main.py:103-121 | replacing one machine changes the count of an id by the difference of the two machines' counts |
| ItemIdentity.HoldingWithout | backend/main.py:305 | deleting one machine removes exactly its items of each id |
| ItemIdentity.HoldingInsert | backend/main.py:258-266 | inserting one machine adds exactly its items of each id |
| ItemIdentity.InitialIds | backend/main.py:52-69 | the initial line holds no item, so its item ids are unique and bounded |
| ItemIdentity.TryPushIds | backend/main.py:95-121 | a push never adds an item: each id is held at most as often as before |
| ItemIdentity.PushPhaseIds | backend/main.py:146-147 | the push phase never adds an item of any id |
| ItemIdentity.StartIds | backend/main.py:85-93 | starting moves an item from the queue to processing under its own id |
| ItemIdentity.StartPhaseIds | backend/main.py:150-151 | the start phase keeps the count of every id |
| ItemIdentity.SpawnIds | backend/main.py:128-136 | a spawn adds exactly one item, with id `item_id_seq + 1` |
| ItemIdentity.TickIds | backend/main.py:141-156 | a tick keeps item ids unique and none above `item_id_seq` |
| ItemIdentity.AddIds | backend/main.py:230-268 | add_machine changes the count of no id |
| ItemIdentity.UpdateIds | backend/main.py:197-217 | update_machine changes the count of no id |
| ItemIdentity.EvacueeIds | backend/main.py:286-296 | the evacuees carry no id the victim did not hold |
| ItemIdentity.EvictedIds | backend/main.py:281-305 | the survivors of a removal hold no id more often than the line did |
| ItemIdentity.RemoveIds | backend/main.py:270-305 | a removal keeps item ids unique and bounded |
| Engine.Line.constructor | backend/main.py:52-69 | the globals as the module starts: the initial line |
| Engine.Line.IndexOf | backend/main.py:176-180 | the loop finds the first position with the id, or None |
| Engine.Line.StartProcessingIfPossible | backend/main.py:85-93 | the machine at the position becomes Flow.StartProcessing of it; nothing else changes |
| Engine.Line.TryPushToNext | backend/main.py:95-121 | the state becomes Flow.TryPushToNext of it |
| Engine.Line.PushAt | backend/main.py:146-147 | one pass of the reverse loop leaves what is left of the push phase unchanged |
| Engine.Line.PushAll | backend/main.py:146-147 | the reverse loop leaves exactly the state of Flow.PushPhase |
| Engine.Line.StartAll | backend/main.py:150-151 | the forward loop leaves exactly Flow.StartPhase of the machines |
| Engine.Line.SpawnNewItemIfPossible | backend/main.py:123-136 | the state becomes Flow.SpawnNewItem of it |
| Engine.Line.Tick | backend/main.py:141-156 | the state becomes Flow.Tick of it |
| Engine.Line.StartSimulation | backend/main.py:309-315 | sets the flag and nothing else |
| Engine.Line.PauseSimulation | backend/main.py:317-322 | clears the flag and nothing else |
| Engine.Line.UpdateMachine | backend/main.py:197-228 | the state and outcome are those of Topology.UpdateMachine |
| Engine.Line.AddMachine | backend/main.py:230-268 | fails with NotFound and no change exactly when Topology.AddMachine does; otherwise the state of Topology.AddMachine and the new machine, which has the fresh id and is in the list |
| Engine.Line.RewireUpstream | backend/main.py:281-284 | the loop over upstream machines redirects exactly the machines that pointed at the target |
| Engine.Line.EvacuateInProgress | backend/main.py:286-293 | the machines become Topology.HandOverInProgress of them |
| Engine.Line.ShiftHead | backend/main.py:295-302 | one pass of the drain loop gives Topology.ShiftState |
| Engine.Line.DrainQueue | backend/main.py:294-302 | the drain loop gives Topology.DrainState |
| Engine.Line.RemoveMachine | backend/main.py:270-307 | NotFound with no change exactly for an unknown id; otherwise the state of Topology.RemoveMachine |
| Engine.Line.GetState | backend/main.py:324-363 | the view loop returns exactly Metrics.GetState |
| Engine.ItemDetail | backend/main.py:336-340 | the progress list of the machine's in-progress items, or DivisionByZero exactly when the takt is 0 and some item is in progress |

## Left out

- The FastAPI application, the pydantic request and response classes, `HTTPException` and the read-only `/` and `/machines` routes are left out. Errors are `Error` values.
- The JSON bodies that the routes return are left out. `update_machine` returns only its outcome; `add_machine` returns the new machine; `remove_machine` returns only its outcome.
- `threading`, `state_lock`, the daemon thread, `ensure_thread` and `time.sleep` are left out. Each operation is treated as atomic.
- The clock (`now()`, `time.time()`, `t0`) is left out: the current time is a parameter.
- `remove_machine` reads the clock at line 291 and once per drained item at line 302. The model uses one time `t` for all of these reads.
- `last_tick` is written but never read, so it is not modelled.
- `round(...)` in the snapshot is floating-point presentation and is left out: timestamp, throughput and average are exact.
- Floats are modelled as exact reals.
- `response_model` validation of the snapshot is left out.
- Engine.Line.Tick: requires what keeps the tick from raising. Every item in progress must carry a `start_time`, which the invariant guarantees. A finished item's `next` must name an existing machine, since the code raises KeyError part-way through a tick otherwise. The code's behaviour after that KeyError is not modelled.
- Engine.Line.RemoveMachine: requires that a victim holding items, and having a successor, names a machine at another position. A dangling link raises KeyError part-way through the removal. A link to itself loops forever at lines 294-296.
- Engine.Line.GetState: requires every in-progress item to carry a `start_time`. The invariant guarantees it; the code would raise KeyError otherwise.
- Engine.ItemDetail: reads `item_id` directly. Every item has one, so the default of -1 at line 340 is never used.
- Machines are values in a sequence, and the class updates a machine by replacing its entry. `get_machine` returns a position, not an object reference. This is exact because each machine object sits in the list once.
- `upstream_of` returns positions, not object references.
