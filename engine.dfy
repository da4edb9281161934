// The engine as the module globals of backend/main.py hold it: a line object whose
// fields are `machines`, `running` and the four counters, and whose methods change
// them step by step as the Python functions do. Each method is proved to leave the
// state that the matching function of Topology, Flow or Metrics describes.

module Engine {
  import opened Model
  import opened Topology
  import opened Flow
  import opened Metrics

  class Line {
    var machines: seq<Machine>
    var running: bool
    var totalStarted: int
    var totalCompleted: int
    var cycleTimes: seq<real>
    var itemIdSeq: int

    /** The globals as one state value. */
    function Abs(): State
      reads this
    {
      State(machines, running, totalStarted, totalCompleted, cycleTimes, itemIdSeq)
    }

    /** The module as imported: the three-machine line, paused, no items (lines 52-69). */
    constructor ()
      ensures Abs() == InitialState()
    {
      machines := [
        NewMachine(1, "Cutting", Some(2), 5.0, 2),
        NewMachine(2, "Assembly", Some(3), 7.5, 2),
        NewMachine(3, "Packaging", None, 3.0, 1)];
      running := false;
      totalStarted := 0;
      totalCompleted := 0;
      cycleTimes := [];
      itemIdSeq := 0;
    }

    /** index_of (lines 176-180), also the lookup of get_machine (lines 79-83): the
        position of the first machine with id `mid`, None where the code raises KeyError. */
    method IndexOf(mid: int) returns (r: Option<nat>)
      ensures r == FirstIndex(machines, mid)
      ensures r.Some? ==> r.value < |machines| && machines[r.value].id == mid
      ensures r.None? <==> !HasId(machines, mid)
    {
      var i := 0;
      while i < |machines|
        invariant 0 <= i <= |machines|
        invariant forall j :: 0 <= j < i ==> machines[j].id != mid
      {
        if machines[i].id == mid {
          return Some(i);
        }
        i := i + 1;
      }
      return None;
    }

    // -------------------------------------------------------------------------
    // the tick

    /** start_processing_if_possible for the machine at position `i` (lines 85-93). */
    method StartProcessingIfPossible(i: nat, t: real)
      requires i < |machines|
      modifies this
      ensures Abs() == old(Abs()).(machines := old(machines)[i := StartProcessing(old(machines)[i], t)])
    {
      var m := machines[i];
      if |m.inProgress| == 0 && |m.queue| > 0 {
        var item := m.queue[0];
        m := m.(queue := m.queue[1..]);
        item := item.(startTime := Some(t));
        if item.enteredMachineAt.None? {
          item := item.(enteredMachineAt := Some(t));
        }
        m := m.(inProgress := m.inProgress + [item], lastStateChange := t);
        machines := machines[i := m];
      }
    }

    /** try_push_to_next for the machine at position `i` (lines 95-121). */
    method TryPushToNext(i: nat, t: real)
      requires i < |machines| && PushReady(machines, i, t)
      modifies this
      ensures Abs() == Flow.TryPushToNext(old(Abs()), i, t)
    {
      ghost var s0 := Abs();
      var m := machines[i];
      if |m.inProgress| == 0 {
        return;
      }
      var item := m.inProgress[0];
      var elapsed := t - item.startTime.value;
      if elapsed >= m.taktTime {
        m := m.(inProgress := m.inProgress[1..], completed := m.completed + 1,
                busyTime := m.busyTime + m.taktTime, lastStateChange := t);
        machines := machines[i := m];
        ghost var ms := machines;
        assert m == Finish(s0.machines[i], t);
        match m.next
        case None =>
          totalCompleted := totalCompleted + 1;
          cycleTimes := cycleTimes + [t - item.createdAt];
        case Some(nxt) =>
          FirstIndexById(old(machines), machines, nxt);
          var found := IndexOf(nxt);
          var j := found.value;
          assert FirstIndex(s0.machines, nxt) == Some(j);
          if |machines[j].queue| < machines[j].buffer {
            machines := machines[j := machines[j].(queue := machines[j].queue + [item])];
            assert Abs() == s0.(machines := ms[j := ms[j].(queue := ms[j].queue + [item])]);
          } else {
            machines := machines[i := machines[i].(queue := [item] + machines[i].queue)];
            assert Abs() == s0.(machines := ms[i := m.(queue := [item] + m.queue)]);
          }
      }
    }

    /** One pass of the push loop at lines 146-147: position `k - 1` pushes, and what
        is left of the push phase is the part below it. */
    method PushAt(k: nat, t: real)
      requires 0 < k <= |machines| && PushReadyBelow(Abs(), k, t)
      modifies this
      ensures k - 1 <= |machines| && PushReadyBelow(Abs(), k - 1, t)
      ensures PushPhase(Abs(), k - 1, t) == PushPhase(old(Abs()), k, t)
    {
      PushStep(Abs(), k, t);
      TryPushToNext(k - 1, t);
    }

    /** spawn_new_item_if_possible (lines 123-136). */
    method SpawnNewItemIfPossible(t: real)
      modifies this
      ensures Abs() == SpawnNewItem(old(Abs()), t)
    {
      if |machines| == 0 {
        return;
      }
      var first := machines[0];
      if |first.queue| < first.buffer {
        itemIdSeq := itemIdSeq + 1;
        var item := Item(itemIdSeq, t, None, None);
        machines := machines[0 := first.(queue := first.queue + [item])];
        totalStarted := totalStarted + 1;
      }
    }

    /** The body of simulation_loop at time `t` (lines 141-156): when running, every
        machine from the last to the first tries to push, then every machine from the
        first to the last tries to start, then the source tries to spawn once. */
    method Tick(t: real)
      requires running ==> TickReady(Abs(), t)
      modifies this
      ensures Abs() == Flow.Tick(old(Abs()), t)
    {
      if !running {
        return;
      }
      PushAll(t);
      StartAll(t);
      SpawnNewItemIfPossible(t);
    }

    /** The push loop of tick (lines 146-147): from the last machine to the first. */
    method PushAll(t: real)
      requires TickReady(Abs(), t)
      modifies this
      ensures Abs() == PushPhase(old(Abs()), |old(machines)|, t)
    {
      ghost var goal := PushPhase(Abs(), |machines|, t);
      var k := |machines|;
      while k > 0
        invariant 0 <= k <= |machines|
        invariant PushReadyBelow(Abs(), k, t)
        invariant PushPhase(Abs(), k, t) == goal
        decreases k
      {
        PushAt(k, t);
        k := k - 1;
      }
    }

    /** The start loop of tick (lines 150-151): from the first machine to the last. */
    method StartAll(t: real)
      modifies this
      ensures Abs() == old(Abs()).(machines := StartPhase(old(machines), t))
    {
      ghost var pushed := Abs();
      var i := 0;
      while i < |machines|
        invariant 0 <= i <= |machines| == |pushed.machines|
        invariant forall p :: 0 <= p < i ==> machines[p] == StartProcessing(pushed.machines[p], t)
        invariant forall p :: i <= p < |machines| ==> machines[p] == pushed.machines[p]
        invariant Abs() == pushed.(machines := machines)
      {
        StartProcessingIfPossible(i, t);
        i := i + 1;
      }
      assert machines == StartPhase(pushed.machines, t);
    }

    // -------------------------------------------------------------------------
    // start_simulation, pause_simulation (lines 309-322)

    method StartSimulation()
      modifies this
      ensures Abs() == old(Abs()).(running := true)
    {
      running := true;
    }

    method PauseSimulation()
      modifies this
      ensures Abs() == old(Abs()).(running := false)
    {
      running := false;
    }

    // -------------------------------------------------------------------------
    // update_machine (lines 197-228)

    /** update_machine: the fields are written one by one, so a negative buffer is
        rejected after a valid takt time has already been stored. */
    method UpdateMachine(req: UpdateRequest) returns (r: Outcome)
      modifies this
      ensures (Abs(), r) == Topology.UpdateMachine(old(Abs()), req)
    {
      ghost var s0 := Abs();
      var found := IndexOf(req.id);
      if found.None? {
        return Fail(NotFound);
      }
      var i := found.value;
      if req.taktTime.Some? {
        if req.taktTime.value <= 0.0 {
          return Fail(TaktNotPositive);
        }
        machines := machines[i := machines[i].(taktTime := req.taktTime.value)];
      }
      ghost var m1 := machines[i];
      assert machines == s0.machines[i := m1];
      if req.buffer.Some? {
        if req.buffer.value < 0 {
          assert Abs() == s0.(machines := s0.machines[i := m1]);
          return Fail(BufferNegative);
        }
        machines := machines[i := machines[i].(buffer := req.buffer.value)];
      }
      if req.name.Some? {
        machines := machines[i := machines[i].(name := req.name.value)];
      }
      ghost var m3 := machines[i];
      machines := machines[i := machines[i].(next := req.next)];
      assert machines == s0.machines[i := m3.(next := req.next)];
      return Pass;
    }

    // -------------------------------------------------------------------------
    // add_machine (lines 230-268)

    /** add_machine: returns the new machine, or NotFound (HTTP 404) with no change. */
    method AddMachine(req: AddRequest) returns (r: Result<Machine>)
      modifies this
      ensures r.Ok? <==> Topology.AddMachine(old(Abs()), req).Ok?
      ensures r.Err? ==> r.error == NotFound && Abs() == old(Abs())
      ensures r.Ok? ==> Abs() == Topology.AddMachine(old(Abs()), req).value
      ensures r.Ok? ==> r.value.id == NextId(old(machines)) && r.value in machines
    {
      ghost var s0 := Abs();
      var newId := NextId(machines);
      var created := NewMachine(newId, req.name, None, req.taktTime, req.buffer);
      if req.insertAfterId.Some? {
        var found := IndexOf(req.insertAfterId.value);
        if found.None? {
          return Err(NotFound);
        }
        var idx := found.value;
        var prev := machines[idx];
        var oldNext := prev.next;
        machines := machines[idx := prev.(next := Some(newId))];
        ghost var ms1 := machines;
        created := created.(next := if req.next.Some? then req.next else oldNext);
        machines := machines[..idx + 1] + [created] + machines[idx + 1..];
        assert Topology.AddMachine(s0, req) == Ok(s0.(machines := ms1[..idx + 1] + [created] + ms1[idx + 1..]));
        assert machines[idx + 1] == created;
      } else {
        if |machines| > 0 {
          var last := machines[|machines| - 1];
          machines := machines[|machines| - 1 := last.(next := Some(newId))];
        }
        ghost var ms1 := machines;
        created := created.(next := if req.next.Some? then req.next else None);
        machines := machines + [created];
        assert Topology.AddMachine(s0, req) == Ok(s0.(machines := ms1 + [created]));
        assert machines[|machines| - 1] == created;
      }
      return Ok(created);
    }

    // -------------------------------------------------------------------------
    // remove_machine (lines 270-307)

    /** Lines 282-284: every machine whose `next` is `target` now points at `newNext`. */
    method RewireUpstream(target: int, newNext: Option<int>)
      modifies this
      ensures Abs() == old(Abs()).(machines := Redirect(old(machines), target, newNext))
    {
      var ups := UpstreamOf(machines, target);
      ghost var before := machines;
      for u := 0 to |ups|
        invariant |machines| == |before|
        invariant forall k :: 0 <= k < |before| ==>
          machines[k] == if k in ups[..u] then before[k].(next := newNext) else before[k]
        invariant Abs() == old(Abs()).(machines := machines)
      {
        var p := ups[u];
        assert p in ups && ups[..u + 1] == ups[..u] + [p];
        assert p !in ups[..u] by {
          forall a | 0 <= a < u ensures ups[..u][a] != p {
            assert ups[..u][a] == ups[a] < ups[u];
          }
        }
        machines := machines[p := machines[p].(next := newNext)];
      }
      assert ups[..|ups|] == ups;
    }

    /** Lines 287-293 on the machine at `idx`. */
    method EvacuateInProgress(idx: nat, t: real)
      requires idx < |machines| && CanEvict(machines, idx)
      modifies this
      ensures Abs() == old(Abs()).(machines := HandOverInProgress(old(machines), idx, t))
    {
      var victim := machines[idx];
      if victim.inProgress != [] {
        var item := victim.inProgress[0];
        machines := machines[idx := victim.(inProgress := victim.inProgress[1..])];
        item := item.(startTime := Some(t));
        if victim.next.Some? {
          FirstIndexByIds(old(machines), machines);
          var found := IndexOf(victim.next.value);
          var j := found.value;
          machines := machines[j := machines[j].(queue := machines[j].queue + [item])];
        }
      }
    }

    /** Lines 294-302 on the machine at `idx`: its queue is emptied from the head, each
        item appended to the successor's queue or, with no successor, counted as
        completed with its cycle time. */
    method DrainQueue(idx: nat, t: real)
      requires idx < |machines| && CanEvict(machines, idx)
      modifies this
      ensures Abs() == DrainState(old(Abs()), idx, t)
    {
      ghost var s0 := Abs();
      while machines[idx].queue != []
        invariant idx < |machines| && CanEvict(machines, idx)
        invariant DrainState(Abs(), idx, t) == DrainState(s0, idx, t)
        decreases |machines[idx].queue|
      {
        ShiftHead(idx, t);
      }
    }

    /** One pass of the loop at lines 294-302: the head of the queue at `idx` goes to
        the successor's queue or, with no successor, is counted as completed. */
    method ShiftHead(idx: nat, t: real)
      requires idx < |machines| && machines[idx].queue != [] && CanEvict(machines, idx)
      modifies this
      ensures Abs() == ShiftState(old(Abs()), idx, t)
    {
      if machines[idx].next.Some? {
        var found := IndexOf(machines[idx].next.value);
        var k := found.value;
        var it := machines[idx].queue[0];
        machines := machines[idx := machines[idx].(queue := machines[idx].queue[1..])];
        machines := machines[k := machines[k].(queue := machines[k].queue + [it])];
      } else {
        var it := machines[idx].queue[0];
        machines := machines[idx := machines[idx].(queue := machines[idx].queue[1..])];
        totalCompleted := totalCompleted + 1;
        cycleTimes := cycleTimes + [t - it.createdAt];
      }
    }

    /** remove_machine at time `t`: NotFound (HTTP 404) with no change, or the victim
        is evicted as Topology.RemoveMachine describes. */
    method RemoveMachine(id: int, t: real) returns (r: Outcome)
      requires RemoveSafe(Abs(), id)
      modifies this
      ensures r == Pass <==> HasId(old(machines), id)
      ensures r.Fail? ==> r.error == NotFound && Abs() == old(Abs())
      ensures r == Pass ==> Abs() == Topology.RemoveMachine(old(Abs()), id, t).value
    {
      var found := IndexOf(id);
      if found.None? {
        return Fail(NotFound);
      }
      var idx := found.value;
      var victim := machines[idx];
      RemovalSteps(Abs(), idx, t);
      ghost var s0 := Abs();
      RewireUpstream(victim.id, victim.next);
      EvacuateInProgress(idx, t);
      DrainQueue(idx, t);
      ghost var d := Abs();
      machines := machines[..idx] + machines[idx + 1..];
      assert Abs() == d.(machines := Without(d.machines, idx));
      r := Pass;
    }

    // -------------------------------------------------------------------------
    // get_state (lines 324-363)

    /** get_state at time `t`: the loop of lines 332-353 builds one view per machine;
        a division by a takt time of 0 raises, which is the DivisionByZero result. */
    method GetState(t: real) returns (r: Result<Snapshot>)
      requires AllStamped(machines)
      ensures r == Metrics.GetState(Abs(), t)
    {
      var inSystem := ItemsInSystem(machines);
      var throughput := Throughput(totalCompleted, t);
      var avgCt := AvgCycleTime(cycleTimes);
      var ms := machines;
      var views: seq<MachineView> := [];
      var i := 0;
      while i < |machines|
        invariant 0 <= i <= |machines| && |views| == i
        invariant forall p :: 0 <= p < i ==> Viewable(machines[p]) && views[p] == View(machines[p], t)
      {
        var m := machines[i];
        assert Stamped(m);
        var detail := ItemDetail(m, t);
        if detail.Err? {
          return Err(DivisionByZero);
        }
        var view := MachineView(m.id, m.name, m.next, StatusOf(m), |m.inProgress|, detail.value, |m.queue|,
                                m.buffer, m.taktTime, m.completed, Utilization(m.busyTime, t));
        views := views + [view];
        i := i + 1;
      }
      ghost var spec := Metrics.GetState(Abs(), t);
      assert spec.Ok?;
      assert spec.value.machines == views;
      return Ok(Snapshot(t, inSystem, throughput, totalStarted, totalCompleted, avgCt, views));
    }
  }

  // ---------------------------------------------------------------------------
  // get_state (lines 324-363)

  /** The inner loop of lines 337-340: the progress of each in-progress item of `m`;
      dividing by a takt time of 0 raises, which is the DivisionByZero result. */
  method ItemDetail(m: Machine, t: real) returns (r: Result<seq<ItemProgress>>)
    requires Stamped(m)
    ensures r.Err? <==> !Viewable(m)
    ensures r.Err? ==> r.error == DivisionByZero
    ensures r.Ok? ==> r.value == View(m, t).inProgressDetail
  {
    var detail: seq<ItemProgress> := [];
    var j := 0;
    while j < |m.inProgress|
      invariant 0 <= j <= |m.inProgress| && |detail| == j
      invariant j > 0 ==> m.taktTime != 0.0
      invariant forall p :: 0 <= p < j ==>
        detail[p] == ItemProgress(m.inProgress[p].itemId, Progress(m.inProgress[p].startTime.value, m.taktTime, t))
    {
      if m.taktTime == 0.0 {
        return Err(DivisionByZero);
      }
      var it := m.inProgress[j];
      var p := Clamp01((t - it.startTime.value) / m.taktTime);
      detail := detail + [ItemProgress(it.itemId, p)];
      j := j + 1;
    }
    return Ok(detail);
  }
}
