// One tick of the engine (backend/main.py, lines 85-156), as functions on the state:
// the finish-and-push phase over the list in reverse, the start phase over the list
// in order, then one spawn attempt. Engine.Line.Tick runs it in place.

module Flow {
  import opened Model
  import opened Topology

  /** The fields a tick never writes: identity, wiring and parameters. */
  predicate SameWiring(a: Machine, b: Machine)
  {
    a.id == b.id && a.name == b.name && a.next == b.next && a.taktTime == b.taktTime && a.buffer == b.buffer
  }

  /** Two machine lists with the same machines, in the same order, wired the same way. */
  predicate SameLayout(a: seq<Machine>, b: seq<Machine>)
  {
    |a| == |b| && forall k :: 0 <= k < |a| ==> SameWiring(a[k], b[k])
  }

  lemma SameLayoutKeepsIds(a: seq<Machine>, b: seq<Machine>)
    requires SameLayout(a, b)
    ensures forall mid :: HasId(a, mid) <==> HasId(b, mid)
    ensures forall mid :: FirstIndex(a, mid) == FirstIndex(b, mid)
  {
    FirstIndexByIds(a, b);
  }

  lemma SameLayoutTransitive(a: seq<Machine>, b: seq<Machine>, c: seq<Machine>)
    requires SameLayout(a, b) && SameLayout(b, c)
    ensures SameLayout(a, c)
  {
  }

  // ---------------------------------------------------------------------------
  // start_processing_if_possible (lines 85-93)

  /** The item as it enters processing: `start_time` is now, `entered_machine_at`
      is set only the first time. */
  function Stamp(item: Item, t: real): (r: Item)
    ensures r.itemId == item.itemId && r.createdAt == item.createdAt
    ensures r.startTime == Some(t)
    ensures item.enteredMachineAt.Some? ==> r.enteredMachineAt == item.enteredMachineAt
    ensures item.enteredMachineAt.None? ==> r.enteredMachineAt == Some(t)
  {
    item.(startTime := Some(t),
          enteredMachineAt := if item.enteredMachineAt.None? then Some(t) else item.enteredMachineAt)
  }

  /** An idle machine with a waiting item takes the head of its queue (FIFO) into
      processing; otherwise nothing changes. Afterwards an idle machine has an empty queue. */
  function StartProcessing(m: Machine, t: real): (r: Machine)
    ensures SameWiring(m, r) && r.completed == m.completed && r.busyTime == m.busyTime
    ensures |r.inProgress| + |r.queue| == |m.inProgress| + |m.queue|
    ensures m.inProgress == [] && m.queue != [] ==>
      && r.inProgress == [Stamp(m.queue[0], t)]
      && r.queue == m.queue[1..]
      && r.lastStateChange == t
    ensures !(m.inProgress == [] && m.queue != []) ==> r == m
    ensures r.inProgress == [] ==> r.queue == []
  {
    if |m.inProgress| == 0 && |m.queue| > 0 then
      m.(queue := m.queue[1..], inProgress := m.inProgress + [Stamp(m.queue[0], t)], lastStateChange := t)
    else
      m
  }

  /** The start phase (lines 150-151): every machine, in list order. */
  function StartPhase(ms: seq<Machine>, t: real): (r: seq<Machine>)
    ensures |r| == |ms|
    ensures forall k :: 0 <= k < |ms| ==> r[k] == StartProcessing(ms[k], t)
    ensures SameLayout(ms, r)
  {
    seq(|ms|, k requires 0 <= k < |ms| => StartProcessing(ms[k], t))
  }

  // ---------------------------------------------------------------------------
  // try_push_to_next (lines 95-121)

  /** The item in progress carries a `start_time` (line 100 reads it). */
  predicate HeadStamped(m: Machine)
  {
    m.inProgress != [] ==> m.inProgress[0].startTime.Some?
  }

  /** The item in progress has been processed for at least the takt time (line 101). */
  predicate Finished(m: Machine, t: real)
    requires HeadStamped(m)
  {
    m.inProgress != [] && t - m.inProgress[0].startTime.value >= m.taktTime
  }

  /** What try_push_to_next needs at position `i` to run without a KeyError: a stamped
      item, and a finished item's `next` naming an existing machine (line 116). */
  predicate PushReady(ms: seq<Machine>, i: nat, t: real)
    requires i < |ms|
  {
    HeadStamped(ms[i]) && (Finished(ms[i], t) && ms[i].next.Some? ==> HasId(ms, ms[i].next.value))
  }

  /** The machine once its item is finished: counted as completed and busy for one
      takt time, whether or not the item can move on (lines 103-106). */
  function Finish(m: Machine, t: real): (r: Machine)
    requires m.inProgress != []
    ensures SameWiring(m, r) && r.queue == m.queue
    ensures r.inProgress == m.inProgress[1..]
    ensures r.completed == m.completed + 1 && r.busyTime == m.busyTime + m.taktTime
    ensures r.lastStateChange == t
  {
    m.(inProgress := m.inProgress[1..], completed := m.completed + 1,
       busyTime := m.busyTime + m.taktTime, lastStateChange := t)
  }

  /** try_push_to_next for the machine at position `i`: a finished item leaves the line
      at a terminal machine, moves to the end of the successor's queue if that queue is
      shorter than its buffer, and otherwise goes back to the head of its own queue. */
  function TryPushToNext(s: State, i: nat, t: real): (r: State)
    requires i < |s.machines| && PushReady(s.machines, i, t)
    ensures |r.machines| == |s.machines|
    ensures r.running == s.running && r.totalStarted == s.totalStarted && r.itemIdSeq == s.itemIdSeq
  {
    var m := s.machines[i];
    if m.inProgress == [] then s
    else
      var item := m.inProgress[0];
      if t - item.startTime.value >= m.taktTime then
        var done := Finish(m, t);
        var ms := s.machines[i := done];
        match m.next
        case None =>
          s.(machines := ms, totalCompleted := s.totalCompleted + 1,
             cycleTimes := s.cycleTimes + [t - item.createdAt])
        case Some(n) =>
          // finishing changes no id, so get_machine finds the same position as before
          var j := FirstIndex(s.machines, n).value;
          if |ms[j].queue| < ms[j].buffer then
            s.(machines := ms[j := ms[j].(queue := ms[j].queue + [item])])
          else
            s.(machines := ms[i := done.(queue := [item] + done.queue)])
      else s
  }

  /** What one push does: only position `i` and the item's destination change; a
      finished item is counted at `i`, and then leaves the line at a terminal machine,
      joins the end of the successor's queue when there is room, or returns to the head
      of its own queue. An unfinished item changes nothing. */
  lemma TryPushEffect(s: State, i: nat, t: real)
    requires i < |s.machines| && PushReady(s.machines, i, t)
    ensures SameLayout(s.machines, TryPushToNext(s, i, t).machines)
    ensures var r := TryPushToNext(s, i, t);
      forall k :: 0 <= k < |s.machines| && k != i ==>
        && r.machines[k].inProgress == s.machines[k].inProgress
        && r.machines[k].completed == s.machines[k].completed
        && r.machines[k].busyTime == s.machines[k].busyTime
        && r.machines[k].lastStateChange == s.machines[k].lastStateChange
    ensures !Finished(s.machines[i], t) ==> TryPushToNext(s, i, t) == s
    ensures Finished(s.machines[i], t) ==>
      var m, r := s.machines[i], TryPushToNext(s, i, t);
      && r.machines[i].inProgress == m.inProgress[1..]
      && r.machines[i].completed == m.completed + 1
      && r.machines[i].busyTime == m.busyTime + m.taktTime
      && r.machines[i].lastStateChange == t
    ensures Finished(s.machines[i], t) && s.machines[i].next.None? ==>
      var item, r := s.machines[i].inProgress[0], TryPushToNext(s, i, t);
      && r.totalCompleted == s.totalCompleted + 1
      && r.cycleTimes == s.cycleTimes + [t - item.createdAt]
      && forall k :: 0 <= k < |s.machines| ==> r.machines[k].queue == s.machines[k].queue
    ensures Finished(s.machines[i], t) && s.machines[i].next.Some? ==>
      var item, r := s.machines[i].inProgress[0], TryPushToNext(s, i, t);
      var j := FirstIndex(s.machines, s.machines[i].next.value).value;
      var room := |s.machines[j].queue| < s.machines[j].buffer;
      var dest := if room then j else i;
      && r.totalCompleted == s.totalCompleted && r.cycleTimes == s.cycleTimes
      && r.machines[dest].queue == (if room then s.machines[j].queue + [item] else [item] + s.machines[i].queue)
      && forall k :: 0 <= k < |s.machines| && k != dest ==> r.machines[k].queue == s.machines[k].queue
  {
  }

  /** Every position below `k` is ready to push. */
  predicate PushReadyBelow(s: State, k: nat, t: real)
    requires k <= |s.machines|
  {
    forall i :: 0 <= i < k ==> PushReady(s.machines, i, t)
  }

  /** Pushing at position `k - 1` leaves the positions below it ready. */
  lemma PushKeepsReady(s: State, k: nat, t: real)
    requires 0 < k <= |s.machines| && PushReadyBelow(s, k, t)
    ensures PushReadyBelow(TryPushToNext(s, k - 1, t), k - 1, t)
  {
    var r := TryPushToNext(s, k - 1, t);
    TryPushEffect(s, k - 1, t);
    SameLayoutKeepsIds(s.machines, r.machines);
    forall i | 0 <= i < k - 1 ensures PushReady(r.machines, i, t) {
      assert PushReady(s.machines, i, t);
      assert SameWiring(s.machines[i], r.machines[i]);
    }
  }

  /** The push phase (lines 146-147) over positions `k - 1` down to 0. */
  function PushPhase(s: State, k: nat, t: real): (r: State)
    requires k <= |s.machines| && PushReadyBelow(s, k, t)
    ensures |r.machines| == |s.machines|
    ensures r.running == s.running && r.totalStarted == s.totalStarted && r.itemIdSeq == s.itemIdSeq
    decreases k
  {
    if k == 0 then s
    else
      PushKeepsReady(s, k, t);
      PushPhase(TryPushToNext(s, k - 1, t), k - 1, t)
  }

  /** The push phase never rewires, renames or reorders the line. */
  lemma {:induction false} PushPhaseLayout(s: State, k: nat, t: real)
    requires k <= |s.machines| && PushReadyBelow(s, k, t)
    ensures SameLayout(s.machines, PushPhase(s, k, t).machines)
    decreases k
  {
    if k > 0 {
      var s1 := TryPushToNext(s, k - 1, t);
      TryPushEffect(s, k - 1, t);
      PushKeepsReady(s, k, t);
      PushPhaseLayout(s1, k - 1, t);
      SameLayoutTransitive(s.machines, s1.machines, PushPhase(s1, k - 1, t).machines);
    }
  }

  // ---------------------------------------------------------------------------
  // spawn_new_item_if_possible (lines 123-136)

  /** The item the source would spawn next. */
  function NewItem(s: State, t: real): Item
  {
    Item(s.itemIdSeq + 1, t, None, None)
  }

  /** The source appends a fresh item to the first machine's queue when that queue is
      shorter than its buffer; on an empty line or a full first queue nothing changes. */
  function SpawnNewItem(s: State, t: real): (r: State)
    ensures SameLayout(s.machines, r.machines) && r.running == s.running
    ensures r.totalCompleted == s.totalCompleted && r.cycleTimes == s.cycleTimes
    ensures (s.machines == [] || |s.machines[0].queue| >= s.machines[0].buffer) ==> r == s
    ensures s.machines != [] && |s.machines[0].queue| < s.machines[0].buffer ==>
      && r.itemIdSeq == s.itemIdSeq + 1
      && r.totalStarted == s.totalStarted + 1
      && r.machines[0] == s.machines[0].(queue := s.machines[0].queue + [Item(s.itemIdSeq + 1, t, None, None)])
      && forall k :: 0 < k < |s.machines| ==> r.machines[k] == s.machines[k]
  {
    if s.machines == [] then s
    else
      var first := s.machines[0];
      if |first.queue| < first.buffer then
        s.(itemIdSeq := s.itemIdSeq + 1,
           machines := s.machines[0 := first.(queue := first.queue + [NewItem(s, t)])],
           totalStarted := s.totalStarted + 1)
      else s
  }

  // ---------------------------------------------------------------------------
  // the tick (lines 141-156)

  /** What a running tick needs: every position ready to push. */
  predicate TickReady(s: State, t: real)
  {
    PushReadyBelow(s, |s.machines|, t)
  }

  /** One step of the push phase: position `k - 1` pushes, then the positions below it. */
  lemma PushStep(s: State, k: nat, t: real)
    requires 0 < k <= |s.machines| && PushReadyBelow(s, k, t)
    ensures PushReadyBelow(TryPushToNext(s, k - 1, t), k - 1, t)
    ensures PushPhase(s, k, t) == PushPhase(TryPushToNext(s, k - 1, t), k - 1, t)
  {
    PushKeepsReady(s, k, t);
  }

  /** The state after the push phase and the start phase of a running tick. */
  function PushAndStart(s: State, t: real): (r: State)
    requires TickReady(s, t)
    ensures SameLayout(s.machines, r.machines)
    ensures r.running == s.running && r.totalStarted == s.totalStarted && r.itemIdSeq == s.itemIdSeq
  {
    var pushed := PushPhase(s, |s.machines|, t);
    var r := pushed.(machines := StartPhase(pushed.machines, t));
    PushPhaseLayout(s, |s.machines|, t);
    SameLayoutTransitive(s.machines, pushed.machines, r.machines);
    r
  }

  /** One tick at time `t`: nothing when paused; otherwise push, start, spawn. A tick
      never rewires, renames or reorders the line, and starts at most one item. */
  function Tick(s: State, t: real): (r: State)
    requires s.running ==> TickReady(s, t)
    ensures !s.running ==> r == s
    ensures SameLayout(s.machines, r.machines) && r.running == s.running
    ensures r.totalStarted - s.totalStarted == r.itemIdSeq - s.itemIdSeq
    ensures s.itemIdSeq <= r.itemIdSeq <= s.itemIdSeq + 1
  {
    if !s.running then s
    else
      var started := PushAndStart(s, t);
      var r := SpawnNewItem(started, t);
      SameLayoutTransitive(s.machines, started.machines, r.machines);
      r
  }

  /** After a running tick no machine other than the first sits idle with a waiting
      item, and the first holds at most the one item just spawned in that state. */
  lemma TickLeavesNoIdleWork(s: State, t: real)
    requires s.running && TickReady(s, t)
    ensures var r := Tick(s, t);
      && (forall k :: 0 < k < |r.machines| && r.machines[k].inProgress == [] ==> r.machines[k].queue == [])
      && (r.machines != [] && r.machines[0].inProgress == [] ==> |r.machines[0].queue| <= 1)
  {
    var started := PushAndStart(s, t);
    assert forall k :: 0 <= k < |started.machines| && started.machines[k].inProgress == [] ==>
      started.machines[k].queue == [];
  }

  /** The spawn step of a running tick, stated on the state the start phase leaves:
      a new item with the next id and creation time `t` joins the end of the first queue
      exactly when that queue is shorter than its buffer. */
  lemma TickSpawns(s: State, t: real)
    requires s.running && TickReady(s, t) && s.machines != []
    ensures var started := PushAndStart(s, t);
      var r := Tick(s, t);
      && (|started.machines[0].queue| < started.machines[0].buffer <==> r.totalStarted == s.totalStarted + 1)
      && (|started.machines[0].queue| < started.machines[0].buffer ==>
            r.machines[0].queue == started.machines[0].queue + [Item(s.itemIdSeq + 1, t, None, None)])
  {
  }
}
