// What the engine keeps true across its operations: the item balance
// total_started - total_completed - items_in_system (exact under a tick, add and update;
// a remove may only raise it), unique machine ids, at most one in-progress item per
// machine, a start_time on every in-progress item, and unique item ids.

module Invariants {
  import opened Model
  import opened Topology
  import opened Flow
  import opened Metrics
  import opened ItemIdentity

  /** Items started but neither completed nor in the system. Zero on a line that lost
      nothing; remove_machine's dropped in-progress items make it positive. */
  function Balance(s: State): int
  {
    s.totalStarted - s.totalCompleted - ItemsInSystem(s.machines)
  }

  predicate UniqueIds(ms: seq<Machine>)
  {
    forall a, b :: 0 <= a < b < |ms| ==> ms[a].id != ms[b].id
  }

  predicate AtMostOneInProgress(ms: seq<Machine>)
  {
    forall k :: 0 <= k < |ms| ==> |ms[k].inProgress| <= 1
  }

  /** The invariant of every reachable state. */
  ghost predicate Inv(s: State)
  {
    && UniqueIds(s.machines) && AtMostOneInProgress(s.machines) && AllStamped(s.machines)
    && Balance(s) >= 0 && ItemIdsOk(s)
  }

  lemma InitialStateInv()
    ensures Inv(InitialState()) && Balance(InitialState()) == 0
  {
    var s := InitialState();
    assert ItemsInSystem(s.machines) == 0;
    InitialIds();
  }

  // ---------------------------------------------------------------------------
  // the tick

  lemma TryPushBalance(s: State, i: nat, t: real)
    requires i < |s.machines| && PushReady(s.machines, i, t)
    ensures Balance(TryPushToNext(s, i, t)) == Balance(s)
  {
    var m := s.machines[i];
    var r := TryPushToNext(s, i, t);
    if Finished(m, t) {
      var item := m.inProgress[0];
      var done := Finish(m, t);
      var ms := s.machines[i := done];
      ItemsUpdate(s.machines, i, done);
      if m.next.Some? {
        var j := FirstIndex(s.machines, m.next.value).value;
        if |ms[j].queue| < ms[j].buffer {
          var down := ms[j].(queue := ms[j].queue + [item]);
          ItemsUpdate(ms, j, down);
          assert r.machines == ms[j := down];
        } else {
          var back := done.(queue := [item] + done.queue);
          ItemsUpdate(s.machines, i, back);
          assert r.machines == s.machines[i := back];
        }
      }
    }
  }

  lemma {:induction false} PushPhaseBalance(s: State, k: nat, t: real)
    requires k <= |s.machines| && PushReadyBelow(s, k, t)
    ensures Balance(PushPhase(s, k, t)) == Balance(s)
    decreases k
  {
    if k > 0 {
      TryPushBalance(s, k - 1, t);
      PushKeepsReady(s, k, t);
      PushPhaseBalance(TryPushToNext(s, k - 1, t), k - 1, t);
    }
  }

  /** The tick moves items but never creates or loses one without counting it. */
  lemma TickBalance(s: State, t: real)
    requires s.running ==> TickReady(s, t)
    ensures Balance(Tick(s, t)) == Balance(s)
  {
    if s.running {
      var pushed := PushPhase(s, |s.machines|, t);
      PushPhaseBalance(s, |s.machines|, t);
      var started := PushAndStart(s, t);
      ItemsPointwise(pushed.machines, started.machines);
      var r := SpawnNewItem(started, t);
      if started.machines != [] && |started.machines[0].queue| < started.machines[0].buffer {
        ItemsUpdate(started.machines, 0, r.machines[0]);
        assert r.machines == started.machines[0 := r.machines[0]];
      }
    }
  }

  /** The in-progress lists stay short and stamped. */
  predicate WorkOk(ms: seq<Machine>)
  {
    AtMostOneInProgress(ms) && AllStamped(ms)
  }

  lemma TryPushWork(s: State, i: nat, t: real)
    requires i < |s.machines| && PushReady(s.machines, i, t) && WorkOk(s.machines)
    ensures WorkOk(TryPushToNext(s, i, t).machines)
  {
    var r := TryPushToNext(s, i, t);
    TryPushEffect(s, i, t);
    if Finished(s.machines[i], t) {
      var ip := s.machines[i].inProgress;
      assert r.machines[i].inProgress == ip[1..];
      assert Stamped(s.machines[i]);
      forall k | 0 <= k < |s.machines| ensures Stamped(r.machines[k]) && |r.machines[k].inProgress| <= 1 {
        assert Stamped(s.machines[k]);
      }
    }
  }

  lemma {:induction false} PushPhaseWork(s: State, k: nat, t: real)
    requires k <= |s.machines| && PushReadyBelow(s, k, t) && WorkOk(s.machines)
    ensures WorkOk(PushPhase(s, k, t).machines)
    decreases k
  {
    if k > 0 {
      TryPushWork(s, k - 1, t);
      PushKeepsReady(s, k, t);
      PushPhaseWork(TryPushToNext(s, k - 1, t), k - 1, t);
    }
  }

  lemma UniqueIdsByLayout(a: seq<Machine>, b: seq<Machine>)
    requires SameLayout(a, b) && UniqueIds(a)
    ensures UniqueIds(b)
  {
    forall x, y | 0 <= x < y < |b| ensures b[x].id != b[y].id {
      assert SameWiring(a[x], b[x]) && SameWiring(a[y], b[y]);
    }
  }

  /** A tick keeps the invariant and the balance. */
  lemma TickInv(s: State, t: real)
    requires Inv(s) && (s.running ==> TickReady(s, t))
    ensures Inv(Tick(s, t)) && Balance(Tick(s, t)) == Balance(s)
  {
    TickBalance(s, t);
    TickIds(s, t);
    var r := Tick(s, t);
    UniqueIdsByLayout(s.machines, r.machines);
    if s.running {
      var pushed := PushPhase(s, |s.machines|, t);
      PushPhaseWork(s, |s.machines|, t);
      var started := PushAndStart(s, t);
      forall k | 0 <= k < |started.machines|
        ensures Stamped(started.machines[k]) && |started.machines[k].inProgress| <= 1
      {
        assert Stamped(pushed.machines[k]);
      }
      forall k | 0 <= k < |r.machines| ensures Stamped(r.machines[k]) {
        assert Stamped(started.machines[k]);
      }
    }
  }

  // ---------------------------------------------------------------------------
  // add_machine

  /** A list built from `before` by putting a machine with a new id and no items at `pos`. */
  lemma InsertedKeepsInv(before: seq<Machine>, after: seq<Machine>, pos: nat)
    requires pos <= |before| && |after| == |before| + 1
    requires UniqueIds(before) && WorkOk(before)
    requires forall k :: 0 <= k < pos ==>
      after[k].id == before[k].id && after[k].inProgress == before[k].inProgress
    requires forall k :: pos <= k < |before| ==>
      after[k + 1].id == before[k].id && after[k + 1].inProgress == before[k].inProgress
    requires after[pos].inProgress == [] && !HasId(before, after[pos].id)
    ensures UniqueIds(after) && WorkOk(after)
  {
    forall x, y | 0 <= x < y < |after| ensures after[x].id != after[y].id {
      if y < pos {
        assert after[x].id == before[x].id && after[y].id == before[y].id;
      } else if y == pos {
        assert after[x].id == before[x].id;
      } else if x < pos {
        assert after[x].id == before[x].id && after[y].id == before[y - 1].id;
      } else if x == pos {
        assert after[y].id == before[y - 1].id;
      } else {
        assert after[x].id == before[x - 1].id && after[y].id == before[y - 1].id;
      }
    }
    forall k | 0 <= k < |after| ensures Stamped(after[k]) && |after[k].inProgress| <= 1 {
      if k < pos { assert Stamped(before[k]); }
      else if k > pos { assert Stamped(before[k - 1]); }
    }
  }

  /** Splicing after a known machine keeps the invariant and the balance: the new
      machine is empty and its id is not in use. */
  lemma AddAfterInv(s: State, req: AddRequest)
    requires Inv(s) && req.insertAfterId.Some? && HasId(s.machines, req.insertAfterId.value)
    ensures Inv(AddMachine(s, req).value) && Balance(AddMachine(s, req).value) == Balance(s)
  {
    var newId := NextId(s.machines);
    var r := AddMachine(s, req).value;
    var idx := FirstIndex(s.machines, req.insertAfterId.value).value;
    var prev := s.machines[idx];
    var ms1 := s.machines[idx := prev.(next := Some(newId))];
    var added := NewMachine(newId, req.name, None, req.taktTime, req.buffer).(
      next := if req.next.Some? then req.next else prev.next);
    assert r.machines == ms1[..idx + 1] + [added] + ms1[idx + 1..];
    SplicedKeepsInv(s.machines, idx, newId, added);
    AddKeepsIds(s, req);
  }

  /** The list of an insertion after position `idx`, apart from the call. */
  lemma SplicedKeepsInv(before: seq<Machine>, idx: nat, newId: int, added: Machine)
    requires idx < |before| && UniqueIds(before) && WorkOk(before)
    requires added.id == newId && added.inProgress == [] && added.queue == [] && !HasId(before, newId)
    ensures var ms1 := before[idx := before[idx].(next := Some(newId))];
      var after := ms1[..idx + 1] + [added] + ms1[idx + 1..];
      UniqueIds(after) && WorkOk(after) && ItemsInSystem(after) == ItemsInSystem(before)
  {
    var ms1 := before[idx := before[idx].(next := Some(newId))];
    var after := ms1[..idx + 1] + [added] + ms1[idx + 1..];
    ItemsUpdate(before, idx, ms1[idx]);
    ItemsInsert(ms1, idx + 1, added);
    InsertedKeepsInv(before, after, idx + 1);
  }

  /** Appending keeps the invariant and the balance. */
  lemma AddAtEndInv(s: State, req: AddRequest)
    requires Inv(s) && req.insertAfterId.None?
    ensures Inv(AddMachine(s, req).value) && Balance(AddMachine(s, req).value) == Balance(s)
  {
    var newId := NextId(s.machines);
    var ms := AddMachine(s, req).value.machines;
    var added := NewMachine(newId, req.name, None, req.taktTime, req.buffer).(next := req.next);
    var n := |s.machines|;
    AddKeepsIds(s, req);
    if n == 0 {
      assert ms == [added];
      assert ItemsInSystem(ms) == Load(added) + ItemsInSystem([]);
    } else {
      var ms1 := s.machines[n - 1 := s.machines[n - 1].(next := Some(newId))];
      assert ms == ms1[..n] + [added] + ms1[n..];
      SplicedKeepsInv(s.machines, n - 1, newId, added);
    }
  }

  /** add_machine keeps the invariant and the balance whenever it succeeds. */
  lemma AddInv(s: State, req: AddRequest)
    requires Inv(s)
    ensures AddMachine(s, req).Ok? ==>
      Inv(AddMachine(s, req).value) && Balance(AddMachine(s, req).value) == Balance(s)
  {
    if req.insertAfterId.None? {
      AddAtEndInv(s, req);
    } else if HasId(s.machines, req.insertAfterId.value) {
      AddAfterInv(s, req);
    }
  }

  // ---------------------------------------------------------------------------
  // update_machine

  /** update_machine, whatever its outcome, keeps the invariant and the balance. */
  lemma UpdateInv(s: State, req: UpdateRequest)
    requires Inv(s)
    ensures Inv(UpdateMachine(s, req).0) && Balance(UpdateMachine(s, req).0) == Balance(s)
  {
    var r := UpdateMachine(s, req).0;
    UpdateKeepsIds(s, req);
    if FirstIndex(s.machines, req.id).Some? {
      var i := FirstIndex(s.machines, req.id).value;
      assert r.machines == s.machines[i := r.machines[i]];
      ItemsUpdate(s.machines, i, r.machines[i]);
      forall x, y | 0 <= x < y < |r.machines| ensures r.machines[x].id != r.machines[y].id {
        assert r.machines[x].id == s.machines[x].id && r.machines[y].id == s.machines[y].id;
      }
      forall k | 0 <= k < |r.machines| ensures Stamped(r.machines[k]) {
        assert Stamped(s.machines[k]);
      }
    }
  }

  // ---------------------------------------------------------------------------
  // remove_machine

  /** The victim's items that remove_machine neither hands over nor counts: a terminal
      victim's in-progress items, or all but the first of a non-terminal one's. */
  function Dropped(victim: Machine): nat
  {
    if victim.next.None? then |victim.inProgress|
    else if victim.inProgress == [] then 0
    else |victim.inProgress| - 1
  }

  lemma EvictedItems(ms: seq<Machine>, idx: nat, t: real)
    requires idx < |ms| && CanEvict(ms, idx)
    ensures ItemsInSystem(Evicted(ms, idx, t)) ==
      ItemsInSystem(ms) - Load(ms[idx]) + (if HandsOver(ms[idx]) then |Evacuees(ms[idx], t)| else 0)
  {
    var victim := ms[idx];
    var rewired := Redirect(ms, victim.id, victim.next);
    ItemsPointwise(ms, rewired);
    if HandsOver(victim) {
      var j := FirstIndex(ms, victim.next.value).value;
      var handed := rewired[j := rewired[j].(queue := rewired[j].queue + Evacuees(victim, t))];
      ItemsUpdate(rewired, j, handed[j]);
      ItemsWithout(handed, idx);
    } else {
      ItemsWithout(rewired, idx);
    }
  }

  /** remove_machine raises the balance by exactly the dropped items, so the balance
      never falls; it stays exact unless a busy terminal machine is removed. */
  lemma RemoveBalance(s: State, id: int, t: real)
    requires RemoveSafe(s, id) && HasId(s.machines, id)
    ensures var victim := s.machines[FirstIndex(s.machines, id).value];
      Balance(RemoveMachine(s, id, t).value) == Balance(s) + Dropped(victim)
  {
    var idx := FirstIndex(s.machines, id).value;
    EvictedItems(s.machines, idx, t);
  }

  /** Under the invariant at most one item is dropped: the in-progress item of a
      terminal victim. */
  lemma DroppedAtMostOne(victim: Machine)
    requires |victim.inProgress| <= 1
    ensures Dropped(victim) == (if victim.next.None? && victim.inProgress != [] then 1 else 0)
  {
  }

  /** remove_machine keeps the invariant; the survivors keep their ids and work. */
  lemma RemoveInv(s: State, id: int, t: real)
    requires Inv(s) && RemoveSafe(s, id)
    ensures RemoveMachine(s, id, t).Ok? ==>
      Inv(RemoveMachine(s, id, t).value) && Balance(RemoveMachine(s, id, t).value) >= Balance(s)
  {
    if HasId(s.machines, id) {
      var idx := FirstIndex(s.machines, id).value;
      RemoveBalance(s, id, t);
      RemoveIds(s, id, t);
      var survivors := Without(s.machines, idx);
      var ms := RemoveMachine(s, id, t).value.machines;
      EvictedRewires(s.machines, idx, t);
      SurvivorsKeepInv(s.machines, ms, idx);
    }
  }

  /** A list that matches `before` without position `idx`, in ids and in-progress
      items, keeps unique ids and well-formed work. */
  lemma SurvivorsKeepInv(before: seq<Machine>, after: seq<Machine>, idx: nat)
    requires idx < |before| && |after| == |before| - 1
    requires UniqueIds(before) && WorkOk(before)
    requires forall k :: 0 <= k < |after| ==>
      after[k].id == Without(before, idx)[k].id && after[k].inProgress == Without(before, idx)[k].inProgress
    ensures UniqueIds(after) && WorkOk(after)
  {
    var w := Without(before, idx);
    forall x, y | 0 <= x < y < |after| ensures after[x].id != after[y].id {
      assert after[x].id == w[x].id && after[y].id == w[y].id;
      if y < idx {
        assert w[x] == before[x] && w[y] == before[y];
      } else if x < idx {
        assert w[x] == before[x] && w[y] == before[y + 1];
      } else {
        assert w[x] == before[x + 1] && w[y] == before[y + 1];
      }
    }
    forall k | 0 <= k < |after| ensures Stamped(after[k]) && |after[k].inProgress| <= 1 {
      assert after[k].inProgress == w[k].inProgress;
      if k < idx {
        assert w[k] == before[k] && Stamped(before[k]);
      } else {
        assert w[k] == before[k + 1] && Stamped(before[k + 1]);
      }
    }
  }

  // ---------------------------------------------------------------------------
  // the snapshot

  /** Every snapshot of a reachable state accounts for every started item. */
  lemma SnapshotAccounts(s: State, t: real)
    requires Inv(s) && GetState(s, t).Ok?
    ensures var snap := GetState(s, t).value;
      snap.totalStarted >= snap.totalCompleted + snap.itemsInSystem
  {
  }

  // ---------------------------------------------------------------------------
  // runs of operations

  /** The operations that change the engine's state: a tick of the background loop,
      the three edit routes, and the run flag. */
  datatype Op =
    | TickAt(t: real)
    | Add(add: AddRequest)
    | Update(update: UpdateRequest)
    | Remove(id: int, at: real)
    | Start
    | Pause

  /** The operation runs to its end: no KeyError on a dangling `next` and no endless
      loop in remove_machine. */
  predicate Enabled(s: State, op: Op)
  {
    match op
    case TickAt(t) => s.running ==> TickReady(s, t)
    case Remove(id, _) => RemoveSafe(s, id)
    case _ => true
  }

  /** The state after one operation; an edit that fails with NotFound leaves the state
      as it was, and update_machine keeps what it wrote before failing. */
  function Apply(s: State, op: Op): State
    requires Enabled(s, op)
  {
    match op
    case TickAt(t) => Tick(s, t)
    case Add(req) => (match AddMachine(s, req) case Ok(r) => r case Err(_) => s)
    case Update(req) => UpdateMachine(s, req).0
    case Remove(id, at) => (match RemoveMachine(s, id, at) case Ok(r) => r case Err(_) => s)
    case Start => s.(running := true)
    case Pause => s.(running := false)
  }

  /** The state after a sequence of operations, None once one of them would crash. */
  function Run(s: State, ops: seq<Op>): Option<State>
    decreases |ops|
  {
    if ops == [] then Some(s)
    else if Enabled(s, ops[0]) then Run(Apply(s, ops[0]), ops[1..])
    else None
  }

  /** Every operation keeps the invariant and never lowers the balance; only a
      removal can raise it. */
  lemma ApplyInv(s: State, op: Op)
    requires Inv(s) && Enabled(s, op)
    ensures Inv(Apply(s, op)) && Balance(Apply(s, op)) >= Balance(s)
    ensures !op.Remove? ==> Balance(Apply(s, op)) == Balance(s)
  {
    match op
    case TickAt(t) => TickInv(s, t);
    case Add(req) => AddInv(s, req);
    case Update(req) => UpdateInv(s, req);
    case Remove(id, at) => RemoveInv(s, id, at);
    case Start =>
    case Pause =>
  }

  lemma {:induction false} RunInv(s: State, ops: seq<Op>)
    requires Inv(s)
    ensures Run(s, ops).Some? ==> Inv(Run(s, ops).value) && Balance(Run(s, ops).value) >= Balance(s)
    ensures Run(s, ops).Some? && (forall k :: 0 <= k < |ops| ==> !ops[k].Remove?) ==>
      Balance(Run(s, ops).value) == Balance(s)
    decreases |ops|
  {
    if ops != [] && Enabled(s, ops[0]) {
      ApplyInv(s, ops[0]);
      RunInv(Apply(s, ops[0]), ops[1..]);
      assert forall k :: 0 <= k < |ops| - 1 ==> ops[1..][k] == ops[k + 1];
    }
  }

  /** A paused line stays exactly as it is through any run of ticks and pauses: the
      background loop does nothing while `running` is false. */
  lemma {:induction false} PausedRunIsFrozen(s: State, ops: seq<Op>)
    requires !s.running
    requires forall k :: 0 <= k < |ops| ==> ops[k].TickAt? || ops[k].Pause?
    ensures Run(s, ops) == Some(s)
    decreases |ops|
  {
    if ops != [] {
      assert Enabled(s, ops[0]) && Apply(s, ops[0]) == s;
      assert forall k :: 0 <= k < |ops| - 1 ==> ops[1..][k] == ops[k + 1];
      PausedRunIsFrozen(s, ops[1..]);
    }
  }

  /** Conservation from a line holding no unaccounted item, such as the initial line
      (InitialStateInv): every started item has completed or is still somewhere in
      the line, exactly so as long as no machine was removed. */
  lemma ConservationFrom(s: State, ops: seq<Op>)
    requires Inv(s) && Balance(s) == 0
    ensures Run(s, ops).Some? ==>
      var r := Run(s, ops).value;
      r.totalStarted >= r.totalCompleted + ItemsInSystem(r.machines)
    ensures Run(s, ops).Some? && (forall k :: 0 <= k < |ops| ==> !ops[k].Remove?) ==>
      var r := Run(s, ops).value;
      r.totalStarted == r.totalCompleted + ItemsInSystem(r.machines)
  {
    RunInv(s, ops);
  }
}
