// How many items on the line carry each id. Item ids are handed out only by
// spawn_new_item_if_possible (item_id_seq + 1, lines 133-134); every other operation moves items between
// machines, re-stamps them or lets them leave, so the line never holds two items with
// the same id, nor one whose id is above item_id_seq.

module ItemIdentity {
  import opened Model
  import opened Topology
  import opened Flow

  /** How many of `items` carry id `x`. */
  function Count(items: seq<Item>, x: int): nat
  {
    if items == [] then 0 else (if items[0].itemId == x then 1 else 0) + Count(items[1..], x)
  }

  lemma {:induction false} CountConcat(a: seq<Item>, b: seq<Item>, x: int)
    ensures Count(a + b, x) == Count(a, x) + Count(b, x)
  {
    if a == [] {
      assert a + b == b;
    } else {
      assert (a + b)[1..] == a[1..] + b;
      CountConcat(a[1..], b, x);
    }
  }

  /** How many items with id `x` a machine holds, in progress or waiting. */
  function MachineHolds(m: Machine, x: int): nat
  {
    Count(m.inProgress, x) + Count(m.queue, x)
  }

  /** How many items with id `x` are on the line. */
  function Holding(ms: seq<Machine>, x: int): nat
  {
    if ms == [] then 0 else MachineHolds(ms[0], x) + Holding(ms[1..], x)
  }

  /** Replacing one machine swaps its items for the new machine's. */
  lemma {:induction false} HoldingUpdate(ms: seq<Machine>, i: nat, m: Machine, x: int)
    requires i < |ms|
    ensures Holding(ms[i := m], x) == Holding(ms, x) - MachineHolds(ms[i], x) + MachineHolds(m, x)
  {
    if i > 0 {
      assert ms[i := m][1..] == ms[1..][i - 1 := m];
      HoldingUpdate(ms[1..], i - 1, m, x);
    }
  }

  /** Deleting one machine removes exactly its items. */
  lemma {:induction false} HoldingWithout(ms: seq<Machine>, i: nat, x: int)
    requires i < |ms|
    ensures Holding(ms[..i] + ms[i + 1..], x) == Holding(ms, x) - MachineHolds(ms[i], x)
  {
    if i == 0 {
      assert ms[..i] + ms[i + 1..] == ms[1..];
    } else {
      var rest := ms[1..];
      assert (ms[..i] + ms[i + 1..])[0] == ms[0];
      assert (ms[..i] + ms[i + 1..])[1..] == rest[..i - 1] + rest[i..];
      HoldingWithout(rest, i - 1, x);
    }
  }

  /** Inserting one machine adds exactly its items. */
  lemma {:induction false} HoldingInsert(ms: seq<Machine>, pos: nat, m: Machine, x: int)
    requires pos <= |ms|
    ensures Holding(ms[..pos] + [m] + ms[pos..], x) == Holding(ms, x) + MachineHolds(m, x)
  {
    if pos == 0 {
      assert ms[..pos] + [m] + ms[pos..] == [m] + ms;
      assert ([m] + ms)[1..] == ms;
    } else {
      var rest := ms[1..];
      var ins := ms[..pos] + [m] + ms[pos..];
      assert ins[0] == ms[0];
      assert ins[1..] == rest[..pos - 1] + [m] + rest[pos - 1..];
      HoldingInsert(rest, pos - 1, m, x);
    }
  }

  /** Two lists whose machines hold the same items with id `x`, position by position. */
  lemma {:induction false} HoldingPointwise(a: seq<Machine>, b: seq<Machine>, x: int)
    requires |a| == |b| && forall k :: 0 <= k < |a| ==> MachineHolds(a[k], x) == MachineHolds(b[k], x)
    ensures Holding(a, x) == Holding(b, x)
  {
    if a != [] {
      HoldingPointwise(a[1..], b[1..], x);
    }
  }

  /** A line with no items holds no id. */
  lemma {:induction false} EmptyLineHolding(ms: seq<Machine>, x: int)
    requires forall k :: 0 <= k < |ms| ==> ms[k].inProgress == [] && ms[k].queue == []
    ensures Holding(ms, x) == 0
  {
    if ms != [] {
      EmptyLineHolding(ms[1..], x);
    }
  }

  /** No two items on the line share an id, and no id is above the last one handed out. */
  ghost predicate ItemIdsOk(s: State)
  {
    forall x :: Holding(s.machines, x) <= 1 && (x > s.itemIdSeq ==> Holding(s.machines, x) == 0)
  }

  /** The initial line holds no item at all. */
  lemma InitialIds()
    ensures ItemIdsOk(InitialState())
  {
    forall x ensures Holding(InitialState().machines, x) == 0 {
      EmptyLineHolding(InitialState().machines, x);
    }
  }

  /** A line that only lost items keeps its ids unique and bounded. */
  lemma FewerIdsOk(s: State, r: State)
    requires ItemIdsOk(s) && s.itemIdSeq <= r.itemIdSeq
    requires forall x :: Holding(r.machines, x) <= Holding(s.machines, x)
    ensures ItemIdsOk(r)
  {
  }

  // ---------------------------------------------------------------------------
  // the tick

  /** A push moves the finished item to a queue, or lets it leave the line. */
  lemma TryPushIds(s: State, i: nat, t: real, x: int)
    requires i < |s.machines| && PushReady(s.machines, i, t)
    ensures Holding(TryPushToNext(s, i, t).machines, x) <= Holding(s.machines, x)
  {
    var m := s.machines[i];
    var r := TryPushToNext(s, i, t);
    if Finished(m, t) {
      var item := m.inProgress[0];
      var done := Finish(m, t);
      var ms := s.machines[i := done];
      HoldingUpdate(s.machines, i, done, x);
      if m.next.Some? {
        var j := FirstIndex(s.machines, m.next.value).value;
        if |ms[j].queue| < ms[j].buffer {
          var down := ms[j].(queue := ms[j].queue + [item]);
          HoldingUpdate(ms, j, down, x);
          CountConcat(ms[j].queue, [item], x);
          assert r.machines == ms[j := down];
        } else {
          var back := done.(queue := [item] + done.queue);
          HoldingUpdate(s.machines, i, back, x);
          assert ([item] + done.queue)[1..] == done.queue;
          assert r.machines == s.machines[i := back];
        }
      }
    }
  }

  lemma {:induction false} PushPhaseIds(s: State, k: nat, t: real, x: int)
    requires k <= |s.machines| && PushReadyBelow(s, k, t)
    ensures Holding(PushPhase(s, k, t).machines, x) <= Holding(s.machines, x)
    decreases k
  {
    if k > 0 {
      TryPushIds(s, k - 1, t, x);
      PushKeepsReady(s, k, t);
      PushPhaseIds(TryPushToNext(s, k - 1, t), k - 1, t, x);
    }
  }

  /** Starting an item moves it from the queue to processing under its own id. */
  lemma StartIds(m: Machine, t: real, x: int)
    ensures MachineHolds(StartProcessing(m, t), x) == MachineHolds(m, x)
  {
    if m.inProgress == [] && m.queue != [] {
      var r := StartProcessing(m, t);
      assert Count(r.inProgress, x) == if m.queue[0].itemId == x then 1 else 0;
    }
  }

  lemma StartPhaseIds(ms: seq<Machine>, t: real, x: int)
    ensures Holding(StartPhase(ms, t), x) == Holding(ms, x)
  {
    var r := StartPhase(ms, t);
    forall k | 0 <= k < |ms| ensures MachineHolds(r[k], x) == MachineHolds(ms[k], x) {
      StartIds(ms[k], t, x);
    }
    HoldingPointwise(r, ms, x);
  }

  /** A spawn adds exactly one item, under the id it hands out. */
  lemma SpawnIds(s: State, t: real, x: int)
    requires s.machines != [] && |s.machines[0].queue| < s.machines[0].buffer
    ensures Holding(SpawnNewItem(s, t).machines, x) ==
      Holding(s.machines, x) + (if x == s.itemIdSeq + 1 then 1 else 0)
  {
    var r := SpawnNewItem(s, t);
    HoldingUpdate(s.machines, 0, r.machines[0], x);
    CountConcat(s.machines[0].queue, [NewItem(s, t)], x);
    assert r.machines == s.machines[0 := r.machines[0]];
  }

  /** A tick keeps item ids unique and bounded. */
  lemma TickIds(s: State, t: real)
    requires ItemIdsOk(s) && (s.running ==> TickReady(s, t))
    ensures ItemIdsOk(Tick(s, t))
  {
    if s.running {
      var pushed := PushPhase(s, |s.machines|, t);
      var started := PushAndStart(s, t);
      var r := SpawnNewItem(started, t);
      var spawns := started.machines != [] && |started.machines[0].queue| < started.machines[0].buffer;
      forall x ensures Holding(r.machines, x) <= 1 && (x > r.itemIdSeq ==> Holding(r.machines, x) == 0) {
        PushPhaseIds(s, |s.machines|, t, x);
        StartPhaseIds(pushed.machines, t, x);
        assert Holding(started.machines, x) <= Holding(s.machines, x);
        if spawns {
          SpawnIds(started, t, x);
        }
      }
    }
  }

  // ---------------------------------------------------------------------------
  // add_machine, update_machine

  /** Relinking the machine at `idx` and inserting an empty one after it adds no item. */
  lemma SplicedIds(before: seq<Machine>, idx: nat, newId: int, added: Machine, x: int)
    requires idx < |before| && added.inProgress == [] && added.queue == []
    ensures var ms1 := before[idx := before[idx].(next := Some(newId))];
      Holding(ms1[..idx + 1] + [added] + ms1[idx + 1..], x) == Holding(before, x)
  {
    var ms1 := before[idx := before[idx].(next := Some(newId))];
    HoldingUpdate(before, idx, ms1[idx], x);
    HoldingInsert(ms1, idx + 1, added, x);
  }

  /** add_machine adds an empty machine and only relinks its predecessor. */
  lemma AddIds(s: State, req: AddRequest, x: int)
    ensures AddMachine(s, req).Ok? ==> Holding(AddMachine(s, req).value.machines, x) == Holding(s.machines, x)
  {
    var newId := NextId(s.machines);
    if req.insertAfterId.None? {
      var ms := AddMachine(s, req).value.machines;
      var added := NewMachine(newId, req.name, None, req.taktTime, req.buffer).(next := req.next);
      var n := |s.machines|;
      if n == 0 {
        assert ms == [added];
      } else {
        var ms1 := s.machines[n - 1 := s.machines[n - 1].(next := Some(newId))];
        assert ms == ms1[..n] + [added] + ms1[n..];
        SplicedIds(s.machines, n - 1, newId, added, x);
      }
    } else if HasId(s.machines, req.insertAfterId.value) {
      var ms := AddMachine(s, req).value.machines;
      var idx := FirstIndex(s.machines, req.insertAfterId.value).value;
      var prev := s.machines[idx];
      var ms1 := s.machines[idx := prev.(next := Some(newId))];
      var added := NewMachine(newId, req.name, None, req.taktTime, req.buffer).(
        next := if req.next.Some? then req.next else prev.next);
      assert ms == ms1[..idx + 1] + [added] + ms1[idx + 1..];
      SplicedIds(s.machines, idx, newId, added, x);
    }
  }

  /** update_machine never touches items. */
  lemma UpdateIds(s: State, req: UpdateRequest, x: int)
    ensures Holding(UpdateMachine(s, req).0.machines, x) == Holding(s.machines, x)
  {
    var r := UpdateMachine(s, req).0;
    if FirstIndex(s.machines, req.id).Some? {
      var i := FirstIndex(s.machines, req.id).value;
      assert r.machines == s.machines[i := r.machines[i]];
      HoldingUpdate(s.machines, i, r.machines[i], x);
    }
  }

  lemma AddKeepsIds(s: State, req: AddRequest)
    requires ItemIdsOk(s)
    ensures AddMachine(s, req).Ok? ==> ItemIdsOk(AddMachine(s, req).value)
  {
    if AddMachine(s, req).Ok? {
      forall x ensures Holding(AddMachine(s, req).value.machines, x) <= Holding(s.machines, x) {
        AddIds(s, req, x);
      }
      FewerIdsOk(s, AddMachine(s, req).value);
    }
  }

  lemma UpdateKeepsIds(s: State, req: UpdateRequest)
    requires ItemIdsOk(s)
    ensures ItemIdsOk(UpdateMachine(s, req).0)
  {
    forall x ensures Holding(UpdateMachine(s, req).0.machines, x) <= Holding(s.machines, x) {
      UpdateIds(s, req, x);
    }
    FewerIdsOk(s, UpdateMachine(s, req).0);
  }

  // ---------------------------------------------------------------------------
  // remove_machine

  /** Evacuation re-stamps the victim's head item and keeps its queue: no id is new. */
  lemma EvacueeIds(victim: Machine, t: real, x: int)
    ensures Count(Evacuees(victim, t), x) <= MachineHolds(victim, x)
  {
  }

  /** The survivors of a removal hold no item the line did not hold before. */
  lemma EvictedIds(ms: seq<Machine>, idx: nat, t: real, x: int)
    requires idx < |ms| && CanEvict(ms, idx)
    ensures Holding(Evicted(ms, idx, t), x) <= Holding(ms, x)
  {
    var victim := ms[idx];
    var h := Handed(ms, idx, t);
    HoldingWithout(h, idx, x);
    assert MachineHolds(h[idx], x) == MachineHolds(victim, x);
    if HandsOver(victim) {
      var j := FirstIndex(ms, victim.next.value).value;
      var gained := ms[j := ms[j].(queue := ms[j].queue + Evacuees(victim, t))];
      HoldingPointwise(h, gained, x);
      HoldingUpdate(ms, j, gained[j], x);
      CountConcat(ms[j].queue, Evacuees(victim, t), x);
      EvacueeIds(victim, t, x);
    } else {
      HoldingPointwise(h, ms, x);
    }
  }

  /** remove_machine keeps item ids unique and bounded. */
  lemma RemoveIds(s: State, id: int, t: real)
    requires ItemIdsOk(s) && RemoveSafe(s, id)
    ensures RemoveMachine(s, id, t).Ok? ==> ItemIdsOk(RemoveMachine(s, id, t).value)
  {
    if HasId(s.machines, id) {
      var idx := FirstIndex(s.machines, id).value;
      forall x ensures Holding(RemoveMachine(s, id, t).value.machines, x) <= Holding(s.machines, x) {
        EvictedIds(s.machines, idx, t, x);
      }
      FewerIdsOk(s, RemoveMachine(s, id, t).value);
    }
  }
}
