// The line's topology helpers and the three edit routes of backend/main.py:
// get_machine, index_of, next_id, upstream_of (lines 79-83, 173-183) and
// update_machine, add_machine, remove_machine (lines 197-307), as functions on
// the state. Engine.Line runs the same edits in place and is proved equal to them.

module Topology {
  import opened Model

  /** Some machine in the list has id `mid`. */
  predicate HasId(ms: seq<Machine>, mid: int)
  {
    exists j :: 0 <= j < |ms| && ms[j].id == mid
  }

  /** index_of: the position of the FIRST machine with id `mid`, None for KeyError. */
  function FirstIndex(ms: seq<Machine>, mid: int): (r: Option<nat>)
    ensures r.Some? ==> r.value < |ms| && ms[r.value].id == mid
    ensures r.Some? ==> forall j :: 0 <= j < r.value ==> ms[j].id != mid
    ensures r.None? ==> forall j :: 0 <= j < |ms| ==> ms[j].id != mid
    ensures r.Some? <==> HasId(ms, mid)
  {
    if ms == [] then None
    else if ms[0].id == mid then Some(0)
    else match FirstIndex(ms[1..], mid)
      case None => None
      case Some(k) => Some(k + 1)
  }

  /** Two lists whose machines have the same ids, position by position, find the same positions. */
  lemma FirstIndexByIds(a: seq<Machine>, b: seq<Machine>)
    requires |a| == |b| && forall k :: 0 <= k < |a| ==> a[k].id == b[k].id
    ensures forall mid :: FirstIndex(a, mid) == FirstIndex(b, mid)
  {
    forall mid ensures FirstIndex(a, mid) == FirstIndex(b, mid) {
      FirstIndexById(a, b, mid);
    }
  }

  lemma {:induction false} FirstIndexById(a: seq<Machine>, b: seq<Machine>, mid: int)
    requires |a| == |b| && forall k :: 0 <= k < |a| ==> a[k].id == b[k].id
    ensures FirstIndex(a, mid) == FirstIndex(b, mid)
  {
    if a != [] && a[0].id != mid {
      assert forall k :: 0 <= k < |a| - 1 ==> a[1..][k].id == a[k + 1].id && b[1..][k].id == b[k + 1].id;
      FirstIndexById(a[1..], b[1..], mid);
    }
  }

  /** get_machine: the first machine with id `mid`, None for KeyError. */
  function GetMachine(ms: seq<Machine>, mid: int): (r: Option<Machine>)
    ensures r.Some? <==> HasId(ms, mid)
    ensures r.Some? ==> r.value.id == mid && r.value in ms
    ensures r.Some? ==> r.value == ms[FirstIndex(ms, mid).value]
  {
    match FirstIndex(ms, mid)
    case None => None
    case Some(i) => Some(ms[i])
  }

  /** next_id: the largest id in use plus one, or 1 for an empty line. */
  function NextId(ms: seq<Machine>): (r: int)
    ensures forall j :: 0 <= j < |ms| ==> ms[j].id < r
    ensures ms == [] ==> r == 1
    ensures ms != [] ==> HasId(ms, r - 1)
  {
    if ms == [] then 1
    else if |ms| == 1 then ms[0].id + 1
    else
      var rest := NextId(ms[1..]);
      assert HasId(ms[1..], rest - 1);
      var w :| 0 <= w < |ms[1..]| && ms[1..][w].id == rest - 1;
      assert ms[w + 1].id == rest - 1;
      if ms[0].id + 1 >= rest then ms[0].id + 1 else rest
  }

  /** upstream_of: the positions, in list order, of the machines whose `next` is `target`. */
  function UpstreamOf(ms: seq<Machine>, target: int): (r: seq<nat>)
    ensures forall k :: k in r ==> k < |ms|
    ensures forall k :: 0 <= k < |ms| ==> (k in r <==> ms[k].next == Some(target))
    ensures forall a, b :: 0 <= a < b < |r| ==> r[a] < r[b]
  {
    if ms == [] then []
    else
      var init := ms[..|ms| - 1];
      var rest := UpstreamOf(init, target);
      assert forall k :: 0 <= k < |init| ==> init[k] == ms[k];
      assert forall a :: 0 <= a < |rest| ==> rest[a] in rest;
      if ms[|ms| - 1].next == Some(target) then rest + [|ms| - 1] else rest
  }

  /** The effect of the loop at lines 283-284: every machine that pointed at `target`
      points at `newNext` instead; nothing else changes. */
  function Redirect(ms: seq<Machine>, target: int, newNext: Option<int>): (r: seq<Machine>)
    ensures |r| == |ms|
    ensures forall k :: 0 <= k < |ms| ==>
      r[k] == if ms[k].next == Some(target) then ms[k].(next := newNext) else ms[k]
  {
    seq(|ms|, k requires 0 <= k < |ms| =>
      if ms[k].next == Some(target) then ms[k].(next := newNext) else ms[k])
  }

  // ---------------------------------------------------------------------------
  // update_machine (lines 197-228)

  datatype UpdateRequest = UpdateRequest(
    id: int,
    taktTime: Option<real>,
    buffer: Option<int>,
    name: Option<string>,
    next: Option<int>)

  /** The fields update_machine writes, in its order; a buffer < 0 is rejected only
      after a valid takt_time has been written. Returns the new state and the outcome. */
  function UpdateMachine(s: State, req: UpdateRequest): (r: (State, Outcome))
    ensures FirstIndex(s.machines, req.id).None? ==> r == (s, Fail(NotFound))
    ensures FirstIndex(s.machines, req.id).Some? && req.taktTime.Some? && req.taktTime.value <= 0.0 ==>
      r == (s, Fail(TaktNotPositive))
    ensures r.0.running == s.running && r.0.totalStarted == s.totalStarted
    ensures r.0.totalCompleted == s.totalCompleted && r.0.cycleTimes == s.cycleTimes
    ensures r.0.itemIdSeq == s.itemIdSeq && |r.0.machines| == |s.machines|
    ensures r.1 == Pass ==> FirstIndex(s.machines, req.id).Some?
    ensures FirstIndex(s.machines, req.id).Some? ==>
      var i := FirstIndex(s.machines, req.id).value;
      var m := s.machines[i];
      && (forall k :: 0 <= k < |s.machines| && k != i ==> r.0.machines[k] == s.machines[k])
      && r.0.machines[i].id == m.id
      && r.0.machines[i].inProgress == m.inProgress
      && r.0.machines[i].queue == m.queue
      && r.0.machines[i].completed == m.completed
      && r.0.machines[i].busyTime == m.busyTime
      && r.0.machines[i].lastStateChange == m.lastStateChange
  {
    match FirstIndex(s.machines, req.id)
    case None => (s, Fail(NotFound))
    case Some(i) =>
      var m := s.machines[i];
      if req.taktTime.Some? && req.taktTime.value <= 0.0 then (s, Fail(TaktNotPositive))
      else
        var m1 := if req.taktTime.Some? then m.(taktTime := req.taktTime.value) else m;
        if req.buffer.Some? && req.buffer.value < 0 then
          (s.(machines := s.machines[i := m1]), Fail(BufferNegative))
        else
          var m2 := if req.buffer.Some? then m1.(buffer := req.buffer.value) else m1;
          var m3 := if req.name.Some? then m2.(name := req.name.value) else m2;
          // the guard at line 216 always holds, so `next` is always overwritten
          (s.(machines := s.machines[i := m3.(next := req.next)]), Pass)
  }

  /** What a successful or partly applied update leaves in the machine's fields. */
  lemma UpdateWrites(s: State, req: UpdateRequest)
    requires FirstIndex(s.machines, req.id).Some?
    requires !(req.taktTime.Some? && req.taktTime.value <= 0.0)
    ensures var i := FirstIndex(s.machines, req.id).value;
      var m := s.machines[i];
      var (s', out) := UpdateMachine(s, req);
      var m' := s'.machines[i];
      && m'.taktTime == (if req.taktTime.Some? then req.taktTime.value else m.taktTime)
      && (out == Pass <==> !(req.buffer.Some? && req.buffer.value < 0))
      && (out != Pass ==> out == Fail(BufferNegative) && m' == m.(taktTime := m'.taktTime))
      && (out == Pass ==>
            && m'.buffer == (if req.buffer.Some? then req.buffer.value else m.buffer)
            && m'.name == (if req.name.Some? then req.name.value else m.name)
            && m'.next == req.next)
  {
  }

  // ---------------------------------------------------------------------------
  // add_machine (lines 230-268)

  datatype AddRequest = AddRequest(
    name: string,
    taktTime: real,
    buffer: int,
    insertAfterId: Option<int>,
    next: Option<int>)

  /** add_machine: the new machine gets next_id(); it is spliced after `insertAfterId`
      or appended at the end. The code does not validate takt_time or buffer here. */
  function AddMachine(s: State, req: AddRequest): (r: Result<State>)
    ensures r.Err? <==> req.insertAfterId.Some? && !HasId(s.machines, req.insertAfterId.value)
    ensures r.Err? ==> r.error == NotFound
    ensures r.Ok? ==> |r.value.machines| == |s.machines| + 1
    ensures r.Ok? ==>
      && r.value.running == s.running && r.value.totalStarted == s.totalStarted
      && r.value.totalCompleted == s.totalCompleted && r.value.cycleTimes == s.cycleTimes
      && r.value.itemIdSeq == s.itemIdSeq
  {
    var newId := NextId(s.machines);
    var created := NewMachine(newId, req.name, None, req.taktTime, req.buffer);
    match req.insertAfterId
    case Some(after) =>
      (match FirstIndex(s.machines, after)
       case None => Err(NotFound)
       case Some(idx) =>
         var prev := s.machines[idx];
         var ms := s.machines[idx := prev.(next := Some(newId))];
         var added := created.(next := if req.next.Some? then req.next else prev.next);
         Ok(s.(machines := ms[..idx + 1] + [added] + ms[idx + 1..])))
    case None =>
      var ms := if s.machines == [] then []
                else s.machines[|s.machines| - 1 := s.machines[|s.machines| - 1].(next := Some(newId))];
      Ok(s.(machines := ms + [created.(next := req.next)]))
  }

  /** Inserting after a known machine: the new machine sits right after it, the
      predecessor points at it, it points at the override or the old successor, and
      every other machine is unchanged and keeps its position relative to the rest. */
  lemma AddAfter(s: State, req: AddRequest)
    requires req.insertAfterId.Some? && HasId(s.machines, req.insertAfterId.value)
    ensures var idx := FirstIndex(s.machines, req.insertAfterId.value).value;
      var newId := NextId(s.machines);
      var before := s.machines;
      var ms := AddMachine(s, req).value.machines;
      && ms[idx + 1] == NewMachine(newId, req.name,
           if req.next.Some? then req.next else before[idx].next, req.taktTime, req.buffer)
      && ms[idx] == before[idx].(next := Some(newId))
      && (forall k :: 0 <= k < idx ==> ms[k] == before[k])
      && (forall k :: idx + 1 <= k < |before| ==> ms[k + 1] == before[k])
      && !HasId(before, newId)
  {
    var idx := FirstIndex(s.machines, req.insertAfterId.value).value;
    var newId := NextId(s.machines);
    var prev := s.machines[idx];
    var added := NewMachine(newId, req.name, None, req.taktTime, req.buffer)
      .(next := if req.next.Some? then req.next else prev.next);
    var ms1 := s.machines[idx := prev.(next := Some(newId))];
    assert AddMachine(s, req).value.machines == ms1[..idx + 1] + [added] + ms1[idx + 1..];
    SpliceShape(s.machines, idx, prev.(next := Some(newId)), added);
  }

  /** Replacing position `idx` by `m` and inserting `added` right after it. */
  lemma SpliceShape(before: seq<Machine>, idx: nat, m: Machine, added: Machine)
    requires idx < |before|
    ensures var ms1 := before[idx := m];
      var ms := ms1[..idx + 1] + [added] + ms1[idx + 1..];
      && |ms| == |before| + 1 && ms[idx] == m && ms[idx + 1] == added
      && (forall k :: 0 <= k < idx ==> ms[k] == before[k])
      && (forall k :: idx + 1 <= k < |before| ==> ms[k + 1] == before[k])
  {
    var ms1 := before[idx := m];
    var ms := ms1[..idx + 1] + [added] + ms1[idx + 1..];
    forall k | 0 <= k < idx ensures ms[k] == before[k] {
      assert ms[k] == ms1[k];
    }
    forall k | idx + 1 <= k < |before| ensures ms[k + 1] == before[k] {
      assert ms[k + 1] == ms1[k];
    }
  }

  /** Appending: the old last machine now points at the new one, the new one is last
      and points at the override or nowhere, every other machine is unchanged. */
  lemma AddAtEnd(s: State, req: AddRequest)
    requires req.insertAfterId.None?
    ensures var newId := NextId(s.machines);
      var before := s.machines;
      var ms := AddMachine(s, req).value.machines;
      && ms[|before|] == NewMachine(newId, req.name, req.next, req.taktTime, req.buffer)
      && (before != [] ==> ms[|before| - 1] == before[|before| - 1].(next := Some(newId)))
      && (forall k :: 0 <= k < |before| - 1 ==> ms[k] == before[k])
      && !HasId(before, newId)
  {
  }

  // ---------------------------------------------------------------------------
  // remove_machine (lines 270-307)

  /** What the victim hands downstream when it has a successor: its first in-progress
      item re-stamped with `t` (line 291), then its queue in order. */
  function Evacuees(victim: Machine, t: real): (r: seq<Item>)
    ensures |r| == (if victim.inProgress == [] then 0 else 1) + |victim.queue|
    ensures victim.inProgress != [] ==>
      r[0] == victim.inProgress[0].(startTime := Some(t)) && r[1..] == victim.queue
    ensures victim.inProgress == [] ==> r == victim.queue
  {
    (if victim.inProgress == [] then [] else [victim.inProgress[0].(startTime := Some(t))])
      + victim.queue
  }

  /** The cycle times recorded for the queue of a removed terminal machine (line 302). */
  function CycleTimesOf(items: seq<Item>, t: real): (r: seq<real>)
    ensures |r| == |items|
    ensures forall k :: 0 <= k < |items| ==> r[k] == t - items[k].createdAt
  {
    seq(|items|, k requires 0 <= k < |items| => t - items[k].createdAt)
  }

  /** The list without position `i`. */
  function Without<T>(xs: seq<T>, i: nat): (r: seq<T>)
    requires i < |xs|
    ensures |r| == |xs| - 1
    ensures forall k :: 0 <= k < i ==> r[k] == xs[k]
    ensures forall k :: i <= k < |r| ==> r[k] == xs[k + 1]
  {
    xs[..i] + xs[i + 1..]
  }

  /** The victim holds items and has a successor, so remove_machine looks the successor up. */
  predicate HandsOver(victim: Machine)
  {
    victim.next.Some? && (victim.inProgress != [] || victim.queue != [])
  }

  /** What removing the machine at `idx` needs to finish without a KeyError (lines 293
      and 296) or an endless loop (lines 294-296): a victim that hands items over must
      name a successor at another position. */
  predicate CanEvict(ms: seq<Machine>, idx: nat)
    requires idx < |ms|
  {
    HandsOver(ms[idx]) ==>
      FirstIndex(ms, ms[idx].next.value).Some? && FirstIndex(ms, ms[idx].next.value).value != idx
  }

  /** The precondition of remove_machine: an unknown id is fine (it fails), a known one
      must be safe to evict. */
  predicate RemoveSafe(s: State, id: int)
  {
    match FirstIndex(s.machines, id)
    case None => true
    case Some(idx) => CanEvict(s.machines, idx)
  }

  /** The machine list after rewiring and hand-over, before the victim is deleted:
      every machine that pointed at the victim points at the victim's successor, and
      the successor's queue gains the evacuees at its end. */
  function Handed(ms: seq<Machine>, idx: nat, t: real): (r: seq<Machine>)
    requires idx < |ms| && CanEvict(ms, idx)
    ensures |r| == |ms|
    ensures forall k :: 0 <= k < |ms| ==>
      && r[k].id == ms[k].id && r[k].inProgress == ms[k].inProgress
      && r[k].next == (if ms[k].next == Some(ms[idx].id) then ms[idx].next else ms[k].next)
    ensures forall k :: 0 <= k < |ms| ==>
      r[k].queue == if HandsOver(ms[idx]) && k == FirstIndex(ms, ms[idx].next.value).value
                    then ms[k].queue + Evacuees(ms[idx], t)
                    else ms[k].queue
  {
    var victim := ms[idx];
    var rewired := Redirect(ms, victim.id, victim.next);
    if HandsOver(victim) then
      // rewiring changes no id, so the successor sits where it sat before
      var j := FirstIndex(ms, victim.next.value).value;
      rewired[j := rewired[j].(queue := rewired[j].queue + Evacuees(victim, t))]
    else
      rewired
  }

  /** The machine list after evicting position `idx`: upstream machines rewired past
      the victim, its evacuees appended to its successor's queue, the victim deleted. */
  function Evicted(ms: seq<Machine>, idx: nat, t: real): (r: seq<Machine>)
    requires idx < |ms| && CanEvict(ms, idx)
    ensures |r| == |ms| - 1
    ensures forall k :: 0 <= k < |r| ==>
      r[k].(next := Without(ms, idx)[k].next, queue := Without(ms, idx)[k].queue) == Without(ms, idx)[k]
  {
    HandedFrame(ms, idx, t);
    EvictedFrame(ms, Handed(ms, idx, t), idx);
    Without(Handed(ms, idx, t), idx)
  }

  /** Rewiring and hand-over touch only `next` links and queues. */
  lemma HandedFrame(ms: seq<Machine>, idx: nat, t: real)
    requires idx < |ms| && CanEvict(ms, idx)
    ensures var h := Handed(ms, idx, t);
      forall k :: 0 <= k < |ms| ==> h[k].(next := ms[k].next, queue := ms[k].queue) == ms[k]
  {
  }

  /** Deleting the same position from two lists that differ only in `next` and `queue`,
      position by position, leaves lists that differ only there. */
  lemma EvictedFrame(ms: seq<Machine>, h: seq<Machine>, idx: nat)
    requires idx < |ms| == |h|
    requires forall k :: 0 <= k < |ms| ==> h[k].(next := ms[k].next, queue := ms[k].queue) == ms[k]
    ensures forall k :: 0 <= k < |ms| - 1 ==>
      Without(h, idx)[k].(next := Without(ms, idx)[k].next, queue := Without(ms, idx)[k].queue) == Without(ms, idx)[k]
  {
    forall k | 0 <= k < |ms| - 1
      ensures Without(h, idx)[k].(next := Without(ms, idx)[k].next, queue := Without(ms, idx)[k].queue) == Without(ms, idx)[k]
    {
      if k < idx {
        assert Without(h, idx)[k] == h[k] && Without(ms, idx)[k] == ms[k];
      } else {
        assert Without(h, idx)[k] == h[k + 1] && Without(ms, idx)[k] == ms[k + 1];
      }
    }
  }

  /** remove_machine at time `t`: unknown id fails with no change; otherwise the victim
      is evicted and, when it is terminal, its queue counts as completed (its
      in-progress item is dropped without being counted). */
  function RemoveMachine(s: State, id: int, t: real): (r: Result<State>)
    requires RemoveSafe(s, id)
    ensures r.Err? <==> !HasId(s.machines, id)
    ensures r.Err? ==> r.error == NotFound
    ensures r.Ok? ==> |r.value.machines| == |s.machines| - 1
    ensures r.Ok? ==>
      r.value.running == s.running && r.value.totalStarted == s.totalStarted && r.value.itemIdSeq == s.itemIdSeq
    ensures r.Ok? ==>
      var victim := s.machines[FirstIndex(s.machines, id).value];
      && r.value.totalCompleted == s.totalCompleted + (if victim.next.None? then |victim.queue| else 0)
      && r.value.cycleTimes == s.cycleTimes + (if victim.next.None? then CycleTimesOf(victim.queue, t) else [])
    ensures r.Ok? ==>
      var survivors := Without(s.machines, FirstIndex(s.machines, id).value);
      forall k :: 0 <= k < |r.value.machines| ==>
        r.value.machines[k].(next := survivors[k].next, queue := survivors[k].queue) == survivors[k]
  {
    match FirstIndex(s.machines, id)
    case None => Err(NotFound)
    case Some(idx) =>
      var victim := s.machines[idx];
      var ms := Evicted(s.machines, idx, t);
      if victim.next.None? then
        Ok(s.(machines := ms,
              totalCompleted := s.totalCompleted + |victim.queue|,
              cycleTimes := s.cycleTimes + CycleTimesOf(victim.queue, t)))
      else
        Ok(s.(machines := ms))
  }

  /** The rewiring of remove_machine, machine by machine: the survivors keep their
      relative order, ids and in-progress items, and one that pointed at the victim
      now points at the victim's successor. */
  lemma EvictedRewires(ms: seq<Machine>, idx: nat, t: real)
    requires idx < |ms| && CanEvict(ms, idx)
    ensures var survivors := Without(ms, idx);
      var r := Evicted(ms, idx, t);
      forall k :: 0 <= k < |r| ==>
        && r[k].id == survivors[k].id
        && r[k].inProgress == survivors[k].inProgress
        && r[k].next == (if survivors[k].next == Some(ms[idx].id) then ms[idx].next else survivors[k].next)
  {
    LinksWithout(ms, Handed(ms, idx, t), idx, ms[idx].id, ms[idx].next);
  }

  /** Deleting the same position from two lists keeps a position-by-position relation
      between their ids, in-progress lists and links. */
  lemma LinksWithout(ms: seq<Machine>, h: seq<Machine>, idx: nat, target: int, newNext: Option<int>)
    requires idx < |ms| == |h|
    requires forall k :: 0 <= k < |ms| ==>
      && h[k].id == ms[k].id && h[k].inProgress == ms[k].inProgress
      && h[k].next == (if ms[k].next == Some(target) then newNext else ms[k].next)
    ensures var survivors := Without(ms, idx);
      var r := Without(h, idx);
      forall k :: 0 <= k < |r| ==>
        && r[k].id == survivors[k].id
        && r[k].inProgress == survivors[k].inProgress
        && r[k].next == (if survivors[k].next == Some(target) then newNext else survivors[k].next)
  {
    var r := Without(h, idx);
    forall k | 0 <= k < |r|
      ensures r[k].id == Without(ms, idx)[k].id && r[k].inProgress == Without(ms, idx)[k].inProgress
      ensures r[k].next == (if Without(ms, idx)[k].next == Some(target) then newNext else Without(ms, idx)[k].next)
    {
      if k < idx {
        assert r[k] == h[k] && Without(ms, idx)[k] == ms[k];
      } else {
        assert r[k] == h[k + 1] && Without(ms, idx)[k] == ms[k + 1];
      }
    }
  }

  /** The hand-over of remove_machine: when the victim holds items and has a successor,
      the successor's queue gains the evacuees at its end; every other queue is unchanged. */
  lemma EvictedHandsOver(ms: seq<Machine>, idx: nat, t: real)
    requires idx < |ms| && CanEvict(ms, idx) && HandsOver(ms[idx])
    ensures var j := FirstIndex(ms, ms[idx].next.value).value;
      var down := if j < idx then j else j - 1;
      var survivors := Without(ms, idx);
      var r := Evicted(ms, idx, t);
      && survivors[down] == ms[j]
      && r[down].queue == ms[j].queue + Evacuees(ms[idx], t)
      && forall k :: 0 <= k < |r| && k != down ==> r[k].queue == survivors[k].queue
  {
    var j := FirstIndex(ms, ms[idx].next.value).value;
    assert j != idx && j < |ms|;
    QueuesWithout(ms, Handed(ms, idx, t), idx, j, Evacuees(ms[idx], t));
  }

  /** Deleting position `idx` from two lists whose queues differ only by `extra` at the
      end of position `j` leaves lists that differ only at the shifted position of `j`. */
  lemma QueuesWithout(ms: seq<Machine>, h: seq<Machine>, idx: nat, j: nat, extra: seq<Item>)
    requires idx < |ms| == |h| && j < |ms| && j != idx
    requires forall k :: 0 <= k < |ms| ==>
      h[k].queue == if k == j then ms[k].queue + extra else ms[k].queue
    ensures var down := if j < idx then j else j - 1;
      var r := Without(h, idx);
      && Without(ms, idx)[down] == ms[j]
      && r[down].queue == ms[j].queue + extra
      && forall k :: 0 <= k < |r| && k != down ==> r[k].queue == Without(ms, idx)[k].queue
  {
    var r := Without(h, idx);
    var down := if j < idx then j else j - 1;
    assert r[down] == h[j];
    forall k | 0 <= k < |r| && k != down
      ensures r[k].queue == Without(ms, idx)[k].queue
    {
      if k < idx {
        assert k != j && r[k] == h[k] && Without(ms, idx)[k] == ms[k];
      } else {
        assert k + 1 != j && r[k] == h[k + 1] && Without(ms, idx)[k] == ms[k + 1];
      }
    }
  }

  /** A victim with nothing to hand over (or no successor) leaves every queue unchanged. */
  lemma EvictedKeepsQueues(ms: seq<Machine>, idx: nat, t: real)
    requires idx < |ms| && CanEvict(ms, idx) && !HandsOver(ms[idx])
    ensures var survivors := Without(ms, idx);
      var r := Evicted(ms, idx, t);
      forall k :: 0 <= k < |r| ==> r[k].queue == survivors[k].queue
  {
    var h := Handed(ms, idx, t);
    assert forall k :: 0 <= k < |ms| ==> h[k].queue == ms[k].queue;
    SameQueuesWithout(ms, h, idx);
  }

  lemma SameQueuesWithout(ms: seq<Machine>, h: seq<Machine>, idx: nat)
    requires idx < |ms| == |h|
    requires forall k :: 0 <= k < |ms| ==> h[k].queue == ms[k].queue
    ensures forall k :: 0 <= k < |ms| - 1 ==> Without(h, idx)[k].queue == Without(ms, idx)[k].queue
  {
    forall k | 0 <= k < |ms| - 1 ensures Without(h, idx)[k].queue == Without(ms, idx)[k].queue {
      if k < idx {
        assert Without(h, idx)[k] == h[k] && Without(ms, idx)[k] == ms[k];
      } else {
        assert Without(h, idx)[k] == h[k + 1] && Without(ms, idx)[k] == ms[k + 1];
      }
    }
  }

  // ---------------------------------------------------------------------------
  // the steps of remove_machine, in the order the code runs them

  /** Two lists with the same ids and `next` links, position by position. */
  predicate SameIdsAndLinks(a: seq<Machine>, b: seq<Machine>)
  {
    |a| == |b| && forall k :: 0 <= k < |a| ==> a[k].id == b[k].id && a[k].next == b[k].next
  }

  /** Lines 287-293: the victim's first in-progress item is taken out and, re-stamped
      with `t`, appended to the successor's queue; with no successor it is dropped. */
  function HandOverInProgress(ms: seq<Machine>, idx: nat, t: real): (r: seq<Machine>)
    requires idx < |ms| && CanEvict(ms, idx)
    ensures SameIdsAndLinks(ms, r) && CanEvict(r, idx)
    ensures r[idx].queue == ms[idx].queue
    ensures r[idx].inProgress == if ms[idx].inProgress == [] then [] else ms[idx].inProgress[1..]
    ensures forall k :: 0 <= k < |ms| && k != idx ==>
      r[k] == if ms[idx].inProgress != [] && ms[idx].next.Some? &&
                 k == FirstIndex(ms, ms[idx].next.value).value
              then ms[k].(queue := ms[k].queue + [ms[idx].inProgress[0].(startTime := Some(t))])
              else ms[k]
  {
    var v := ms[idx];
    if v.inProgress == [] then ms
    else
      var ms1 := ms[idx := v.(inProgress := v.inProgress[1..])];
      match v.next
      case None => ms1
      case Some(n) =>
        var j := FirstIndex(ms, n).value;
        var r := ms1[j := ms1[j].(queue := ms1[j].queue + [v.inProgress[0].(startTime := Some(t))])];
        FirstIndexByIds(ms, r);
        r
  }

  /** One pass of the loop at lines 294-302: the head of the victim's queue moves to
      the end of the successor's queue, or leaves the list when there is no successor. */
  function ShiftOne(ms: seq<Machine>, idx: nat): (r: seq<Machine>)
    requires idx < |ms| && ms[idx].queue != [] && CanEvict(ms, idx)
    ensures SameIdsAndLinks(ms, r) && CanEvict(r, idx)
    ensures r[idx].queue == ms[idx].queue[1..]
  {
    var v := ms[idx];
    var ms1 := ms[idx := v.(queue := v.queue[1..])];
    match v.next
    case None => ms1
    case Some(n) =>
      // get_machine runs before the pop, on the list as it was
      var j := FirstIndex(ms, n).value;
      var r := ms1[j := ms1[j].(queue := ms1[j].queue + [v.queue[0]])];
      FirstIndexByIds(ms, r);
      r
  }

  /** One pass moves the head of the queue to the end of the successor's queue and
      changes no other machine. */
  lemma ShiftOneMoves(ms: seq<Machine>, idx: nat)
    requires idx < |ms| && ms[idx].queue != [] && CanEvict(ms, idx)
    ensures forall k :: 0 <= k < |ms| && k != idx ==>
      ShiftOne(ms, idx)[k] ==
        if ms[idx].next.Some? && k == FirstIndex(ms, ms[idx].next.value).value
        then ms[k].(queue := ms[k].queue + [ms[idx].queue[0]])
        else ms[k]
  {
  }

  /** The loop at lines 294-302 run until the victim's queue is empty. */
  function Drain(ms: seq<Machine>, idx: nat): (r: seq<Machine>)
    requires idx < |ms| && CanEvict(ms, idx)
    ensures |r| == |ms| && r[idx].queue == []
    decreases |ms[idx].queue|
  {
    if ms[idx].queue == [] then ms else Drain(ShiftOne(ms, idx), idx)
  }

  /** Draining moves the whole queue, in order, to the end of the successor's queue;
      every other machine is unchanged. */
  lemma {:induction false} DrainMoves(ms: seq<Machine>, idx: nat)
    requires idx < |ms| && CanEvict(ms, idx)
    ensures var v := ms[idx];
      forall k :: 0 <= k < |ms| && k != idx ==>
        Drain(ms, idx)[k] ==
          if v.queue != [] && v.next.Some? && k == FirstIndex(ms, v.next.value).value
          then ms[k].(queue := ms[k].queue + v.queue)
          else ms[k]
    decreases |ms[idx].queue|
  {
    var v := ms[idx];
    if v.queue != [] {
      var ms1 := ShiftOne(ms, idx);
      ShiftOneMoves(ms, idx);
      DrainMoves(ms1, idx);
      FirstIndexByIds(ms, ms1);
      var moves := v.next.Some?;
      var j := if moves then FirstIndex(ms, v.next.value).value else idx;
      MovesCompose(ms, ms1, Drain(ms1, idx), idx, moves, j);
    }
  }

  /** Moving the head of the queue and then the rest moves the whole queue. */
  lemma MovesCompose(ms: seq<Machine>, ms1: seq<Machine>, d: seq<Machine>, idx: nat, moves: bool, j: nat)
    requires idx < |ms| == |ms1| == |d| && ms[idx].queue != [] && ms1[idx].queue == ms[idx].queue[1..]
    requires forall k :: 0 <= k < |ms| && k != idx ==>
      ms1[k] == if moves && k == j then ms[k].(queue := ms[k].queue + [ms[idx].queue[0]]) else ms[k]
    requires forall k :: 0 <= k < |ms| && k != idx ==>
      d[k] == if ms1[idx].queue != [] && moves && k == j then ms1[k].(queue := ms1[k].queue + ms1[idx].queue) else ms1[k]
    ensures forall k :: 0 <= k < |ms| && k != idx ==>
      d[k] == if moves && k == j then ms[k].(queue := ms[k].queue + ms[idx].queue) else ms[k]
  {
    var q := ms[idx].queue;
    assert q == [q[0]] + ms1[idx].queue;
    if moves && j != idx && j < |ms| {
      assert ms[j].queue + [q[0]] + ms1[idx].queue == ms[j].queue + q;
    }
  }

  /** One pass of the loop at lines 294-302 on the whole state: with no successor the
      item counts as completed and its cycle time is recorded. */
  function ShiftState(s: State, idx: nat, t: real): (r: State)
    requires idx < |s.machines| && s.machines[idx].queue != [] && CanEvict(s.machines, idx)
    ensures |r.machines| == |s.machines|
    ensures r.running == s.running && r.totalStarted == s.totalStarted && r.itemIdSeq == s.itemIdSeq
  {
    var v := s.machines[idx];
    var shifted := s.(machines := ShiftOne(s.machines, idx));
    if v.next.None? then
      shifted.(totalCompleted := s.totalCompleted + 1, cycleTimes := s.cycleTimes + [t - v.queue[0].createdAt])
    else shifted
  }

  /** The loop at lines 294-302 on the whole state, run until the queue is empty. */
  function DrainState(s: State, idx: nat, t: real): (r: State)
    requires idx < |s.machines| && CanEvict(s.machines, idx)
    ensures |r.machines| == |s.machines|
    decreases |s.machines[idx].queue|
  {
    if s.machines[idx].queue == [] then s else DrainState(ShiftState(s, idx, t), idx, t)
  }

  lemma CycleTimesCons(items: seq<Item>, t: real)
    requires items != []
    ensures CycleTimesOf(items, t) == [t - items[0].createdAt] + CycleTimesOf(items[1..], t)
  {
    var a, b := CycleTimesOf(items, t), [t - items[0].createdAt] + CycleTimesOf(items[1..], t);
    assert |a| == |b|;
    forall k | 0 <= k < |a| ensures a[k] == b[k] {
      if k > 0 { assert items[1..][k - 1] == items[k]; }
    }
  }

  /** On the machine list, DrainState is Drain; no flag or start counter moves. */
  lemma {:induction false} DrainStateMachines(s: State, idx: nat, t: real)
    requires idx < |s.machines| && CanEvict(s.machines, idx)
    ensures var r := DrainState(s, idx, t);
      && r.machines == Drain(s.machines, idx)
      && r.running == s.running && r.totalStarted == s.totalStarted && r.itemIdSeq == s.itemIdSeq
    decreases |s.machines[idx].queue|
  {
    if s.machines[idx].queue != [] {
      DrainStateMachines(ShiftState(s, idx, t), idx, t);
    }
  }

  /** Draining the queue of a terminal victim counts every queued item as completed and
      records its cycle time, in queue order; with a successor no counter moves. */
  lemma {:induction false} DrainStateCounts(s: State, idx: nat, t: real)
    requires idx < |s.machines| && CanEvict(s.machines, idx)
    ensures var v := s.machines[idx];
      var r := DrainState(s, idx, t);
      && r.totalCompleted == s.totalCompleted + (if v.next.None? then |v.queue| else 0)
      && r.cycleTimes == s.cycleTimes + (if v.next.None? then CycleTimesOf(v.queue, t) else [])
    decreases |s.machines[idx].queue|
  {
    var v := s.machines[idx];
    if v.queue != [] {
      var s1 := ShiftState(s, idx, t);
      assert s1.machines[idx].next == v.next && s1.machines[idx].queue == v.queue[1..];
      DrainStateCounts(s1, idx, t);
      var r := DrainState(s1, idx, t);
      CountsCompose(s.totalCompleted, s1.totalCompleted, r.totalCompleted,
                    s.cycleTimes, s1.cycleTimes, r.cycleTimes, v.queue, t, v.next.None?);
    }
  }

  lemma ConcatAssoc<T>(a: seq<T>, b: seq<T>, c: seq<T>)
    ensures (a + b) + c == a + (b + c)
  {
  }

  /** Counting the head of the queue and then the rest counts the whole queue. */
  lemma CountsCompose(c0: int, c1: int, c2: int, ct0: seq<real>, ct1: seq<real>, ct2: seq<real>,
                      q: seq<Item>, t: real, terminal: bool)
    requires q != []
    requires c1 == c0 + (if terminal then 1 else 0)
    requires ct1 == ct0 + (if terminal then [t - q[0].createdAt] else [])
    requires c2 == c1 + (if terminal then |q[1..]| else 0)
    requires ct2 == ct1 + (if terminal then CycleTimesOf(q[1..], t) else [])
    ensures c2 == c0 + (if terminal then |q| else 0)
    ensures ct2 == ct0 + (if terminal then CycleTimesOf(q, t) else [])
  {
    if terminal {
      CycleTimesCons(q, t);
      ConcatAssoc(ct0, [t - q[0].createdAt], CycleTimesOf(q[1..], t));
    } else {
      assert ct1 == ct0 && ct2 == ct1;
    }
  }

  /** Two lists that differ at most at position `idx` are equal once it is deleted. */
  lemma WithoutAgrees<T>(a: seq<T>, b: seq<T>, idx: nat)
    requires idx < |a| == |b|
    requires forall k :: 0 <= k < |a| && k != idx ==> a[k] == b[k]
    ensures Without(a, idx) == Without(b, idx)
  {
    var wa, wb := Without(a, idx), Without(b, idx);
    forall k | 0 <= k < |wa| ensures wa[k] == wb[k] {
      if k >= idx { assert wa[k] == a[k + 1] && wb[k] == b[k + 1]; }
    }
  }

  /** Appending `a` and then `b` at position `j` appends `a + b`, once `idx` is deleted. */
  lemma AppendCompose(rs: seq<Machine>, h: seq<Machine>, d: seq<Machine>, idx: nat, j: nat,
                      a: seq<Item>, b: seq<Item>)
    requires idx < |rs| == |h| == |d| && j < |rs| && j != idx
    requires forall k :: 0 <= k < |rs| && k != idx ==>
      h[k] == if k == j && a != [] then rs[k].(queue := rs[k].queue + a) else rs[k]
    requires forall k :: 0 <= k < |rs| && k != idx ==>
      d[k] == if k == j && b != [] then h[k].(queue := h[k].queue + b) else h[k]
    ensures Without(d, idx) == Without(rs[j := rs[j].(queue := rs[j].queue + (a + b))], idx)
  {
    var target := rs[j := rs[j].(queue := rs[j].queue + (a + b))];
    assert rs[j].queue + (a + b) == (if a != [] then rs[j].queue + a else rs[j].queue) + (if b != [] then b else []);
    assert d[j] == target[j];
    WithoutAgrees(d, target, idx);
  }

  /** Rewiring, handing over the in-progress item, draining the queue and deleting the
      victim, in that order, leave exactly the list Evicted describes. */
  lemma EvictionSteps(ms: seq<Machine>, idx: nat, t: real)
    requires idx < |ms| && CanEvict(ms, idx)
    ensures var rewired := Redirect(ms, ms[idx].id, ms[idx].next);
      && rewired[idx] == ms[idx] && CanEvict(rewired, idx)
      && Without(Drain(HandOverInProgress(rewired, idx, t), idx), idx) == Evicted(ms, idx, t)
  {
    var v := ms[idx];
    var rewired := Redirect(ms, v.id, v.next);
    assert rewired[idx] == v;
    FirstIndexByIds(ms, rewired);
    if HandsOver(v) {
      HandingSteps(ms, rewired, idx, t);
    } else {
      QuietSteps(ms, rewired, idx, t);
    }
  }

  /** EvictionSteps for a victim that hands items to its successor. */
  lemma HandingSteps(ms: seq<Machine>, rewired: seq<Machine>, idx: nat, t: real)
    requires idx < |ms| && CanEvict(ms, idx) && HandsOver(ms[idx])
    requires rewired == Redirect(ms, ms[idx].id, ms[idx].next)
    requires rewired[idx] == ms[idx] && CanEvict(rewired, idx)
    requires forall mid :: FirstIndex(ms, mid) == FirstIndex(rewired, mid)
    ensures Without(Drain(HandOverInProgress(rewired, idx, t), idx), idx) == Without(Handed(ms, idx, t), idx)
  {
    var v := ms[idx];
    var j := FirstIndex(ms, v.next.value).value;
    var a: seq<Item> := if v.inProgress == [] then [] else [v.inProgress[0].(startTime := Some(t))];
    assert j != idx && FirstIndex(rewired, v.next.value) == Some(j);
    HandingDrain(rewired, idx, t, j, a);
    HandedAt(ms, idx, t, rewired, j, a);
  }

  /** Handing over the in-progress item and then draining the queue append both, in
      that order, to the successor's queue at `j`, once the victim is deleted. */
  lemma HandingDrain(rs: seq<Machine>, idx: nat, t: real, j: nat, a: seq<Item>)
    requires idx < |rs| && CanEvict(rs, idx) && rs[idx].next.Some?
    requires FirstIndex(rs, rs[idx].next.value) == Some(j) && j != idx
    requires a == if rs[idx].inProgress == [] then [] else [rs[idx].inProgress[0].(startTime := Some(t))]
    ensures Without(Drain(HandOverInProgress(rs, idx, t), idx), idx) ==
      Without(rs[j := rs[j].(queue := rs[j].queue + (a + rs[idx].queue))], idx)
  {
    var h := HandOverInProgress(rs, idx, t);
    HandOverThenDrain(rs, idx, t, j, a);
    AppendCompose(rs, h, Drain(h, idx), idx, j, a, h[idx].queue);
  }

  /** The hand-over and then the drain, position by position, outside the victim. */
  lemma HandOverThenDrain(rs: seq<Machine>, idx: nat, t: real, j: nat, a: seq<Item>)
    requires idx < |rs| && CanEvict(rs, idx) && rs[idx].next.Some?
    requires FirstIndex(rs, rs[idx].next.value) == Some(j) && j != idx
    requires a == if rs[idx].inProgress == [] then [] else [rs[idx].inProgress[0].(startTime := Some(t))]
    ensures var h := HandOverInProgress(rs, idx, t);
      var d := Drain(h, idx);
      && |h| == |rs| && |d| == |rs| && h[idx].queue == rs[idx].queue
      && (forall k :: 0 <= k < |rs| && k != idx ==>
            h[k] == if k == j && a != [] then rs[k].(queue := rs[k].queue + a) else rs[k])
      && (forall k :: 0 <= k < |rs| && k != idx ==>
            d[k] == if k == j && h[idx].queue != [] then h[k].(queue := h[k].queue + h[idx].queue) else h[k])
  {
    HandOverShape(rs, idx, t, j, a);
    DrainShape(HandOverInProgress(rs, idx, t), idx, j);
  }

  /** HandOverInProgress, position by position, once the successor's position `j` is known. */
  lemma HandOverShape(ms: seq<Machine>, idx: nat, t: real, j: nat, a: seq<Item>)
    requires idx < |ms| && CanEvict(ms, idx) && ms[idx].next.Some?
    requires FirstIndex(ms, ms[idx].next.value) == Some(j)
    requires a == if ms[idx].inProgress == [] then [] else [ms[idx].inProgress[0].(startTime := Some(t))]
    ensures var h := HandOverInProgress(ms, idx, t);
      && h[idx].queue == ms[idx].queue && h[idx].next == ms[idx].next
      && FirstIndex(h, ms[idx].next.value) == Some(j)
      && forall k :: 0 <= k < |ms| && k != idx ==>
           h[k] == if k == j && a != [] then ms[k].(queue := ms[k].queue + a) else ms[k]
  {
    FirstIndexById(ms, HandOverInProgress(ms, idx, t), ms[idx].next.value);
  }

  /** DrainMoves, once the successor's position `j` is known. */
  lemma DrainShape(h: seq<Machine>, idx: nat, j: nat)
    requires idx < |h| && CanEvict(h, idx) && h[idx].next.Some?
    requires FirstIndex(h, h[idx].next.value) == Some(j)
    ensures var d := Drain(h, idx);
      forall k :: 0 <= k < |h| && k != idx ==>
        d[k] == if k == j && h[idx].queue != [] then h[k].(queue := h[k].queue + h[idx].queue) else h[k]
  {
    DrainMoves(h, idx);
  }

  /** Handed, spelled out for a victim that hands items over. */
  lemma HandedAt(ms: seq<Machine>, idx: nat, t: real, rewired: seq<Machine>, j: nat, a: seq<Item>)
    requires idx < |ms| && CanEvict(ms, idx) && HandsOver(ms[idx])
    requires rewired == Redirect(ms, ms[idx].id, ms[idx].next)
    requires FirstIndex(ms, ms[idx].next.value) == Some(j)
    requires a == if ms[idx].inProgress == [] then [] else [ms[idx].inProgress[0].(startTime := Some(t))]
    ensures Handed(ms, idx, t) == rewired[j := rewired[j].(queue := rewired[j].queue + (a + ms[idx].queue))]
  {
    assert Evacuees(ms[idx], t) == a + ms[idx].queue;
  }

  /** EvictionSteps for a victim with nothing to hand over or no successor. */
  lemma QuietSteps(ms: seq<Machine>, rewired: seq<Machine>, idx: nat, t: real)
    requires idx < |ms| && CanEvict(ms, idx) && !HandsOver(ms[idx])
    requires rewired == Redirect(ms, ms[idx].id, ms[idx].next)
    requires rewired[idx] == ms[idx] && CanEvict(rewired, idx)
    ensures Without(Drain(HandOverInProgress(rewired, idx, t), idx), idx) == Without(Handed(ms, idx, t), idx)
  {
    var h := HandOverInProgress(rewired, idx, t);
    var d := Drain(h, idx);
    DrainMoves(h, idx);
    WithoutAgrees(d, rewired, idx);
  }

  /** The steps of remove_machine on the whole state, in the order the code runs them,
      end in the state RemoveMachine describes. */
  lemma RemovalSteps(s: State, idx: nat, t: real)
    requires idx < |s.machines| && CanEvict(s.machines, idx)
    requires FirstIndex(s.machines, s.machines[idx].id) == Some(idx)
    ensures var rewired := Redirect(s.machines, s.machines[idx].id, s.machines[idx].next);
      && rewired[idx] == s.machines[idx] && CanEvict(rewired, idx)
      && var s2 := s.(machines := HandOverInProgress(rewired, idx, t));
         var d := DrainState(s2, idx, t);
         d.(machines := Without(d.machines, idx)) == RemoveMachine(s, s.machines[idx].id, t).value
  {
    var v := s.machines[idx];
    EvictionSteps(s.machines, idx, t);
    var rewired := Redirect(s.machines, v.id, v.next);
    var s2 := s.(machines := HandOverInProgress(rewired, idx, t));
    assert s2.machines[idx].next == v.next && s2.machines[idx].queue == v.queue;
    DrainStateMachines(s2, idx, t);
    DrainStateCounts(s2, idx, t);
  }
}
