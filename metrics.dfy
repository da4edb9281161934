// The snapshot computed by get_state (backend/main.py, lines 324-363): items in the
// system, throughput, average cycle time, and one view per machine with its status,
// the progress of its in-progress items and its utilisation.

module Metrics {
  import opened Model

  /** The items a machine holds: its queue and its in-progress list. */
  function Load(m: Machine): nat
  {
    |m.queue| + |m.inProgress|
  }

  /** items_in_system (line 328): the loads of all machines added up. */
  function ItemsInSystem(ms: seq<Machine>): (r: nat)
    ensures ms == [] ==> r == 0
    ensures ms != [] ==> r >= Load(ms[0])
  {
    if ms == [] then 0 else Load(ms[0]) + ItemsInSystem(ms[1..])
  }

  /** The total is additive over concatenation. */
  lemma {:induction false} ItemsConcat(a: seq<Machine>, b: seq<Machine>)
    ensures ItemsInSystem(a + b) == ItemsInSystem(a) + ItemsInSystem(b)
  {
    if a == [] {
      assert a + b == b;
    } else {
      assert (a + b)[1..] == a[1..] + b;
      ItemsConcat(a[1..], b);
    }
  }

  /** Replacing one machine changes the total by the difference of the two loads. */
  lemma {:induction false} ItemsUpdate(ms: seq<Machine>, i: nat, m: Machine)
    requires i < |ms|
    ensures ItemsInSystem(ms[i := m]) == ItemsInSystem(ms) - Load(ms[i]) + Load(m)
  {
    if i > 0 {
      assert ms[i := m][1..] == ms[1..][i - 1 := m];
      ItemsUpdate(ms[1..], i - 1, m);
    }
  }

  /** Deleting one machine removes exactly its load from the total. */
  lemma {:induction false} ItemsWithout(ms: seq<Machine>, i: nat)
    requires i < |ms|
    ensures ItemsInSystem(ms[..i] + ms[i + 1..]) == ItemsInSystem(ms) - Load(ms[i])
  {
    if i == 0 {
      assert ms[..i] + ms[i + 1..] == ms[1..];
    } else {
      var rest := ms[1..];
      assert (ms[..i] + ms[i + 1..])[0] == ms[0];
      assert (ms[..i] + ms[i + 1..])[1..] == rest[..i - 1] + rest[i..];
      ItemsWithout(rest, i - 1);
    }
  }

  /** Inserting one machine adds exactly its load to the total. */
  lemma {:induction false} ItemsInsert(ms: seq<Machine>, pos: nat, m: Machine)
    requires pos <= |ms|
    ensures ItemsInSystem(ms[..pos] + [m] + ms[pos..]) == ItemsInSystem(ms) + Load(m)
  {
    if pos == 0 {
      assert ms[..pos] + [m] + ms[pos..] == [m] + ms;
      assert ([m] + ms)[1..] == ms;
    } else {
      var rest := ms[1..];
      var ins := ms[..pos] + [m] + ms[pos..];
      assert ins[0] == ms[0];
      assert ins[1..] == rest[..pos - 1] + [m] + rest[pos - 1..];
      ItemsInsert(rest, pos - 1, m);
    }
  }

  /** Two lists whose machines hold the same number of items, position by position,
      have the same total. */
  lemma {:induction false} ItemsPointwise(a: seq<Machine>, b: seq<Machine>)
    requires |a| == |b| && forall k :: 0 <= k < |a| ==> Load(a[k]) == Load(b[k])
    ensures ItemsInSystem(a) == ItemsInSystem(b)
  {
    if a != [] {
      ItemsPointwise(a[1..], b[1..]);
    }
  }

  /** throughput (line 329): completions per second, 0 unless time is positive. */
  function Throughput(totalCompleted: int, t: real): (r: real)
    ensures t <= 0.0 ==> r == 0.0
    ensures t > 0.0 ==> r * t == totalCompleted as real
    ensures t > 0.0 && totalCompleted >= 0 ==> r >= 0.0
  {
    if t > 0.0 then
      QuotientFacts(totalCompleted as real, t);
      totalCompleted as real / t
    else 0.0
  }

  function Sum(xs: seq<real>): real
  {
    if xs == [] then 0.0 else xs[0] + Sum(xs[1..])
  }

  /** avg_cycle_time (line 330): the mean of the recorded cycle times, 0 when none. */
  function AvgCycleTime(cycleTimes: seq<real>): (r: real)
    ensures cycleTimes == [] ==> r == 0.0
    ensures cycleTimes != [] ==> r * |cycleTimes| as real == Sum(cycleTimes)
  {
    if |cycleTimes| > 0 then Sum(cycleTimes) / |cycleTimes| as real else 0.0
  }

  lemma {:induction false} SumBounds(xs: seq<real>, lo: real, hi: real)
    requires forall k :: 0 <= k < |xs| ==> lo <= xs[k] <= hi
    ensures |xs| as real * lo <= Sum(xs) <= |xs| as real * hi
  {
    if xs != [] {
      SumBounds(xs[1..], lo, hi);
    }
  }

  /** The average cycle time lies between the shortest and the longest cycle time. */
  lemma AvgCycleTimeBetween(cycleTimes: seq<real>, lo: real, hi: real)
    requires cycleTimes != []
    requires forall k :: 0 <= k < |cycleTimes| ==> lo <= cycleTimes[k] <= hi
    ensures lo <= AvgCycleTime(cycleTimes) <= hi
  {
    var n := |cycleTimes| as real;
    SumBounds(cycleTimes, lo, hi);
    var avg := AvgCycleTime(cycleTimes);
    assert avg * n == Sum(cycleTimes);
    assert (avg - lo) * n >= 0.0 && (hi - avg) * n >= 0.0;
  }

  /** utilization (line 352): busy time over elapsed time, 0 unless time is positive.
      The code does not clamp it. */
  function Utilization(busyTime: real, t: real): (r: real)
    ensures t <= 0.0 ==> r == 0.0
    ensures t > 0.0 ==> r * t == busyTime
    ensures t > 0.0 && 0.0 <= busyTime <= t ==> 0.0 <= r <= 1.0
  {
    if t > 0.0 then
      QuotientFacts(busyTime, t);
      busyTime / t
    else 0.0
  }

  datatype Status = Processing | Idle | Queued

  /** status (line 334). */
  function StatusOf(m: Machine): (r: Status)
    ensures r == Processing <==> m.inProgress != []
    ensures r == Idle <==> m.inProgress == [] && m.queue == []
    ensures r == Queued <==> m.inProgress == [] && m.queue != []
  {
    if |m.inProgress| > 0 then Processing else if |m.queue| == 0 then Idle else Queued
  }

  function Clamp01(x: real): (r: real)
    ensures 0.0 <= r <= 1.0
    ensures 0.0 <= x <= 1.0 ==> r == x
    ensures x >= 1.0 ==> r == 1.0
    ensures x <= 0.0 ==> r == 0.0
  {
    if x < 0.0 then 0.0 else if x > 1.0 then 1.0 else x
  }

  /** progress (line 339): the elapsed share of the takt time, clamped to [0, 1].
      Requires a non-zero takt time, since the code divides by it. With a positive takt
      time the progress reads 1 exactly when the item is finished. */
  function Progress(startTime: real, taktTime: real, t: real): (r: real)
    requires taktTime != 0.0
    ensures 0.0 <= r <= 1.0
    ensures taktTime > 0.0 ==> (r == 1.0 <==> t - startTime >= taktTime)
    ensures taktTime > 0.0 ==> (r == 0.0 <==> t - startTime <= 0.0)
    ensures taktTime > 0.0 && 0.0 <= t - startTime <= taktTime ==> r * taktTime == t - startTime
  {
    QuotientFacts(t - startTime, taktTime);
    Clamp01((t - startTime) / taktTime)
  }

  lemma QuotientFacts(a: real, b: real)
    requires b != 0.0
    ensures b > 0.0 ==> (a / b >= 1.0 <==> a >= b)
    ensures b > 0.0 ==> (a / b <= 1.0 <==> a <= b)
    ensures b > 0.0 ==> (a / b <= 0.0 <==> a <= 0.0)
    ensures b > 0.0 ==> (a / b >= 0.0 <==> a >= 0.0)
  {
    if b > 0.0 {
      var x := a / b;
      assert x * b == a;
      if x < 1.0 { assert x * b < b; }
      if x > 1.0 { assert x * b > b; }
      if x > 0.0 { assert x * b > 0.0; }
      if x < 0.0 { assert x * b < 0.0; }
    }
  }

  datatype ItemProgress = ItemProgress(itemId: int, progress: real)

  datatype MachineView = MachineView(
    id: int,
    name: string,
    next: Option<int>,
    status: Status,
    inProgress: nat,
    inProgressDetail: seq<ItemProgress>,
    queue: nat,
    buffer: int,
    taktTime: real,
    completed: int,
    utilization: real)

  /** The view of a machine can be built: the code divides by takt_time for every
      in-progress item, so an in-progress item with a zero takt raises. */
  predicate Viewable(m: Machine)
  {
    m.inProgress == [] || m.taktTime != 0.0
  }

  /** One entry of `machines_view` (lines 333-353). */
  function View(m: Machine, t: real): (r: MachineView)
    requires Stamped(m) && Viewable(m)
    ensures r.id == m.id && r.name == m.name && r.next == m.next && r.status == StatusOf(m)
    ensures r.inProgress == |m.inProgress| && r.queue == |m.queue|
    ensures r.buffer == m.buffer && r.taktTime == m.taktTime && r.completed == m.completed
    ensures |r.inProgressDetail| == |m.inProgress|
    ensures forall k :: 0 <= k < |m.inProgress| ==>
      && r.inProgressDetail[k].itemId == m.inProgress[k].itemId
      && r.inProgressDetail[k].progress == Progress(m.inProgress[k].startTime.value, m.taktTime, t)
      && 0.0 <= r.inProgressDetail[k].progress <= 1.0
    ensures r.utilization == Utilization(m.busyTime, t)
  {
    var detail := seq(|m.inProgress|, k requires 0 <= k < |m.inProgress| =>
      ItemProgress(m.inProgress[k].itemId, Progress(m.inProgress[k].startTime.value, m.taktTime, t)));
    MachineView(m.id, m.name, m.next, StatusOf(m), |m.inProgress|, detail, |m.queue|,
                m.buffer, m.taktTime, m.completed, Utilization(m.busyTime, t))
  }

  datatype Snapshot = Snapshot(
    timestamp: real,
    itemsInSystem: nat,
    throughput: real,
    totalStarted: int,
    totalCompleted: int,
    avgCycleTime: real,
    machines: seq<MachineView>)

  predicate AllStamped(ms: seq<Machine>)
  {
    forall k :: 0 <= k < |ms| ==> Stamped(ms[k])
  }

  /** get_state at time `t`; it fails (the division raises) exactly when some machine
      with an item in progress has a takt time of 0. */
  function GetState(s: State, t: real): (r: Result<Snapshot>)
    requires AllStamped(s.machines)
    ensures r.Err? <==> exists k :: 0 <= k < |s.machines| && !Viewable(s.machines[k])
    ensures r.Err? ==> r.error == DivisionByZero
    ensures r.Ok? ==>
      && r.value.timestamp == t
      && r.value.itemsInSystem == ItemsInSystem(s.machines)
      && r.value.totalStarted == s.totalStarted && r.value.totalCompleted == s.totalCompleted
      && r.value.throughput == Throughput(s.totalCompleted, t)
      && r.value.avgCycleTime == AvgCycleTime(s.cycleTimes)
      && |r.value.machines| == |s.machines|
      && forall k :: 0 <= k < |s.machines| ==> r.value.machines[k] == View(s.machines[k], t)
  {
    if forall k :: 0 <= k < |s.machines| ==> Viewable(s.machines[k]) then
      Ok(Snapshot(t, ItemsInSystem(s.machines), Throughput(s.totalCompleted, t), s.totalStarted,
                  s.totalCompleted, AvgCycleTime(s.cycleTimes),
                  seq(|s.machines|, k requires 0 <= k < |s.machines| => View(s.machines[k], t))))
    else
      Err(DivisionByZero)
  }
}
