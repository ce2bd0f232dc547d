/**
 * The streaming round logger of rsu_logger_for_rounds.py.  Simulation steps
 * `(t, [(vehicle, position)])` are folded into per-round accumulators; when the
 * round index `floor(t / ROUND_LENGTH)` changes, the open round is flushed as
 * one record and the accumulators are reset.  The pure part below
 * (`RoundState`, `ObserveSample`, `ObserveBatch`) specifies one sample and one
 * batch; the class `Logger` holds the same state in fields and is proved
 * against it.
 */
module RoundLogger {
  import opened Wrappers
  import opened Geometry
  import opened Ordering
  import opened Registry
  import opened Logs

  /** `r * ROUND_LENGTH`, with `ROUND_LENGTH = 10.0` seconds: where round `r` starts, and round `r - 1` ends. */
  function RoundStart(r: int): real
  {
    r as real * 10.0
  }

  /** `int(t // ROUND_LENGTH)`: the round whose window `[r*L, (r+1)*L)` holds `t`. */
  function RoundOf(t: real): (r: int)
    ensures RoundStart(r) <= t < RoundStart(r + 1)
  {
    (t / 10.0).Floor
  }

  /** Later samples never fall in an earlier round. */
  lemma RoundOfMonotone(t1: real, t2: real)
    requires t1 <= t2
    ensures RoundOf(t1) <= RoundOf(t2)
  {
  }

  lemma MulStrict(x: real, y: real, c: real)
    requires c > 0.0 && x < y
    ensures x * c < y * c
  {
  }

  /** `dt`: zero on the very first step, otherwise the elapsed time floored at zero. */
  function StepDt(prevT: Option<real>, t: real): (dt: real)
    ensures dt >= 0.0
    ensures prevT.None? ==> dt == 0.0
    ensures prevT.Some? && t >= prevT.value ==> dt == t - prevT.value
    ensures prevT.Some? && t < prevT.value ==> dt == 0.0
  {
    match prevT
    case None => 0.0
    case Some(pt) => if t - pt > 0.0 then t - pt else 0.0
  }

  /**
   * The accumulators of one RSU in the open round: `round_membership[k]`,
   * `connected_time[k]`, and the distance sum, count, minimum and maximum.
   * `distMin` is `None` where the source holds `inf`.
   */
  datatype RsuStats = RsuStats(
    members: set<string>, connTime: real,
    distSum: real, distCount: nat, distMin: Option<real>, distMax: real)

  /** The accumulators of an RSU at the start of a round. */
  const EmptyStats := RsuStats({}, 0.0, 0.0, 0, None, 0.0)

  /**
   * The accumulators of the open round plus `prev_assignment`, which lives
   * for the whole run.  The per-RSU dictionaries of the source, all keyed by
   * the RSU ids, are one map to `RsuStats`; the handover counters are
   * multisets of RSU ids (a count of 0 for an absent id).
   */
  datatype RoundState = RoundState(
    perRsu: map<string, RsuStats>,
    handoverIn: multiset<string>,
    handoverOut: multiset<string>,
    seen: set<string>,
    connected: set<string>,
    uncovered: real,
    prevAssignment: map<string, Option<string>>)

  /** The per-RSU accumulators have exactly the RSU ids as keys. */
  predicate KeyedBy(s: RoundState, ids: set<string>)
  {
    s.perRsu.Keys == ids
  }

  /** `n` copies of `x` added up: `n * x` (`RepeatedIsProduct`) without a product of two unknowns. */
  function Repeated(n: nat, dt: real): real
  {
    if n == 0 then 0.0 else Repeated(n - 1, dt) + dt
  }

  lemma {:induction false} RepeatedIsProduct(n: nat, dt: real)
    ensures Repeated(n, dt) == n as real * dt
  {
    if n > 0 {
      RepeatedIsProduct(n - 1, dt);
    }
  }

  lemma {:induction false} RepeatedMonotone(n: nat, x: real, y: real)
    requires x <= y
    ensures Repeated(n, x) <= Repeated(n, y)
  {
    if n > 0 {
      RepeatedMonotone(n - 1, x, y);
    }
  }

  /** Distance statistics of one RSU: the minimum is set once a sample is counted, and bounds the mean with the maximum. */
  ghost predicate DistConsistent(st: RsuStats)
  {
    && (st.distCount == 0 <==> st.distMin.None?)
    && (st.distCount == 0 ==> st.distSum == 0.0)
    && (st.distCount > 0 ==>
          && st.distMin.value <= st.distMax
          && Repeated(st.distCount, st.distMin.value) <= st.distSum <= Repeated(st.distCount, st.distMax))
  }

  /** One RSU's members are connected vehicles, and its distances are consistent. */
  ghost predicate RsuConsistent(st: RsuStats, connected: set<string>)
  {
    st.members <= connected && DistConsistent(st)
  }

  /** Every handover is counted once in and once out, always on RSU ids. */
  ghost predicate HandoversConsistent(s: RoundState, ids: set<string>)
  {
    && |s.handoverIn| == |s.handoverOut|
    && (forall k :: k in s.handoverIn ==> k in ids)
    && (forall k :: k in s.handoverOut ==> k in ids)
    && (forall v :: v in s.prevAssignment && s.prevAssignment[v].Some? ==> s.prevAssignment[v].value in ids)
  }

  /** The invariant the per-sample update keeps: besides, `connected` within `seen`. */
  ghost predicate Consistent(s: RoundState, ids: set<string>)
  {
    && KeyedBy(s, ids)
    && s.connected <= s.seen
    && (forall k :: k in s.perRsu ==> RsuConsistent(s.perRsu[k], s.connected))
    && HandoversConsistent(s, ids)
  }

  /** `reset_round_accumulators`: everything per round emptied, `prev_assignment` kept. */
  function Fresh(ids: set<string>, prevAssignment: map<string, Option<string>>): (s: RoundState)
    ensures KeyedBy(s, ids) && s.prevAssignment == prevAssignment
    ensures (forall v :: v in prevAssignment && prevAssignment[v].Some? ==> prevAssignment[v].value in ids)
      ==> Consistent(s, ids)
  {
    RoundState(map k | k in ids :: EmptyStats, multiset{}, multiset{}, {}, {}, 0.0, prevAssignment)
  }

  function PrevOf(prevAssignment: map<string, Option<string>>, v: string): Option<string>
  {
    if v in prevAssignment then prevAssignment[v] else None
  }

  function MinOpt(m: Option<real>, d: real): real
  {
    match m
    case None => d
    case Some(x) => if d < x then d else x
  }

  function Max(a: real, d: real): real
  {
    if d > a then d else a
  }

  /** A covered sample of vehicle `v` at distance `d`, credited with `dt`, on its RSU's accumulators. */
  function AddSample(st: RsuStats, v: string, d: real, dt: real): (st': RsuStats)
    ensures st'.members == st.members + {v}
    ensures st'.connTime == st.connTime + dt
    ensures st'.distCount == st.distCount + 1
  {
    RsuStats(st.members + {v}, st.connTime + dt, st.distSum + d, st.distCount + 1, Some(MinOpt(st.distMin, d)), Max(st.distMax, d))
  }

  /** Counting one more sample at distance `d` keeps min <= mean <= max. */
  lemma AddSampleConsistent(st: RsuStats, v: string, d: real, dt: real)
    requires DistConsistent(st)
    ensures DistConsistent(AddSample(st, v, d, dt))
  {
    if st.distCount > 0 {
      RepeatedMonotone(st.distCount, MinOpt(st.distMin, d), st.distMin.value);
      RepeatedMonotone(st.distCount, st.distMax, Max(st.distMax, d));
    }
  }

  /** The RSU a pick names, `None` when no RSU is in range. */
  function Assigned(pick: Option<Pick>): Option<string>
  {
    if pick.Some? then Some(pick.value.rsu) else None
  }

  /**
   * The vehicle-level part of a sample: the vehicle is seen, a handover is
   * counted when the previous and the current assignment are both present
   * and differ, and `prev_assignment` takes the current assignment (also
   * when it is `None`).
   */
  function Track(s: RoundState, v: string, curr: Option<string>): (s': RoundState)
    ensures s'.seen == s.seen + {v}
    ensures s'.prevAssignment == s.prevAssignment[v := curr]
    ensures s'.perRsu == s.perRsu
  {
    var prev := PrevOf(s.prevAssignment, v);
    var handover := IsHandover(prev, curr);
    s.(
      seen := s.seen + {v},
      handoverIn := if handover then s.handoverIn + multiset{curr.value} else s.handoverIn,
      handoverOut := if handover then s.handoverOut + multiset{prev.value} else s.handoverOut,
      prevAssignment := s.prevAssignment[v := curr])
  }

  /**
   * The RSU-level part of a sample: an uncovered sample adds `dt` to the
   * uncovered time; a covered one records the vehicle under its RSU and adds
   * `dt` and the distance to that RSU's totals.
   */
  function Credit(s: RoundState, v: string, pick: Option<Pick>, dt: real): (s': RoundState)
    requires pick.Some? ==> pick.value.rsu in s.perRsu
    ensures s'.perRsu.Keys == s.perRsu.Keys
  {
    match pick
    case None => s.(uncovered := s.uncovered + dt)
    case Some(Pick(k, d)) =>
      s.(perRsu := s.perRsu[k := AddSample(s.perRsu[k], v, d, dt)], connected := s.connected + {v})
  }

  /** One vehicle sample: the body of the inner loop of `run`. */
  function ObserveSample(reg: seq<Rsu>, dist: Metric, s: RoundState, v: string, p: Point, dt: real): (s': RoundState)
    requires KeyedBy(s, Ids(reg))
    ensures KeyedBy(s', Ids(reg))
    ensures s'.seen == s.seen + {v}
  {
    var pick := Closest(reg, dist, p);
    Credit(Track(s, v, Assigned(pick)), v, pick, dt)
  }

  lemma TrackConsistent(s: RoundState, ids: set<string>, v: string, curr: Option<string>)
    requires Consistent(s, ids)
    requires curr.Some? ==> curr.value in ids
    ensures Consistent(Track(s, v, curr), ids)
  {
    var prev := PrevOf(s.prevAssignment, v);
    assert prev.Some? ==> prev.value in ids;
  }

  lemma CreditConsistent(s: RoundState, ids: set<string>, v: string, pick: Option<Pick>, dt: real)
    requires Consistent(s, ids) && v in s.seen
    requires pick.Some? ==> pick.value.rsu in ids
    ensures Consistent(Credit(s, v, pick, dt), ids)
  {
    if pick.Some? {
      var k, d := pick.value.rsu, pick.value.d;
      AddSampleConsistent(s.perRsu[k], v, d, dt);
      var s' := Credit(s, v, pick, dt);
      forall j | j in s'.perRsu ensures RsuConsistent(s'.perRsu[j], s'.connected) {
        if j != k {
          assert s'.perRsu[j] == s.perRsu[j];
        }
      }
    }
  }

  /**
   * The per-sample update keeps the invariant: `connected` within `seen`,
   * every membership set within `connected`, as many handovers in as out,
   * and min <= mean <= max for every RSU's distances.
   */
  lemma ObserveSampleConsistent(reg: seq<Rsu>, dist: Metric, s: RoundState, v: string, p: Point, dt: real)
    requires KeyedBy(s, Ids(reg))
    ensures Consistent(s, Ids(reg)) ==> Consistent(ObserveSample(reg, dist, s, v, p, dt), Ids(reg))
  {
    if Consistent(s, Ids(reg)) {
      var pick := Closest(reg, dist, p);
      TrackConsistent(s, Ids(reg), v, Assigned(pick));
      CreditConsistent(Track(s, v, Assigned(pick)), Ids(reg), v, pick, dt);
    }
  }

  /** The samples of one step, `for veh_id in veh_ids`, in list order. */
  function ObserveBatch(reg: seq<Rsu>, dist: Metric, s: RoundState, batch: seq<(string, Point)>, dt: real): (s': RoundState)
    requires KeyedBy(s, Ids(reg))
    ensures KeyedBy(s', Ids(reg))
    decreases |batch|
  {
    if batch == [] then s
    else
      var prefix := ObserveBatch(reg, dist, s, batch[..|batch| - 1], dt);
      var (v, p) := batch[|batch| - 1];
      ObserveSample(reg, dist, prefix, v, p, dt)
  }

  /** A whole step keeps the invariant, sample by sample. */
  lemma {:induction false} ObserveBatchConsistent(reg: seq<Rsu>, dist: Metric, s: RoundState, batch: seq<(string, Point)>, dt: real)
    requires Consistent(s, Ids(reg))
    ensures Consistent(ObserveBatch(reg, dist, s, batch, dt), Ids(reg))
    decreases |batch|
  {
    if batch != [] {
      var init := batch[..|batch| - 1];
      ObserveBatchConsistent(reg, dist, s, init, dt);
      var (v, p) := batch[|batch| - 1];
      ObserveSampleConsistent(reg, dist, ObserveBatch(reg, dist, s, init, dt), v, p, dt);
    }
  }

  function Vehicles(batch: seq<(string, Point)>): set<string>
  {
    set i | 0 <= i < |batch| :: batch[i].0
  }

  lemma VehiclesSnoc(batch: seq<(string, Point)>)
    requires batch != []
    ensures Vehicles(batch) == Vehicles(batch[..|batch| - 1]) + {batch[|batch| - 1].0}
  {
    var init := batch[..|batch| - 1];
    forall x | x in Vehicles(batch) ensures x in Vehicles(init) + {batch[|batch| - 1].0} {
      var i :| 0 <= i < |batch| && batch[i].0 == x;
      if i < |init| {
        assert init[i].0 == x;
      }
    }
    forall x | x in Vehicles(init) ensures x in Vehicles(batch) {
      var i :| 0 <= i < |init| && init[i].0 == x;
      assert batch[i].0 == x;
    }
  }

  /** Every vehicle of a step is seen in its round, whether covered or not. */
  lemma {:induction false} ObserveBatchSeen(reg: seq<Rsu>, dist: Metric, s: RoundState, batch: seq<(string, Point)>, dt: real)
    requires KeyedBy(s, Ids(reg))
    ensures ObserveBatch(reg, dist, s, batch, dt).seen == s.seen + Vehicles(batch)
    decreases |batch|
  {
    if batch != [] {
      var init := batch[..|batch| - 1];
      ObserveBatchSeen(reg, dist, s, init, dt);
      VehiclesSnoc(batch);
      var prefix := ObserveBatch(reg, dist, s, init, dt);
      var (v, p) := batch[|batch| - 1];
      assert ObserveBatch(reg, dist, s, batch, dt) == ObserveSample(reg, dist, prefix, v, p, dt);
    }
  }

  /** A sample out of range of every RSU breaks the chain: A, then uncovered, then B is no handover. */
  lemma NoHandoverAcrossGap(reg: seq<Rsu>, dist: Metric, s: RoundState, v: string, gap: Point, p: Point, dt1: real, dt2: real)
    requires KeyedBy(s, Ids(reg))
    requires Closest(reg, dist, gap).None?
    ensures
      var s2 := ObserveSample(reg, dist, ObserveSample(reg, dist, s, v, gap, dt1), v, p, dt2);
      s2.handoverIn == s.handoverIn && s2.handoverOut == s.handoverOut
  {
  }

  /** Sum of the per-RSU connected times, over the registry in order. */
  function ConnectedTotal(perRsu: map<string, RsuStats>, reg: seq<Rsu>): real
    requires forall i :: 0 <= i < |reg| ==> reg[i].id in perRsu
  {
    if reg == [] then 0.0
    else ConnectedTotal(perRsu, reg[..|reg| - 1]) + perRsu[reg[|reg| - 1].id].connTime
  }

  /** Adding `x` to the connected time of one RSU adds `x` to the total, once, when the RSU is registered. */
  lemma {:induction false} ConnectedTotalAdd(perRsu: map<string, RsuStats>, reg: seq<Rsu>, k: string, st: RsuStats, x: real)
    requires forall i, j :: 0 <= i < j < |reg| ==> reg[i].id != reg[j].id
    requires forall i :: 0 <= i < |reg| ==> reg[i].id in perRsu
    requires k in perRsu && st.connTime == perRsu[k].connTime + x
    ensures ConnectedTotal(perRsu[k := st], reg) == ConnectedTotal(perRsu, reg) + (if k in Ids(reg) then x else 0.0)
  {
    if reg != [] {
      var init := reg[..|reg| - 1];
      ConnectedTotalAdd(perRsu, init, k, st, x);
      if k == reg[|reg| - 1].id {
        assert k !in Ids(init) by {
          IdsIndexed(init, k);
        }
      }
    }
  }

  lemma {:induction false} IdsIndexed(reg: seq<Rsu>, k: string)
    ensures k in Ids(reg) ==> exists i :: 0 <= i < |reg| && reg[i].id == k
  {
    if reg != [] {
      IdsIndexed(reg[..|reg| - 1], k);
    }
  }

  /** Uncovered time plus the connected time of every RSU. */
  function TimeTotal(s: RoundState, reg: seq<Rsu>): real
    requires KeyedBy(s, Ids(reg))
  {
    s.uncovered + ConnectedTotal(s.perRsu, reg)
  }

  /** Whether one sample's `dt` moved from `s` to `s'`: to the uncovered time, or to the connected time of `curr`. */
  ghost predicate CreditedTo(s: RoundState, s': RoundState, curr: Option<string>, dt: real)
  {
    && (curr.None? ==> s'.perRsu == s.perRsu && s'.uncovered == s.uncovered + dt)
    && (curr.Some? ==>
          && curr.value in s.perRsu && curr.value in s'.perRsu && s'.uncovered == s.uncovered
          && s'.perRsu[curr.value].connTime == s.perRsu[curr.value].connTime + dt
          && s'.perRsu == s.perRsu[curr.value := s'.perRsu[curr.value]])
  }

  /** Where one sample's `dt` goes: to the uncovered time, or to the connected time of its nearest RSU. */
  lemma ObserveSampleCredits(reg: seq<Rsu>, dist: Metric, s: RoundState, v: string, p: Point, dt: real)
    requires KeyedBy(s, Ids(reg))
    ensures CreditedTo(s, ObserveSample(reg, dist, s, v, p, dt), Assigned(Closest(reg, dist, p)), dt)
  {
    var pick := Closest(reg, dist, p);
    if pick.Some? {
      var k := pick.value.rsu;
      var st := AddSample(s.perRsu[k], v, pick.value.d, dt);
      assert ObserveSample(reg, dist, s, v, p, dt).perRsu == s.perRsu[k := st];
    }
  }

  lemma CreditedTime(reg: seq<Rsu>, s: RoundState, s': RoundState, curr: Option<string>, dt: real)
    requires IsRegistry(reg) && KeyedBy(s, Ids(reg)) && KeyedBy(s', Ids(reg))
    requires CreditedTo(s, s', curr, dt)
    ensures TimeTotal(s', reg) == TimeTotal(s, reg) + dt
  {
    if curr.Some? {
      ConnectedTotalAdd(s.perRsu, reg, curr.value, s'.perRsu[curr.value], dt);
    }
  }

  /** Each sample credits its `dt` to exactly one place: the uncovered time or its nearest RSU. */
  lemma ObserveSampleTime(reg: seq<Rsu>, dist: Metric, s: RoundState, v: string, p: Point, dt: real)
    requires IsRegistry(reg) && KeyedBy(s, Ids(reg))
    ensures TimeTotal(ObserveSample(reg, dist, s, v, p, dt), reg) == TimeTotal(s, reg) + dt
  {
    ObserveSampleCredits(reg, dist, s, v, p, dt);
    CreditedTime(reg, s, ObserveSample(reg, dist, s, v, p, dt), Assigned(Closest(reg, dist, p)), dt);
  }

  /** So a step with `n` vehicles adds `n` times `dt` of vehicle time to the round (`RepeatedIsProduct`: `n * dt`). */
  lemma {:induction false} ObserveBatchTime(reg: seq<Rsu>, dist: Metric, s: RoundState, batch: seq<(string, Point)>, dt: real)
    requires IsRegistry(reg) && KeyedBy(s, Ids(reg))
    ensures TimeTotal(ObserveBatch(reg, dist, s, batch, dt), reg) == TimeTotal(s, reg) + Repeated(|batch|, dt)
    decreases |batch|
  {
    if batch != [] {
      var init := batch[..|batch| - 1];
      ObserveBatchTime(reg, dist, s, init, dt);
      ObserveSampleTime(reg, dist, ObserveBatch(reg, dist, s, init, dt), batch[|batch| - 1].0, batch[|batch| - 1].1, dt);
    }
  }

  lemma {:induction false} ConnectedTotalZero(perRsu: map<string, RsuStats>, reg: seq<Rsu>)
    requires forall i :: 0 <= i < |reg| ==> reg[i].id in perRsu && perRsu[reg[i].id].connTime == 0.0
    ensures ConnectedTotal(perRsu, reg) == 0.0
  {
    if reg != [] {
      ConnectedTotalZero(perRsu, reg[..|reg| - 1]);
    }
  }

  /** A reset round starts with no vehicle time at all. */
  lemma FreshTimeZero(reg: seq<Rsu>, prevAssignment: map<string, Option<string>>)
    ensures TimeTotal(Fresh(Ids(reg), prevAssignment), reg) == 0.0
  {
    ConnectedTotalZero(Fresh(Ids(reg), prevAssignment).perRsu, reg);
  }

  // ----- flushing a round -----

  datatype DistanceColumns = DistanceColumns(avg: real, min: real, max: real)

  /** One row of the per-RSU statistics; the distance columns are blank when nothing was counted. */
  datatype RsuRow = RsuRow(
    rsu: string, uniqueVehicles: nat, connectedTime: real,
    distance: Option<DistanceColumns>, handoverIn: nat, handoverOut: nat)

  /** Everything `flush_round` writes for one round: the membership line, the per-RSU rows, the summary row. */
  datatype RoundRecord = RoundRecord(
    membership: MembershipRecord, rows: seq<RsuRow>,
    seenCount: nat, connectedCount: nat, uncovered: real)

  lemma MeanBetween(min: real, max: real, sum: real, count: real)
    requires count > 0.0 && min * count <= sum <= max * count
    ensures min <= sum / count <= max
  {
    var avg := sum / count;
    assert avg * count == sum;
    if avg < min {
      MulStrict(avg, min, count);
    }
    if max < avg {
      MulStrict(max, avg, count);
    }
  }

  /** The row of RSU `k`: mean, minimum and maximum distance, or blanks when no sample was counted. */
  function RowOf(s: RoundState, k: string): (row: RsuRow)
    requires k in s.perRsu && DistConsistent(s.perRsu[k])
    ensures row.rsu == k
    ensures row.distance.None? <==> s.perRsu[k].distCount == 0
    ensures row.distance.Some? ==> row.distance.value.min <= row.distance.value.avg <= row.distance.value.max
  {
    var st := s.perRsu[k];
    var distance :=
      if st.distCount > 0 then
        RepeatedIsProduct(st.distCount, st.distMin.value);
        RepeatedIsProduct(st.distCount, st.distMax);
        MeanBetween(st.distMin.value, st.distMax, st.distSum, st.distCount as real);
        Some(DistanceColumns(st.distSum / st.distCount as real, st.distMin.value, st.distMax))
      else None;
    RsuRow(k, |st.members|, st.connTime, distance, s.handoverIn[k], s.handoverOut[k])
  }

  /** The `rsus` field of the membership line for the first `n` RSUs: id and sorted vehicles, in registry order. */
  ghost function MembersUpTo(reg: seq<Rsu>, s: RoundState, n: nat): (rsus: seq<(string, seq<string>)>)
    requires Consistent(s, Ids(reg)) && n <= |reg|
    ensures |rsus| == n
    decreases n
  {
    if n == 0 then []
    else
      StrLtIsStrictTotalOrder();
      MembersUpTo(reg, s, n - 1) + [(reg[n - 1].id, SortedOf(s.perRsu[reg[n - 1].id].members, StrLt))]
  }

  /** The rows of the first `n` RSUs, in registry order. */
  ghost function RowsUpTo(reg: seq<Rsu>, s: RoundState, n: nat): (rows: seq<RsuRow>)
    requires Consistent(s, Ids(reg)) && n <= |reg|
    ensures |rows| == n
    decreases n
  {
    if n == 0 then [] else RowsUpTo(reg, s, n - 1) + [RowOf(s, reg[n - 1].id)]
  }

  /**
   * What `flush_round(r)` writes from state `s`: the window `[r*L, (r+1)*L)`,
   * every RSU in registry order with its sorted vehicles and its row, and
   * the counts of seen and connected vehicles and the uncovered time.
   */
  ghost function FlushRecord(r: int, reg: seq<Rsu>, s: RoundState): RoundRecord
    requires Consistent(s, Ids(reg))
  {
    RoundRecord(
      MembershipRecord(r, RoundStart(r), RoundStart(r + 1), MembersUpTo(reg, s, |reg|)),
      RowsUpTo(reg, s, |reg|),
      |s.seen|, |s.connected|, s.uncovered)
  }

  lemma {:induction false} MembersAt(reg: seq<Rsu>, s: RoundState, n: nat, i: nat)
    requires Consistent(s, Ids(reg)) && i < n <= |reg|
    ensures StrictTotalOrder(StrLt)
    ensures MembersUpTo(reg, s, n)[i] == (reg[i].id, SortedOf(s.perRsu[reg[i].id].members, StrLt))
    decreases n
  {
    StrLtIsStrictTotalOrder();
    if i < n - 1 {
      MembersAt(reg, s, n - 1, i);
    }
  }

  lemma {:induction false} RowsAt(reg: seq<Rsu>, s: RoundState, n: nat, i: nat)
    requires Consistent(s, Ids(reg)) && i < n <= |reg|
    ensures RowsUpTo(reg, s, n)[i] == RowOf(s, reg[i].id)
    decreases n
  {
    if i < n - 1 {
      RowsAt(reg, s, n - 1, i);
    }
  }

  /**
   * A flushed record lists every RSU at its registry index with its
   * vehicles sorted, and its row: the vehicle count, the connected time,
   * blank distances exactly when no distance was counted, and otherwise a
   * mean between the minimum and the maximum.
   */
  lemma FlushedRsu(r: int, reg: seq<Rsu>, s: RoundState, i: nat)
    requires Consistent(s, Ids(reg)) && i < |reg|
    ensures var rec := FlushRecord(r, reg, s);
      && |rec.membership.rsus| == |rec.rows| == |reg|
      && rec.membership.rsus[i].0 == reg[i].id
      && SortedListOf(rec.membership.rsus[i].1, s.perRsu[reg[i].id].members, StrLt)
      && rec.rows[i].rsu == reg[i].id
      && rec.rows[i].uniqueVehicles == |s.perRsu[reg[i].id].members|
      && rec.rows[i].connectedTime == s.perRsu[reg[i].id].connTime
      && (rec.rows[i].distance.None? <==> s.perRsu[reg[i].id].distCount == 0)
      && (rec.rows[i].distance.Some? ==>
            rec.rows[i].distance.value.min <= rec.rows[i].distance.value.avg <= rec.rows[i].distance.value.max)
  {
    MembersAt(reg, s, |reg|, i);
    RowsAt(reg, s, |reg|, i);
  }

  /** The record a step in round `r` flushes, if it closes the open round. */
  ghost function ClosedRecords(currentRound: Option<int>, r: int, reg: seq<Rsu>, s: RoundState): seq<RoundRecord>
    requires Consistent(s, Ids(reg))
  {
    if currentRound.Some? && currentRound.value != r then [FlushRecord(currentRound.value, reg, s)] else []
  }

  /** A step in round `r` closes the open round exactly when there is one and it differs from `r`. */
  predicate ClosesRound(currentRound: Option<int>, r: int)
  {
    currentRound.Some? && currentRound.value != r
  }

  /** The round a step in round `r` closes, if any. */
  function Closed(currentRound: Option<int>, r: int): seq<int>
  {
    if ClosesRound(currentRound, r) then [currentRound.value] else []
  }

  /** The accumulators a step in round `r` starts from: those of the open round if it is `r`, otherwise fresh ones. */
  function Opened(currentRound: Option<int>, r: int, s: RoundState, ids: set<string>): (s': RoundState)
    ensures s'.prevAssignment == s.prevAssignment
    ensures currentRound == Some(r) ==> s' == s
  {
    if currentRound == Some(r) then s else Fresh(ids, s.prevAssignment)
  }

  /**
   * The state of `run`: the registry, the distance are
   * fixed; the open round, the last step's time, the accumulators (with
   * `prev_assignment`) and the log of flushed rounds (the three output
   * files, one record per round) are fields the steps update.
   */
  class Logger {
    const registry: seq<Rsu>
    const dist: Metric

    var currentRound: Option<int>
    var prevT: Option<real>
    var acc: RoundState
    var log: seq<RoundRecord>

    /** The configuration is well formed and the accumulators are consistent. */
    ghost predicate AccValid()
      reads this
    {
      && IsRegistry(registry)
      && Consistent(acc, Ids(registry))
    }

    /** Besides, the open round is the round of the last step's time. */
    ghost predicate Valid()
      reads this
    {
      && AccValid()
      && (currentRound.None? <==> prevT.None?)
      && (prevT.Some? ==> currentRound.value == RoundOf(prevT.value))
    }

    constructor(reg: seq<Rsu>, dist: Metric)
      requires IsRegistry(reg)
      ensures Valid()
      ensures registry == reg && this.dist == dist
      ensures currentRound.None? && prevT.None? && log == []
      ensures acc == Fresh(Ids(reg), map[])
    {
      registry, this.dist := reg, dist;
      currentRound, prevT := None, None;
      acc := Fresh(Ids(reg), map[]);
      log := [];
    }

    /** `reset_round_accumulators`: every per-round accumulator emptied; `prev_assignment` survives. */
    method Reset()
      modifies this`acc
      ensures acc == Fresh(Ids(registry), old(acc.prevAssignment))
    {
      var ids := Ids(registry);
      acc := acc.(
        perRsu := map k | k in ids :: EmptyStats,
        handoverIn := multiset{},
        handoverOut := multiset{},
        seen := {},
        connected := {},
        uncovered := 0.0);
    }

    /** One row of `rsu_round_stats.csv`: blanks for the distance columns when no distance was counted. */
    method StatsRow(k: string) returns (row: RsuRow)
      requires AccValid() && k in Ids(registry)
      ensures row == RowOf(acc, k)
    {
      var st := acc.perRsu[k];
      var distance: Option<DistanceColumns> := None;
      if st.distCount > 0 {
        distance := Some(DistanceColumns(st.distSum / st.distCount as real, st.distMin.value, st.distMax));
      }
      row := RsuRow(k, |st.members|, st.connTime, distance, acc.handoverIn[k], acc.handoverOut[k]);
    }

    /** `flush_round(r)`: append the round's record, vehicle lists sorted, RSUs in registry order. */
    method FlushRound(r: int)
      requires AccValid()
      modifies this`log
      ensures log == old(log) + [FlushRecord(r, registry, acc)]
    {
      var rsus, rows := Tables();
      var tStart, tEnd := Window(r);
      var membershipLine := MembershipRecord(r, tStart, tEnd, rsus);
      log := log + [RoundRecord(membershipLine, rows, |acc.seen|, |acc.connected|, acc.uncovered)];
    }

    /** The `for k in RSUS` loop of `flush_round`: each RSU's sorted vehicles and its statistics row. */
    method Tables() returns (rsus: seq<(string, seq<string>)>, rows: seq<RsuRow>)
      requires AccValid()
      ensures rsus == MembersUpTo(registry, acc, |registry|)
      ensures rows == RowsUpTo(registry, acc, |registry|)
    {
      rsus, rows := [], [];
      for i := 0 to |registry|
        invariant rsus == MembersUpTo(registry, acc, i)
        invariant rows == RowsUpTo(registry, acc, i)
      {
        var k := registry[i].id;
        assert k in Ids(registry);
        var vehicles := SortedMembers(k);
        var row := StatsRow(k);
        rsus := rsus + [(k, vehicles)];
        rows := rows + [row];
      }
    }

    /** `sorted(round_membership[k])`. */
    method SortedMembers(k: string) returns (vehicles: seq<string>)
      requires AccValid() && k in Ids(registry)
      ensures StrictTotalOrder(StrLt)
      ensures vehicles == SortedOf(acc.perRsu[k].members, StrLt)
    {
      StrLtIsStrictTotalOrder();
      var members := acc.perRsu[k].members;
      vehicles := SortSet(members, StrLt);
      SortedListUnique(vehicles, SortedOf(members, StrLt), members, StrLt);
    }

    /** `t_start = r * ROUND_LENGTH` and `t_end = (r + 1) * ROUND_LENGTH`. */
    method Window(r: int) returns (tStart: real, tEnd: real)
      ensures tStart == RoundStart(r) && tEnd == RoundStart(r + 1)
    {
      tStart, tEnd := r as real * 10.0, (r + 1) as real * 10.0;
    }

    /** One iteration of the inner loop of `run`: vehicle `v` at position `p`, `dt` since the last step. */
    method Observe(v: string, p: Point, dt: real)
      requires Valid()
      modifies this`acc
      ensures Valid()
      ensures acc == ObserveSample(registry, dist, old(acc), v, p, dt)
    {
      ObserveSampleConsistent(registry, dist, acc, v, p, dt);
      var pick := PickClosest(registry, dist, p);
      TrackVehicle(v, pick);
      CreditSample(v, pick, dt);
    }

    /** The vehicle is seen; a change between two RSUs counts a handover; `prev_assignment` is updated. */
    method TrackVehicle(v: string, pick: Option<Pick>)
      modifies this`acc
      ensures acc == Track(old(acc), v, Assigned(pick))
    {
      acc := acc.(seen := acc.seen + {v});
      var prev := if v in acc.prevAssignment then acc.prevAssignment[v] else None;
      if prev.Some? && pick.Some? && prev.value != pick.value.rsu {
        acc := acc.(
          handoverOut := acc.handoverOut + multiset{prev.value},
          handoverIn := acc.handoverIn + multiset{pick.value.rsu});
      }
      acc := acc.(prevAssignment := acc.prevAssignment[v := if pick.Some? then Some(pick.value.rsu) else None]);
    }

    /** An uncovered sample adds `dt` to the uncovered time; a covered one is credited to its RSU. */
    method CreditSample(v: string, pick: Option<Pick>, dt: real)
      requires KeyedBy(acc, Ids(registry))
      requires pick.Some? ==> pick.value.rsu in Ids(registry)
      modifies this`acc
      ensures acc == Credit(old(acc), v, pick, dt)
    {
      if pick.None? {
        acc := acc.(uncovered := acc.uncovered + dt);
        return;
      }
      var k, d := pick.value.rsu, pick.value.d;
      var st := acc.perRsu[k];
      var dMin := if st.distMin.Some? && st.distMin.value <= d then st.distMin.value else d;
      var dMax := if d > st.distMax then d else st.distMax;
      st := st.(
        members := st.members + {v},
        connTime := st.connTime + dt,
        distSum := st.distSum + d,
        distCount := st.distCount + 1,
        distMin := Some(dMin),
        distMax := dMax);
      acc := acc.(perRsu := acc.perRsu[k := st], connected := acc.connected + {v});
    }

    /**
     * One pass of the `while` loop of `run` at simulation time `t`: the round
     * of `t` is opened (flushing the open round first if it differs), and
     * then every vehicle of the step is observed with the elapsed time.
     */
    method Step(t: real, batch: seq<(string, Point)>)
      requires Valid()
      modifies this
      ensures Valid()
      ensures prevT == Some(t) && currentRound == Some(RoundOf(t))
      ensures log == old(log) + ClosedRecords(old(currentRound), RoundOf(t), registry, old(acc))
      ensures acc == ObserveBatch(registry, dist,
        Opened(old(currentRound), RoundOf(t), old(acc), Ids(registry)),
        batch, StepDt(old(prevT), t))
    {
      var dt := Advance(t);
      ObserveAll(batch, dt);
    }

    /** The start of a step: `dt` since the last step, which becomes `t`, and the round of `t` opened. */
    method Advance(t: real) returns (dt: real)
      requires Valid()
      modifies this`prevT, this`currentRound, this`acc, this`log
      ensures Valid()
      ensures dt == StepDt(old(prevT), t)
      ensures prevT == Some(t) && currentRound == Some(RoundOf(t))
      ensures log == old(log) + ClosedRecords(old(currentRound), RoundOf(t), registry, old(acc))
      ensures acc == Opened(old(currentRound), RoundOf(t), old(acc), Ids(registry))
    {
      dt := if prevT.None? then 0.0 else (if t - prevT.value > 0.0 then t - prevT.value else 0.0);
      prevT := Some(t);
      OpenRound(RoundOf(t));
    }

    /** The round check of `run`: open round `r`, first flushing the open round if it is another one. */
    method OpenRound(r: int)
      requires AccValid()
      modifies this`currentRound, this`acc, this`log
      ensures AccValid() && currentRound == Some(r)
      ensures log == old(log) + ClosedRecords(old(currentRound), r, registry, old(acc))
      ensures acc == Opened(old(currentRound), r, old(acc), Ids(registry))
    {
      if currentRound.None? {
        currentRound := Some(r);
        Reset();
      } else if currentRound.value != r {
        FlushRound(currentRound.value);
        currentRound := Some(r);
        Reset();
      }
    }

    /** The `for veh_id in veh_ids` loop of one step. */
    method ObserveAll(batch: seq<(string, Point)>, dt: real)
      requires Valid()
      modifies this`acc
      ensures Valid()
      ensures acc == ObserveBatch(registry, dist, old(acc), batch, dt)
    {
      for i := 0 to |batch|
        invariant Valid()
        invariant acc == ObserveBatch(registry, dist, old(acc), batch[..i], dt)
      {
        assert batch[..i + 1][..i] == batch[..i];
        Observe(batch[i].0, batch[i].1, dt);
      }
      assert batch[..|batch|] == batch;
    }

    /** The `if current_round is not None: flush_round(current_round)` after the loop. */
    method Finish()
      requires AccValid()
      modifies this`log
      ensures currentRound.Some? ==> log == old(log) + [FlushRecord(currentRound.value, registry, acc)]
      ensures currentRound.None? ==> log == old(log)
    {
      if currentRound.Some? {
        FlushRound(currentRound.value);
      }
    }
  }

  // ----- the whole run -----

  /** The round of every step, in step order. */
  function RoundsOf(steps: seq<(real, seq<(string, Point)>)>): (rs: seq<int>)
    ensures |rs| == |steps|
    decreases |steps|
  {
    if steps == [] then []
    else RoundsOf(steps[..|steps| - 1]) + [RoundOf(steps[|steps| - 1].0)]
  }

  lemma {:induction false} RoundsOfAt(steps: seq<(real, seq<(string, Point)>)>, i: nat)
    requires i < |steps|
    ensures RoundsOf(steps)[i] == RoundOf(steps[i].0)
    decreases |steps|
  {
    if i < |steps| - 1 {
      RoundsOfAt(steps[..|steps| - 1], i);
    }
  }

  /** One entry per maximal run of equal neighbours: the rounds in the order they are opened. */
  function DistinctRuns(rs: seq<int>): (d: seq<int>)
    ensures |d| <= |rs|
    ensures rs == [] <==> d == []
    ensures rs != [] ==> d[|d| - 1] == rs[|rs| - 1]
    decreases |rs|
  {
    if rs == [] then []
    else
      var d := DistinctRuns(rs[..|rs| - 1]);
      if d != [] && d[|d| - 1] == rs[|rs| - 1] then d else d + [rs[|rs| - 1]]
  }

  /** A round appears among the runs exactly when some step falls in it: no record for a round without steps. */
  lemma {:induction false} DistinctRunsMembers(rs: seq<int>, x: int)
    ensures x in DistinctRuns(rs) <==> x in rs
    decreases |rs|
  {
    if rs != [] {
      var init := rs[..|rs| - 1];
      DistinctRunsMembers(init, x);
      assert rs == init + [rs[|rs| - 1]];
    }
  }

  /** Neighbouring runs always differ. */
  lemma {:induction false} DistinctRunsChange(rs: seq<int>)
    ensures forall i :: 0 <= i < |DistinctRuns(rs)| - 1 ==> DistinctRuns(rs)[i] != DistinctRuns(rs)[i + 1]
    decreases |rs|
  {
    if rs != [] {
      DistinctRunsChange(rs[..|rs| - 1]);
    }
  }

  ghost predicate NonDecreasing(rs: seq<int>)
  {
    forall i, j :: 0 <= i <= j < |rs| ==> rs[i] <= rs[j]
  }

  ghost predicate StrictlyIncreasing(rs: seq<int>)
  {
    forall i, j :: 0 <= i < j < |rs| ==> rs[i] < rs[j]
  }

  /** When the rounds never go back, the runs strictly increase: every round is opened, and flushed, once. */
  lemma {:induction false} DistinctRunsIncreasing(rs: seq<int>)
    requires NonDecreasing(rs)
    ensures StrictlyIncreasing(DistinctRuns(rs))
    decreases |rs|
  {
    if rs != [] {
      var init := rs[..|rs| - 1];
      assert NonDecreasing(init);
      DistinctRunsIncreasing(init);
      var d := DistinctRuns(init);
      if d != [] {
        assert d[|d| - 1] == init[|init| - 1] <= rs[|rs| - 1];
      }
    }
  }

  /** Steps whose times never go back have rounds that never go back. */
  lemma RoundsMonotone(steps: seq<(real, seq<(string, Point)>)>)
    requires forall i, j :: 0 <= i <= j < |steps| ==> steps[i].0 <= steps[j].0
    ensures NonDecreasing(RoundsOf(steps))
  {
    var rs := RoundsOf(steps);
    forall i, j | 0 <= i <= j < |rs| ensures rs[i] <= rs[j] {
      RoundsOfAt(steps, i);
      RoundsOfAt(steps, j);
      RoundOfMonotone(steps[i].0, steps[j].0);
    }
  }

  /** The round of every record, in log order. */
  function RoundsLogged(log: seq<RoundRecord>): (rs: seq<int>)
    ensures |rs| == |log|
    ensures forall j :: 0 <= j < |log| ==> rs[j] == log[j].membership.round
    decreases |log|
  {
    if log == [] then [] else RoundsLogged(log[..|log| - 1]) + [log[|log| - 1].membership.round]
  }

  function Pending(currentRound: Option<int>): seq<int>
  {
    if currentRound.Some? then [currentRound.value] else []
  }

  /** One step in round `r` keeps the logged rounds plus the open round equal to the runs so far. */
  lemma StepExtendsRuns(before: seq<RoundRecord>, after: seq<RoundRecord>, current: Option<int>, r: int, rs: seq<int>)
    requires RoundsLogged(before) + Pending(current) == DistinctRuns(rs)
    requires rs == [] <==> current.None?
    requires RoundsLogged(after) == RoundsLogged(before) + Closed(current, r)
    ensures RoundsLogged(after) + Pending(Some(r)) == DistinctRuns(rs + [r])
  {
    assert (rs + [r])[..|rs|] == rs;
  }

  /** The final flush turns the open round into the last record. */
  lemma FinishCompletesRuns(before: seq<RoundRecord>, after: seq<RoundRecord>, current: Option<int>, rs: seq<int>)
    requires RoundsLogged(before) + Pending(current) == DistinctRuns(rs)
    requires current.Some? ==> RoundsLogged(after) == RoundsLogged(before) + [current.value]
    requires current.None? ==> after == before
    ensures RoundsLogged(after) == DistinctRuns(rs)
  {
  }

  lemma {:induction false} RoundsLoggedAppend(a: seq<RoundRecord>, b: seq<RoundRecord>)
    ensures RoundsLogged(a + b) == RoundsLogged(a) + RoundsLogged(b)
    decreases |b|
  {
    if b != [] {
      var init := b[..|b| - 1];
      RoundsLoggedAppend(a, init);
      assert (a + b)[..|a + b| - 1] == a + init;
    }
  }

  /** The records a step closes carry exactly the round it closes. */
  lemma ClosedRounds(before: seq<RoundRecord>, current: Option<int>, r: int, reg: seq<Rsu>, s: RoundState)
    requires Consistent(s, Ids(reg))
    ensures RoundsLogged(before + ClosedRecords(current, r, reg, s)) == RoundsLogged(before) + Closed(current, r)
  {
    RoundsLoggedAppend(before, ClosedRecords(current, r, reg, s));
  }

  lemma RoundsOfSnoc(steps: seq<(real, seq<(string, Point)>)>, i: nat)
    requires i < |steps|
    ensures RoundsOf(steps[..i + 1]) == RoundsOf(steps[..i]) + [RoundOf(steps[i].0)]
  {
    assert steps[..i + 1][..i] == steps[..i];
  }

  /** One pass of the `while` loop keeps the logged rounds plus the open round equal to the runs of the rounds so far. */
  method StepRuns(logger: Logger, t: real, batch: seq<(string, Point)>, ghost rs: seq<int>)
    requires logger.Valid()
    requires rs == [] <==> logger.currentRound.None?
    requires RoundsLogged(logger.log) + Pending(logger.currentRound) == DistinctRuns(rs)
    modifies logger
    ensures logger.Valid() && logger.currentRound.Some?
    ensures RoundsLogged(logger.log) + Pending(logger.currentRound) == DistinctRuns(rs + [RoundOf(t)])
  {
    ghost var before, current, acc := logger.log, logger.currentRound, logger.acc;
    logger.Step(t, batch);
    ClosedRounds(before, current, RoundOf(t), logger.registry, acc);
    StepExtendsRuns(before, logger.log, current, RoundOf(t), rs);
  }

  /** The `while` loop of `run`: one `Step` per simulation step, from a fresh logger. */
  method StepAll(logger: Logger, steps: seq<(real, seq<(string, Point)>)>)
    requires logger.Valid() && logger.currentRound.None? && logger.log == []
    modifies logger
    ensures logger.Valid()
    ensures steps == [] <==> logger.currentRound.None?
    ensures RoundsLogged(logger.log) + Pending(logger.currentRound) == DistinctRuns(RoundsOf(steps))
  {
    for i := 0 to |steps|
      invariant logger.Valid()
      invariant i == 0 <==> logger.currentRound.None?
      invariant RoundsLogged(logger.log) + Pending(logger.currentRound) == DistinctRuns(RoundsOf(steps[..i]))
    {
      StepRuns(logger, steps[i].0, steps[i].1, RoundsOf(steps[..i]));
      RoundsOfSnoc(steps, i);
    }
    assert steps[..|steps|] == steps;
  }

  /**
   * `run`: every simulation step, then the final flush.  The log holds one
   * record per run of steps in the same round, in order.
   */
  method Run(reg: seq<Rsu>, dist: Metric, steps: seq<(real, seq<(string, Point)>)>)
    returns (log: seq<RoundRecord>)
    requires IsRegistry(reg)
    ensures RoundsLogged(log) == DistinctRuns(RoundsOf(steps))
  {
    var logger := new Logger(reg, dist);
    StepAll(logger, steps);
    ghost var before, current := logger.log, logger.currentRound;
    logger.Finish();
    if current.Some? {
      RoundsLoggedAppend(before, [FlushRecord(current.value, reg, logger.acc)]);
    }
    FinishCompletesRuns(before, logger.log, current, RoundsOf(steps));
    log := logger.log;
  }

  /** With non-decreasing step times, the logged rounds strictly increase. */
  lemma RunRoundsIncreasing(steps: seq<(real, seq<(string, Point)>)>, log: seq<RoundRecord>)
    requires forall i, j :: 0 <= i <= j < |steps| ==> steps[i].0 <= steps[j].0
    requires RoundsLogged(log) == DistinctRuns(RoundsOf(steps))
    ensures forall i, j :: 0 <= i < j < |log| ==> log[i].membership.round < log[j].membership.round
  {
    RoundsMonotone(steps);
    DistinctRunsIncreasing(RoundsOf(steps));
    forall i, j | 0 <= i < j < |log| ensures log[i].membership.round < log[j].membership.round {
      assert RoundsLogged(log)[i] < RoundsLogged(log)[j];
    }
  }
}
