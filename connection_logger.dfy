/**
 * The raw connection log of rsu_logger.py: at every simulation step, one CSV
 * row for every (vehicle, RSU) pair whose distance is within that RSU's
 * radius, vehicles in the order the simulator lists them and RSUs in the
 * order of the configuration.
 */
module ConnectionLogger {
  import opened Geometry
  import opened Registry
  import opened RoundLogger

  /** A row `[time, round, veh_id, rsu_id, veh_x, veh_y, dist]`. */
  datatype ConnectionRow = ConnectionRow(t: real, round: int, veh: string, rsu: string, pos: Point, d: real)

  /** One simulation step: its time and every vehicle with its position. */
  type Step = (real, seq<(string, Point)>)

  /** The row written for vehicle `v` at `p` and `rsu` at time `t`. */
  function RowAt(dist: Metric, t: real, v: string, p: Point, rsu: Rsu): ConnectionRow
  {
    ConnectionRow(t, RoundOf(t), v, rsu.id, p, dist(p, rsu.pos))
  }

  /** The rows of the inner loop for vehicle `v`: the in-range RSUs of `reg`, in order. */
  function VehicleRows(reg: seq<Rsu>, dist: Metric, t: real, v: string, p: Point): seq<ConnectionRow>
  {
    if reg == [] then []
    else
      var last := reg[|reg| - 1];
      VehicleRows(reg[..|reg| - 1], dist, t, v, p) + (if InRange(dist, p, last) then [RowAt(dist, t, v, p, last)] else [])
  }

  /** The rows of one step: every vehicle's rows, vehicle after vehicle. */
  function StepRows(reg: seq<Rsu>, dist: Metric, t: real, batch: seq<(string, Point)>): seq<ConnectionRow>
  {
    if batch == [] then []
    else
      var last := batch[|batch| - 1];
      StepRows(reg, dist, t, batch[..|batch| - 1]) + VehicleRows(reg, dist, t, last.0, last.1)
  }

  /** The whole CSV body, step after step. */
  function LogRows(reg: seq<Rsu>, dist: Metric, steps: seq<Step>): seq<ConnectionRow>
  {
    if steps == [] then []
    else
      var last := steps[|steps| - 1];
      LogRows(reg, dist, steps[..|steps| - 1]) + StepRows(reg, dist, last.0, last.1)
  }

  /** How many RSUs of `reg` cover `p`. */
  function CountInRange(reg: seq<Rsu>, dist: Metric, p: Point): nat
  {
    if reg == [] then 0
    else CountInRange(reg[..|reg| - 1], dist, p) + (if InRange(dist, p, reg[|reg| - 1]) then 1 else 0)
  }

  /** The sum over the vehicles of a step of how many RSUs cover each. */
  function TotalInRange(reg: seq<Rsu>, dist: Metric, batch: seq<(string, Point)>): nat
  {
    if batch == [] then 0
    else TotalInRange(reg, dist, batch[..|batch| - 1]) + CountInRange(reg, dist, batch[|batch| - 1].1)
  }

  /** A vehicle gets one row per RSU that covers it. */
  lemma {:induction false} VehicleRowsCount(reg: seq<Rsu>, dist: Metric, t: real, v: string, p: Point)
    ensures |VehicleRows(reg, dist, t, v, p)| == CountInRange(reg, dist, p)
  {
    if reg != [] {
      VehicleRowsCount(reg[..|reg| - 1], dist, t, v, p);
    }
  }

  /** No RSU covers `p` exactly when the count is zero, so such a vehicle writes no rows. */
  lemma {:induction false} UncoveredWritesNothing(reg: seq<Rsu>, dist: Metric, p: Point)
    ensures CountInRange(reg, dist, p) == 0 <==> forall i :: 0 <= i < |reg| ==> !InRange(dist, p, reg[i])
  {
    if reg != [] {
      var init := reg[..|reg| - 1];
      UncoveredWritesNothing(init, dist, p);
      assert forall i :: 0 <= i < |init| ==> init[i] == reg[i];
    }
  }

  /** A row is written for `v` exactly for each RSU whose radius reaches it, not only the closest. */
  lemma {:induction false} VehicleRowsExact(reg: seq<Rsu>, dist: Metric, t: real, v: string, p: Point, row: ConnectionRow)
    ensures row in VehicleRows(reg, dist, t, v, p) <==>
      exists i :: 0 <= i < |reg| && InRange(dist, p, reg[i]) && row == RowAt(dist, t, v, p, reg[i])
  {
    if reg != [] {
      var init, last := reg[..|reg| - 1], reg[|reg| - 1];
      VehicleRowsExact(init, dist, t, v, p, row);
      if row in VehicleRows(init, dist, t, v, p) {
        var i :| 0 <= i < |init| && InRange(dist, p, init[i]) && row == RowAt(dist, t, v, p, init[i]);
        assert reg[i] == init[i];
      } else if exists i :: 0 <= i < |reg| && InRange(dist, p, reg[i]) && row == RowAt(dist, t, v, p, reg[i]) {
        var i :| 0 <= i < |reg| && InRange(dist, p, reg[i]) && row == RowAt(dist, t, v, p, reg[i]);
        if i < |init| {
          assert init[i] == reg[i];
        }
      }
    }
  }

  /** RSU order: the rows for `reg1 + reg2` are those for `reg1`, then those for `reg2`. */
  lemma {:induction false} VehicleRowsAppend(reg1: seq<Rsu>, reg2: seq<Rsu>, dist: Metric, t: real, v: string, p: Point)
    ensures VehicleRows(reg1 + reg2, dist, t, v, p) == VehicleRows(reg1, dist, t, v, p) + VehicleRows(reg2, dist, t, v, p)
  {
    if reg2 != [] {
      var init := reg2[..|reg2| - 1];
      assert (reg1 + reg2)[..|reg1 + reg2| - 1] == reg1 + init;
      VehicleRowsAppend(reg1, init, dist, t, v, p);
    } else {
      assert reg1 + reg2 == reg1;
    }
  }

  /** Vehicle order: the rows of a step are those of the earlier vehicles, then those of the later ones. */
  lemma {:induction false} StepRowsAppend(reg: seq<Rsu>, dist: Metric, t: real, batch1: seq<(string, Point)>, batch2: seq<(string, Point)>)
    ensures StepRows(reg, dist, t, batch1 + batch2) == StepRows(reg, dist, t, batch1) + StepRows(reg, dist, t, batch2)
  {
    if batch2 != [] {
      var init := batch2[..|batch2| - 1];
      assert (batch1 + batch2)[..|batch1 + batch2| - 1] == batch1 + init;
      StepRowsAppend(reg, dist, t, batch1, init);
    } else {
      assert batch1 + batch2 == batch1;
    }
  }

  /** The rows of a step number the sum over its vehicles of the RSUs covering each. */
  lemma {:induction false} StepRowsCount(reg: seq<Rsu>, dist: Metric, t: real, batch: seq<(string, Point)>)
    ensures |StepRows(reg, dist, t, batch)| == TotalInRange(reg, dist, batch)
  {
    if batch != [] {
      StepRowsCount(reg, dist, t, batch[..|batch| - 1]);
      VehicleRowsCount(reg, dist, t, batch[|batch| - 1].0, batch[|batch| - 1].1);
    }
  }

  /** Every row of a step carries the step's time, its round `floor(t / ROUND_LENGTH)`, and a distance within the radius of an RSU. */
  lemma {:induction false} StepRowsWellFormed(reg: seq<Rsu>, dist: Metric, t: real, batch: seq<(string, Point)>, row: ConnectionRow)
    requires row in StepRows(reg, dist, t, batch)
    ensures row.t == t && row.round == RoundOf(t)
    ensures exists i :: 0 <= i < |reg| && row.rsu == reg[i].id && row.d == dist(row.pos, reg[i].pos) && row.d <= reg[i].radius
  {
    var init, last := batch[..|batch| - 1], batch[|batch| - 1];
    if row in StepRows(reg, dist, t, init) {
      StepRowsWellFormed(reg, dist, t, init, row);
    } else {
      VehicleRowsExact(reg, dist, t, last.0, last.1, row);
    }
  }

  /** Every logged row's round is `floor(time / ROUND_LENGTH)` of its own time. */
  lemma {:induction false} LogRowsRound(reg: seq<Rsu>, dist: Metric, steps: seq<Step>, row: ConnectionRow)
    requires row in LogRows(reg, dist, steps)
    ensures row.round == RoundOf(row.t)
    ensures exists s :: 0 <= s < |steps| && row.t == steps[s].0
  {
    var init, last := steps[..|steps| - 1], steps[|steps| - 1];
    if row in LogRows(reg, dist, init) {
      LogRowsRound(reg, dist, init, row);
      var s :| 0 <= s < |init| && row.t == init[s].0;
      assert steps[s] == init[s];
    } else {
      StepRowsWellFormed(reg, dist, last.0, last.1, row);
    }
  }

  /** The inner loop over `RSUS.items()` for one vehicle. */
  method LogVehicle(reg: seq<Rsu>, dist: Metric, t: real, roundId: int, v: string, p: Point, rows: seq<ConnectionRow>) returns (rows': seq<ConnectionRow>)
    requires roundId == RoundOf(t)
    ensures rows' == rows + VehicleRows(reg, dist, t, v, p)
  {
    rows' := rows;
    var i := 0;
    while i < |reg|
      invariant 0 <= i <= |reg|
      invariant rows' == rows + VehicleRows(reg[..i], dist, t, v, p)
    {
      var rsu := reg[i];
      var d := dist(p, rsu.pos);
      assert reg[..i + 1][..i] == reg[..i];
      if d <= rsu.radius {
        rows' := rows' + [ConnectionRow(t, roundId, v, rsu.id, p, d)];
      }
      i := i + 1;
    }
    assert reg[..|reg|] == reg;
  }

  /** One step: the round id, then every vehicle's rows. */
  method LogStep(reg: seq<Rsu>, dist: Metric, t: real, batch: seq<(string, Point)>, rows: seq<ConnectionRow>) returns (rows': seq<ConnectionRow>)
    ensures rows' == rows + StepRows(reg, dist, t, batch)
  {
    var roundId := (t / 10.0).Floor;
    rows' := rows;
    var m := 0;
    while m < |batch|
      invariant 0 <= m <= |batch|
      invariant rows' == rows + StepRows(reg, dist, t, batch[..m])
    {
      assert batch[..m + 1][..m] == batch[..m];
      rows' := LogVehicle(reg, dist, t, roundId, batch[m].0, batch[m].1, rows');
      m := m + 1;
    }
    assert batch[..|batch|] == batch;
  }

  /** `run`: every step's rows, appended to the CSV body in step order. */
  method Run(reg: seq<Rsu>, dist: Metric, steps: seq<Step>) returns (rows: seq<ConnectionRow>)
    ensures rows == LogRows(reg, dist, steps)
  {
    rows := [];
    var s := 0;
    while s < |steps|
      invariant 0 <= s <= |steps|
      invariant rows == LogRows(reg, dist, steps[..s])
    {
      assert steps[..s + 1][..s] == steps[..s];
      rows := LogStep(reg, dist, steps[s].0, steps[s].1, rows);
      s := s + 1;
    }
    assert steps[..|steps|] == steps;
  }
}
