/**
 * The offline handover analysis of analyse_membership.py.  The statistics
 * log is indexed by round (a later record replaces an earlier one); each
 * membership record is inverted into a vehicle-to-RSU assignment, compared
 * with the assignment left by the previous record to count handovers, and
 * turned into one summary row and one row per RSU.
 */
module MembershipAnalysis {
  import opened Wrappers
  import opened Registry
  import opened Logs

  /** One line of `round_stats.jsonl`: the round, `int(rec["round"])`, and the decoded object. */
  datatype StatsRecord = StatsRecord(round: int, fields: seq<(string, Json)>)

  // ----- load_stats_by_round -----

  /** The statistics objects indexed by round, a later line replacing an earlier one. */
  function StatsByRound(lines: seq<Line<StatsRecord>>): map<int, seq<(string, Json)>>
    decreases |lines|
  {
    if lines == [] then map[]
    else
      var m := StatsByRound(lines[..|lines| - 1]);
      match lines[|lines| - 1]
      case Blank => m
      case Record(rec) => m[rec.round := rec.fields]
  }

  /**
   * A round is indexed exactly when some non-blank line carries it, and it
   * holds the object of the last such line.
   */
  lemma {:induction false} StatsByRoundLastWins(lines: seq<Line<StatsRecord>>, r: int)
    ensures r in StatsByRound(lines) <==> exists i :: 0 <= i < |lines| && lines[i].Record? && lines[i].rec.round == r
    ensures r in StatsByRound(lines) ==>
      exists i :: 0 <= i < |lines| && lines[i] == Record(StatsRecord(r, StatsByRound(lines)[r]))
        && forall j :: i < j < |lines| ==> !(lines[j].Record? && lines[j].rec.round == r)
    decreases |lines|
  {
    if lines != [] {
      var init := lines[..|lines| - 1];
      StatsByRoundLastWins(init, r);
      var last := lines[|lines| - 1];
      if last.Record? && last.rec.round == r {
        assert lines[|lines| - 1] == Record(StatsRecord(r, StatsByRound(lines)[r]));
      } else {
        if exists i :: 0 <= i < |init| && init[i].Record? && init[i].rec.round == r {
          var i :| 0 <= i < |init| && init[i].Record? && init[i].rec.round == r;
          assert lines[i] == init[i];
        }
        if exists i :: 0 <= i < |lines| && lines[i].Record? && lines[i].rec.round == r {
          var i :| 0 <= i < |lines| && lines[i].Record? && lines[i].rec.round == r;
          assert init[i] == lines[i];
        }
        if r in StatsByRound(lines) {
          var i :| 0 <= i < |init| && init[i] == Record(StatsRecord(r, StatsByRound(init)[r]))
            && forall j :: i < j < |init| ==> !(init[j].Record? && init[j].rec.round == r);
          assert lines[i] == init[i];
          forall j | i < j < |lines| ensures !(lines[j].Record? && lines[j].rec.round == r) {
            if j < |init| {
              assert lines[j] == init[j];
            }
          }
        }
      }
    }
  }

  /** `load_stats_by_round` after decoding: blank lines skipped, `by_round[round] = rec`. */
  method LoadStatsByRound(lines: seq<Line<StatsRecord>>) returns (byRound: map<int, seq<(string, Json)>>)
    ensures byRound == StatsByRound(lines)
  {
    byRound := map[];
    for n := 0 to |lines|
      invariant byRound == StatsByRound(lines[..n])
    {
      assert lines[..n + 1][..n] == lines[..n];
      if lines[n].Record? {
        byRound := byRound[lines[n].rec.round := lines[n].rec.fields];
      }
    }
    assert lines[..|lines|] == lines;
  }

  // ----- invert_membership -----

  /** `out[v] = rsu_id` for every vehicle of one RSU. */
  function AssignAll(vehs: seq<string>, k: string): map<string, string>
  {
    map v | v in vehs :: k
  }

  /** The vehicle-to-RSU map of a membership record, RSU by RSU; a later RSU overrides an earlier one. */
  function Inverted(rsus: seq<(string, seq<string>)>): map<string, string>
    decreases |rsus|
  {
    if rsus == [] then map[]
    else Inverted(rsus[..|rsus| - 1]) + AssignAll(rsus[|rsus| - 1].1, rsus[|rsus| - 1].0)
  }

  /**
   * The keys of the inverted map are exactly the listed vehicles, and each
   * vehicle maps to the last RSU whose list holds it.
   */
  lemma {:induction false} InvertedLastWins(rsus: seq<(string, seq<string>)>, v: string)
    ensures v in Inverted(rsus) <==> exists i :: 0 <= i < |rsus| && v in rsus[i].1
    ensures v in Inverted(rsus) ==>
      exists i :: 0 <= i < |rsus| && v in rsus[i].1 && Inverted(rsus)[v] == rsus[i].0
        && forall j :: i < j < |rsus| ==> v !in rsus[j].1
    decreases |rsus|
  {
    if rsus != [] {
      var init := rsus[..|rsus| - 1];
      InvertedLastWins(init, v);
      if v !in rsus[|rsus| - 1].1 {
        if exists i :: 0 <= i < |init| && v in init[i].1 {
          var i :| 0 <= i < |init| && v in init[i].1;
          assert rsus[i] == init[i];
        }
        if exists i :: 0 <= i < |rsus| && v in rsus[i].1 {
          var i :| 0 <= i < |rsus| && v in rsus[i].1;
          assert init[i] == rsus[i];
        }
        if v in Inverted(rsus) {
          var i :| 0 <= i < |init| && v in init[i].1 && Inverted(init)[v] == init[i].0
            && forall j :: i < j < |init| ==> v !in init[j].1;
          assert rsus[i] == init[i];
          forall j | i < j < |rsus| ensures v !in rsus[j].1 {
            if j < |init| {
              assert rsus[j] == init[j];
            }
          }
        }
      }
    }
  }

  lemma AssignAllSnoc(vehs: seq<string>, v: string, k: string)
    ensures AssignAll(vehs + [v], k) == AssignAll(vehs, k)[v := k]
  {
  }

  /** The inner loop of `invert_membership`: every vehicle of one RSU now maps to it. */
  method AssignVehicles(init: map<string, string>, vehs: seq<string>, k: string) returns (out: map<string, string>)
    ensures out == init + AssignAll(vehs, k)
  {
    out := init;
    for j := 0 to |vehs|
      invariant out == init + AssignAll(vehs[..j], k)
    {
      AssignAllSnoc(vehs[..j], vehs[j], k);
      assert vehs[..j + 1] == vehs[..j] + [vehs[j]];
      out := out[vehs[j] := k];
    }
    assert vehs[..|vehs|] == vehs;
  }

  /** `invert_membership`: RSU by RSU, in the order of the record. */
  method Invert(rsus: seq<(string, seq<string>)>) returns (out: map<string, string>)
    ensures out == Inverted(rsus)
  {
    out := map[];
    for i := 0 to |rsus|
      invariant out == Inverted(rsus[..i])
    {
      out := AssignVehicles(out, rsus[i].1, rsus[i].0);
      assert rsus[..i + 1][..i] == rsus[..i];
    }
    assert rsus[..|rsus|] == rsus;
  }

  // ----- handovers between two consecutive records -----

  /** `prev_assign.get(v)`. */
  function Before(prev: map<string, Option<string>>, v: string): Option<string>
  {
    if v in prev then prev[v] else None
  }

  /** `curr_assign.get(v)`. */
  function Now(curr: map<string, string>, v: string): Option<string>
  {
    if v in curr then Some(curr[v]) else None
  }

  /** `all_vehs`: the vehicles of either assignment. */
  function Vehicles(prev: map<string, Option<string>>, curr: map<string, string>): set<string>
  {
    curr.Keys + prev.Keys
  }

  /** Vehicle `v` moved from one RSU to another. */
  predicate Moved(prev: map<string, Option<string>>, curr: map<string, string>, v: string)
  {
    IsHandover(Before(prev, v), Now(curr, v))
  }

  /** The vehicles that moved: what the two totals count. */
  function Movers(prev: map<string, Option<string>>, curr: map<string, string>): set<string>
  {
    set v | v in Vehicles(prev, curr) && Moved(prev, curr, v)
  }

  /** The movers that arrived at RSU `k`: what `hand_in[k]` counts. */
  function MovedInto(prev: map<string, Option<string>>, curr: map<string, string>, k: string): set<string>
  {
    set v | v in Vehicles(prev, curr) && Moved(prev, curr, v) && Now(curr, v) == Some(k)
  }

  /** The movers that left RSU `k`: what `hand_out[k]` counts. */
  function MovedOutOf(prev: map<string, Option<string>>, curr: map<string, string>, k: string): set<string>
  {
    set v | v in Vehicles(prev, curr) && Moved(prev, curr, v) && Before(prev, v) == Some(k)
  }

  // ----- counting over an enumeration of a set -----

  ghost predicate Distinct(vs: seq<string>)
  {
    forall i, j :: 0 <= i < j < |vs| ==> vs[i] != vs[j]
  }

  function Elems(vs: seq<string>): set<string>
  {
    set v | v in vs
  }

  /** How many of `vs` satisfy `p`. */
  function CountWhere(vs: seq<string>, p: string -> bool): nat
  {
    if vs == [] then 0
    else CountWhere(vs[..|vs| - 1], p) + (if p(vs[|vs| - 1]) then 1 else 0)
  }

  lemma ExtendEnumeration(vs: seq<string>, v: string)
    requires Distinct(vs) && v !in Elems(vs)
    ensures Distinct(vs + [v]) && Elems(vs + [v]) == Elems(vs) + {v}
    ensures (vs + [v])[..|vs|] == vs
  {
    assert (vs + [v])[..|vs|] == vs;
    assert forall i :: 0 <= i < |vs| ==> vs[i] in Elems(vs);
  }

  /** Over distinct elements, counting along the sequence counts the set. */
  lemma {:induction false} CountWhereIsCard(vs: seq<string>, p: string -> bool)
    requires Distinct(vs)
    ensures CountWhere(vs, p) == |set v | v in Elems(vs) && p(v)|
    decreases |vs|
  {
    if vs != [] {
      var init, last := vs[..|vs| - 1], vs[|vs| - 1];
      assert vs == init + [last];
      assert last !in Elems(init);
      CountWhereIsCard(init, p);
      var before := set v | v in Elems(init) && p(v);
      var after := set v | v in Elems(vs) && p(v);
      if p(last) {
        assert after == before + {last};
      } else {
        assert after == before;
      }
    }
  }

  // ----- hand_in / hand_out -----

  /** The moves of the vehicles of `visited`, in that order: into their new RSU. */
  function MovesIn(prev: map<string, Option<string>>, curr: map<string, string>, visited: seq<string>): multiset<string>
  {
    if visited == [] then multiset{}
    else
      var v := visited[|visited| - 1];
      MovesIn(prev, curr, visited[..|visited| - 1])
        + (if Moved(prev, curr, v) then multiset{Now(curr, v).value} else multiset{})
  }

  /** The moves of the vehicles of `visited`, in that order: out of their old RSU. */
  function MovesOut(prev: map<string, Option<string>>, curr: map<string, string>, visited: seq<string>): multiset<string>
  {
    if visited == [] then multiset{}
    else
      var v := visited[|visited| - 1];
      MovesOut(prev, curr, visited[..|visited| - 1])
        + (if Moved(prev, curr, v) then multiset{Before(prev, v).value} else multiset{})
  }

  /** Every move counts once into `hand_in` and once into `hand_out`: the two totals agree. */
  lemma {:induction false} MovesBalance(prev: map<string, Option<string>>, curr: map<string, string>, vs: seq<string>)
    ensures |MovesIn(prev, curr, vs)| == |MovesOut(prev, curr, vs)| == CountWhere(vs, v => Moved(prev, curr, v))
  {
    if vs != [] {
      MovesBalance(prev, curr, vs[..|vs| - 1]);
    }
  }

  lemma {:induction false} MovesInCounts(prev: map<string, Option<string>>, curr: map<string, string>, vs: seq<string>, k: string)
    ensures MovesIn(prev, curr, vs)[k] == CountWhere(vs, v => Moved(prev, curr, v) && Now(curr, v) == Some(k))
  {
    if vs != [] {
      MovesInCounts(prev, curr, vs[..|vs| - 1], k);
    }
  }

  lemma {:induction false} MovesOutCounts(prev: map<string, Option<string>>, curr: map<string, string>, vs: seq<string>, k: string)
    ensures MovesOut(prev, curr, vs)[k] == CountWhere(vs, v => Moved(prev, curr, v) && Before(prev, v) == Some(k))
  {
    if vs != [] {
      MovesOutCounts(prev, curr, vs[..|vs| - 1], k);
    }
  }

  /** Whatever the order of `all_vehs`, `hand_in[k]` ends as the number of movers into `k`. */
  lemma MovesInCounted(prev: map<string, Option<string>>, curr: map<string, string>, vs: seq<string>, k: string)
    requires Distinct(vs) && Elems(vs) == Vehicles(prev, curr)
    ensures MovesIn(prev, curr, vs)[k] == |MovedInto(prev, curr, k)|
  {
    var p := v => Moved(prev, curr, v) && Now(curr, v) == Some(k);
    MovesInCounts(prev, curr, vs, k);
    CountWhereIsCard(vs, p);
    assert (set v | v in Elems(vs) && p(v)) == MovedInto(prev, curr, k);
  }

  /** Whatever the order of `all_vehs`, `hand_out[k]` ends as the number of movers out of `k`. */
  lemma MovesOutCounted(prev: map<string, Option<string>>, curr: map<string, string>, vs: seq<string>, k: string)
    requires Distinct(vs) && Elems(vs) == Vehicles(prev, curr)
    ensures MovesOut(prev, curr, vs)[k] == |MovedOutOf(prev, curr, k)|
  {
    var p := v => Moved(prev, curr, v) && Before(prev, v) == Some(k);
    MovesOutCounts(prev, curr, vs, k);
    CountWhereIsCard(vs, p);
    assert (set v | v in Elems(vs) && p(v)) == MovedOutOf(prev, curr, k);
  }

  /** Whatever the order of `all_vehs`, both totals end as the number of movers. */
  lemma MovesTotalCounted(prev: map<string, Option<string>>, curr: map<string, string>, vs: seq<string>)
    requires Distinct(vs) && Elems(vs) == Vehicles(prev, curr)
    ensures |MovesIn(prev, curr, vs)| == |MovesOut(prev, curr, vs)| == |Movers(prev, curr)|
  {
    var p := v => Moved(prev, curr, v);
    MovesBalance(prev, curr, vs);
    CountWhereIsCard(vs, p);
    assert (set v | v in Elems(vs) && p(v)) == Movers(prev, curr);
  }

  /** Visiting one more vehicle adds its move, if any, to both counters. */
  lemma MovesSnoc(prev: map<string, Option<string>>, curr: map<string, string>, vs: seq<string>, v: string)
    ensures MovesIn(prev, curr, vs + [v])
      == MovesIn(prev, curr, vs) + (if Moved(prev, curr, v) then multiset{Now(curr, v).value} else multiset{})
    ensures MovesOut(prev, curr, vs + [v])
      == MovesOut(prev, curr, vs) + (if Moved(prev, curr, v) then multiset{Before(prev, v).value} else multiset{})
  {
    assert (vs + [v])[..|vs|] == vs;
  }

  /** Moving one element from the pending set to the visited set keeps them a partition of the same whole. */
  lemma MoveOne(rest: set<string>, done: set<string>, v: string)
    requires v in rest && rest !! done
    ensures (rest - {v}) !! (done + {v}) && (rest - {v}) + (done + {v}) == rest + done
  {
  }

  /**
   * The `for v in all_vehs` loop: every vehicle of either assignment is
   * visited once, in an order the model leaves open; a move from `prev` to
   * `curr` counts one out of `prev` and one into `curr`.  Absent counters
   * read as 0, as `hand_in.get(rsu_id, 0)` does.
   */
  method CountHandovers(prev: map<string, Option<string>>, curr: map<string, string>)
    returns (handIn: multiset<string>, handOut: multiset<string>)
    ensures forall k :: handIn[k] == |MovedInto(prev, curr, k)|
    ensures forall k :: handOut[k] == |MovedOutOf(prev, curr, k)|
    ensures |handIn| == |handOut| == |Movers(prev, curr)|
  {
    handIn, handOut := multiset{}, multiset{};
    var rest := Vehicles(prev, curr);
    ghost var visited: seq<string> := [];
    while rest != {}
      invariant Distinct(visited) && rest !! Elems(visited) && rest + Elems(visited) == Vehicles(prev, curr)
      invariant handIn == MovesIn(prev, curr, visited) && handOut == MovesOut(prev, curr, visited)
      decreases |rest|
    {
      var v :| v in rest;
      var before, now := Before(prev, v), Now(curr, v);
      if IsHandover(before, now) {
        handOut := handOut + multiset{before.value};
        handIn := handIn + multiset{now.value};
      }
      MovesSnoc(prev, curr, visited, v);
      ExtendEnumeration(visited, v);
      MoveOne(rest, Elems(visited), v);
      visited := visited + [v];
      rest := rest - {v};
    }
    forall k ensures handIn[k] == |MovedInto(prev, curr, k)| && handOut[k] == |MovedOutOf(prev, curr, k)| {
      MovesInCounted(prev, curr, visited, k);
      MovesOutCounted(prev, curr, visited, k);
    }
    MovesTotalCounted(prev, curr, visited);
  }

  // ----- the assignment carried to the next record -----

  /**
   * `prev_assign = {v: curr_assign.get(v) for v in all_vehs}`: every vehicle
   * seen so far, with its current RSU or `None` when absent from this record.
   */
  function NextAssign(prev: map<string, Option<string>>, curr: map<string, string>): (next: map<string, Option<string>>)
  {
    map v | v in Vehicles(prev, curr) :: Now(curr, v)
  }

  /**
   * The carried assignment keeps every vehicle ever seen: the current
   * vehicles with their RSU, the others with `None`.
   */
  lemma NextAssignSpec(prev: map<string, Option<string>>, curr: map<string, string>, v: string)
    ensures v in NextAssign(prev, curr) <==> v in curr || v in prev
    ensures v in curr ==> NextAssign(prev, curr)[v] == Some(curr[v])
    ensures v !in curr && v in prev ==> NextAssign(prev, curr)[v] == None
  {
  }

  /**
   * A vehicle absent from a record has no RSU to leave at the next one: its
   * return, to any RSU, is not a handover.
   */
  lemma ReturnAfterAbsence(prev: map<string, Option<string>>, absent: map<string, string>, curr: map<string, string>, v: string)
    requires v !in absent
    ensures v !in Movers(NextAssign(prev, absent), curr)
    ensures forall k :: v !in MovedInto(NextAssign(prev, absent), curr, k)
  {
  }

  /** Before the first record `prev_assign` is empty: nobody moves, so every counter is 0. */
  lemma FirstRecordNoHandovers(curr: map<string, string>, k: string)
    ensures Movers(map[], curr) == {}
    ensures |MovedInto(map[], curr, k)| == 0 && |MovedOutOf(map[], curr, k)| == 0
  {
    assert forall v :: !Moved(map[], curr, v);
    assert MovedInto(map[], curr, k) == {};
    assert MovedOutOf(map[], curr, k) == {};
  }

  // ----- output rows -----

  /** A CSV cell taken from the statistics: the value, or `""` when the key is missing. */
  datatype Cell = Empty | Value(j: Json)

  /** A row of `round_summary.csv`. */
  datatype SummaryRow = SummaryRow(round: int, tStart: real, tEnd: real, seen: Cell, connected: Cell, uncovered: Cell)

  /** A row of `rsu_round_stats.csv`. */
  datatype RsuStatsRow = RsuStatsRow(
    round: int, tStart: real, tEnd: real, rsu: string,
    uniqueVehicles: nat, connectedTime: Cell, handoverIn: nat, handoverOut: nat)

  /** Raised by `rsu_time.get(...)` when `rsu_total_connected_time_s` is not an object. */
  datatype AnalysisError = TimesNotAnObject(round: int)

  /**
   * `stats.get(key, "")`.  On a decoded dictionary, whose keys are distinct,
   * the value read is the one value the key carries.
   */
  function Field(stats: seq<(string, Json)>, key: string): (c: Cell)
    ensures c.Empty? <==> forall i :: 0 <= i < |stats| ==> stats[i].0 != key
    ensures c.Value? ==> exists i :: 0 <= i < |stats| && stats[i] == (key, c.j)
    ensures DistinctKeys(stats) ==> forall i :: 0 <= i < |stats| && stats[i].0 == key ==> c == Value(stats[i].1)
  {
    match Lookup(stats, key)
    case None => Empty
    case Some(j) => Value(j)
  }

  /** `stats_by_round.get(r, {})`. */
  function StatsOf(byRound: map<int, seq<(string, Json)>>, r: int): seq<(string, Json)>
  {
    if r in byRound then byRound[r] else []
  }

  /** `stats.get("rsu_total_connected_time_s", {})`, and whether `.get` can be called on it. */
  function TimeTable(stats: seq<(string, Json)>, r: int): Result<seq<(string, Json)>, AnalysisError>
  {
    match Lookup(stats, "rsu_total_connected_time_s")
    case None => Success([])
    case Some(t) => if t.JObject? then Success(t.fields) else Failure(TimesNotAnObject(r))
  }

  function Summary(rec: MembershipRecord, stats: seq<(string, Json)>): SummaryRow
  {
    SummaryRow(rec.round, rec.tStart, rec.tEnd,
      Field(stats, "vehicles_seen_count"), Field(stats, "vehicles_connected_count"), Field(stats, "uncovered_vehicle_time_s"))
  }

  /** The row of the `i`-th RSU of a record, with the handovers from `prev` to `curr`. */
  function RsuRowAt(rec: MembershipRecord, times: seq<(string, Json)>, prev: map<string, Option<string>>, curr: map<string, string>, i: nat): RsuStatsRow
    requires i < |rec.rsus|
  {
    var k := rec.rsus[i].0;
    RsuStatsRow(rec.round, rec.tStart, rec.tEnd, k, |rec.rsus[i].1|, Field(times, k),
      |MovedInto(prev, curr, k)|, |MovedOutOf(prev, curr, k)|)
  }

  /** One row per RSU key of the record, in the record's order. */
  function RsuRows(rec: MembershipRecord, times: seq<(string, Json)>, prev: map<string, Option<string>>, curr: map<string, string>): seq<RsuStatsRow>
  {
    seq(|rec.rsus|, i requires 0 <= i < |rec.rsus| => RsuRowAt(rec, times, prev, curr, i))
  }

  // ----- main -----

  /**
   * What `main` has produced so far: the carried assignment, the rows of
   * both files, and the exception that stopped it, if any.
   */
  datatype Progress = Progress(
    prev: map<string, Option<string>>, summaries: seq<SummaryRow>, rows: seq<RsuStatsRow>,
    failed: Option<AnalysisError>)

  const Start := Progress(map[], [], [], None)

  /** One membership record: its summary row, then its RSU rows, then the new assignment. */
  function Consumed(o: Progress, byRound: map<int, seq<(string, Json)>>, rec: MembershipRecord): Progress
  {
    var stats := StatsOf(byRound, rec.round);
    var summaries := o.summaries + [Summary(rec, stats)];
    var curr := Inverted(rec.rsus);
    var table := TimeTable(stats, rec.round);
    if rec.rsus != [] && table.Failure? then Progress(o.prev, summaries, o.rows, Some(table.error))
    else
      var times := if table.Success? then table.value else [];
      Progress(NextAssign(o.prev, curr), summaries, o.rows + RsuRows(rec, times, o.prev, curr), None)
  }

  /** `main` over the decoded membership records, stopping at the first exception. */
  function Analysed(byRound: map<int, seq<(string, Json)>>, recs: seq<MembershipRecord>): Progress
  {
    if recs == [] then Start
    else
      var o := Analysed(byRound, recs[..|recs| - 1]);
      if o.failed.Some? then o else Consumed(o, byRound, recs[|recs| - 1])
  }

  /** The number of RSU rows of the records: one per RSU key. */
  function TotalRsus(recs: seq<MembershipRecord>): nat
  {
    if recs == [] then 0 else TotalRsus(recs[..|recs| - 1]) + |recs[|recs| - 1].rsus|
  }

  /** A record adds its summary row after the earlier ones, and its RSU rows unless it raised. */
  lemma ConsumedShape(o: Progress, byRound: map<int, seq<(string, Json)>>, rec: MembershipRecord)
    ensures var o' := Consumed(o, byRound, rec);
      && o'.summaries == o.summaries + [Summary(rec, StatsOf(byRound, rec.round))]
      && (o'.failed.None? ==> |o'.rows| == |o.rows| + |rec.rsus|)
      && (o'.failed.Some? ==> o'.rows == o.rows && rec.rsus != [])
  {
  }

  /** One summary row per record; an exception leaves the summary row of the record that raised it. */
  lemma {:induction false} AnalysedSummaryCount(byRound: map<int, seq<(string, Json)>>, recs: seq<MembershipRecord>)
    ensures var o := Analysed(byRound, recs);
      && |o.summaries| <= |recs|
      && (o.failed.None? ==> |o.summaries| == |recs|)
      && (o.failed.Some? ==> |o.summaries| >= 1)
  {
    if recs != [] {
      var init := recs[..|recs| - 1];
      AnalysedSummaryCount(byRound, init);
      var o := Analysed(byRound, init);
      if o.failed.None? {
        ConsumedShape(o, byRound, recs[|recs| - 1]);
      }
    }
  }

  /** The summary rows follow the records in order, each from the statistics of its round. */
  lemma {:induction false} AnalysedSummaries(byRound: map<int, seq<(string, Json)>>, recs: seq<MembershipRecord>, i: nat)
    requires i < |Analysed(byRound, recs).summaries|
    ensures i < |recs| && Analysed(byRound, recs).summaries[i] == Summary(recs[i], StatsOf(byRound, recs[i].round))
    decreases |recs|
  {
    AnalysedSummaryCount(byRound, recs);
    var init := recs[..|recs| - 1];
    var o := Analysed(byRound, init);
    AnalysedSummaryCount(byRound, init);
    if o.failed.None? {
      ConsumedShape(o, byRound, recs[|recs| - 1]);
    }
    if i < |o.summaries| {
      AnalysedSummaries(byRound, init, i);
      assert init[i] == recs[i];
    }
  }

  /** Without an exception there is one RSU row per RSU key of every record. */
  lemma {:induction false} AnalysedRowCount(byRound: map<int, seq<(string, Json)>>, recs: seq<MembershipRecord>)
    ensures var o := Analysed(byRound, recs);
      o.failed.None? ==> |o.rows| == TotalRsus(recs)
  {
    if recs != [] {
      var init := recs[..|recs| - 1];
      AnalysedRowCount(byRound, init);
      var o := Analysed(byRound, init);
      if o.failed.None? {
        ConsumedShape(o, byRound, recs[|recs| - 1]);
      }
    }
  }

  /** No statistics for a round: the summary cells and the connected-time cells are all `""`. */
  lemma MissingStatsBlank(byRound: map<int, seq<(string, Json)>>, o: Progress, rec: MembershipRecord)
    requires o.failed.None? && rec.round !in byRound
    ensures var o' := Consumed(o, byRound, rec);
      && o'.failed.None?
      && o'.summaries[|o'.summaries| - 1] == SummaryRow(rec.round, rec.tStart, rec.tEnd, Empty, Empty, Empty)
      && forall i :: |o.rows| <= i < |o'.rows| ==> o'.rows[i].connectedTime == Empty
  {
  }

  /** The RSU rows of the first record show no handovers. */
  lemma FirstRecordRows(byRound: map<int, seq<(string, Json)>>, rec: MembershipRecord)
    ensures forall r :: r in Analysed(byRound, [rec]).rows ==> r.handoverIn == 0 && r.handoverOut == 0
  {
    assert [rec][..0] == [];
    forall k {
      FirstRecordNoHandovers(Inverted(rec.rsus), k);
    }
  }

  /** The per-RSU loop of `main`, with the counters of `CountHandovers`. */
  method WriteRsuRows(rec: MembershipRecord, times: seq<(string, Json)>, prev: map<string, Option<string>>,
                      curr: map<string, string>, handIn: multiset<string>, handOut: multiset<string>)
    returns (rows: seq<RsuStatsRow>)
    requires forall k :: handIn[k] == |MovedInto(prev, curr, k)|
    requires forall k :: handOut[k] == |MovedOutOf(prev, curr, k)|
    ensures rows == RsuRows(rec, times, prev, curr)
  {
    rows := [];
    for i := 0 to |rec.rsus|
      invariant |rows| == i
      invariant forall n :: 0 <= n < i ==> rows[n] == RsuRowAt(rec, times, prev, curr, n)
    {
      var (k, vehs) := rec.rsus[i];
      rows := rows + [RsuStatsRow(rec.round, rec.tStart, rec.tEnd, k, |vehs|, Field(times, k), handIn[k], handOut[k])];
    }
  }

  /** The body of the loop over membership lines, for one decoded record. */
  method ProcessRecord(o: Progress, byRound: map<int, seq<(string, Json)>>, rec: MembershipRecord) returns (o': Progress)
    requires o.failed.None?
    ensures o' == Consumed(o, byRound, rec)
  {
    var stats := StatsOf(byRound, rec.round);
    var summaries := o.summaries + [Summary(rec, stats)];
    var curr := Invert(rec.rsus);
    var handIn, handOut := CountHandovers(o.prev, curr);
    var table := TimeTable(stats, rec.round);
    if rec.rsus != [] && table.Failure? {
      return Progress(o.prev, summaries, o.rows, Some(table.error));
    }
    var times := if table.Success? then table.value else [];
    var rows := WriteRsuRows(rec, times, o.prev, curr, handIn, handOut);
    var next := NextAssign(o.prev, curr);
    o' := Progress(next, summaries, o.rows + rows, None);
  }

  /** Reading one more record: nothing changes after an exception, otherwise the record is consumed. */
  lemma AnalysedSnoc(byRound: map<int, seq<(string, Json)>>, recs: seq<MembershipRecord>, rec: MembershipRecord)
    ensures Analysed(byRound, recs + [rec]) ==
      var o := Analysed(byRound, recs);
      if o.failed.Some? then o else Consumed(o, byRound, rec)
  {
    assert (recs + [rec])[..|recs|] == recs;
  }

  /**
   * `main`: index the statistics, then read the membership log line by line,
   * skipping blank lines, until the end or the first exception.  Both logs
   * are decoded by `json.loads` into dictionaries, so every statistics object
   * (and the time table inside it) and every record's `rsus` have distinct keys.
   */
  method Analyse(statsLines: seq<Line<StatsRecord>>, membershipLines: seq<Line<MembershipRecord>>) returns (o: Progress)
    requires forall n :: 0 <= n < |statsLines| && statsLines[n].Record? ==> Decoded(JObject(statsLines[n].rec.fields))
    requires forall n :: 0 <= n < |membershipLines| && membershipLines[n].Record? ==> DistinctKeys(membershipLines[n].rec.rsus)
    ensures o == Analysed(StatsByRound(statsLines), NonBlank(membershipLines))
  {
    var byRound := LoadStatsByRound(statsLines);
    o := Start;
    var n := 0;
    while n < |membershipLines| && o.failed.None?
      invariant 0 <= n <= |membershipLines|
      invariant o == Analysed(byRound, NonBlank(membershipLines[..n]))
    {
      var line := membershipLines[n];
      NonBlankStep(membershipLines, n);
      if line.Record? {
        AnalysedSnoc(byRound, NonBlank(membershipLines[..n]), line.rec);
        o := ProcessRecord(o, byRound, line.rec);
      } else {
        assert NonBlank(membershipLines[..n]) + [] == NonBlank(membershipLines[..n]);
      }
      n := n + 1;
    }
    NonBlankAppend(membershipLines[..n], membershipLines[n..]);
    assert membershipLines[..n] + membershipLines[n..] == membershipLines;
    if o.failed.Some? {
      AnalysedStops(byRound, NonBlank(membershipLines[..n]), NonBlank(membershipLines[n..]));
    } else {
      assert membershipLines[..n] == membershipLines;
    }
  }

  /** Once an exception is raised, later records change nothing. */
  lemma {:induction false} AnalysedStops(byRound: map<int, seq<(string, Json)>>, recs: seq<MembershipRecord>, more: seq<MembershipRecord>)
    requires Analysed(byRound, recs).failed.Some?
    ensures Analysed(byRound, recs + more) == Analysed(byRound, recs)
    decreases |more|
  {
    if more == [] {
      assert recs + more == recs;
    } else {
      AnalysedStops(byRound, recs, more[..|more| - 1]);
      assert (recs + more)[..|recs + more| - 1] == recs + more[..|more| - 1];
    }
  }
}
