/**
 * The dataset partitioner of vehicle_bundle_prep.py: every vehicle of the
 * membership log gets its own bundle of sample indices (consecutive slices
 * of one shuffle of `range(dataset_size)`, so no index is shared), and every
 * RSU of every round gets the union of its vehicles' bundles, for the round
 * alone and accumulated over the rounds so far.
 */
module BundlePrep {
  import opened Wrappers
  import opened Ordering
  import opened Registry
  import opened Logs
  import opened Arith

  // ----- load_rounds -----

  /** `load_rounds` after decoding: the records of the non-blank lines, in file order. */
  method LoadRounds(lines: seq<Line<MembershipRecord>>) returns (rounds: seq<MembershipRecord>)
    ensures rounds == NonBlank(lines)
  {
    rounds := [];
    for n := 0 to |lines|
      invariant rounds == NonBlank(lines[..n])
    {
      NonBlankStep(lines, n);
      if lines[n].Record? {
        rounds := rounds + [lines[n].rec];
      }
    }
    assert lines[..|lines|] == lines;
  }

  // ----- collect_all_vehicles -----

  /** Vehicle `v` is listed under some RSU of `rec`. */
  ghost predicate InRound(rec: MembershipRecord, v: string)
  {
    exists j :: 0 <= j < |rec.rsus| && v in rec.rsus[j].1
  }

  /** Vehicle `v` is listed under some RSU of some round. */
  ghost predicate Listed(rounds: seq<MembershipRecord>, v: string)
  {
    exists i :: 0 <= i < |rounds| && InRound(rounds[i], v)
  }

  /** The inner loop of `collect_all_vehicles`: `vehs.update(veh_list)` for every RSU of one round. */
  method AddRound(vehs: set<string>, rec: MembershipRecord) returns (vehs': set<string>)
    ensures forall v :: v in vehs' <==> v in vehs || InRound(rec, v)
  {
    vehs' := vehs;
    for j := 0 to |rec.rsus|
      invariant forall v :: v in vehs' <==> v in vehs || exists j' :: 0 <= j' < j && v in rec.rsus[j'].1
    {
      vehs' := vehs' + (set v | v in rec.rsus[j].1);
    }
  }

  /** `collect_all_vehicles`: every vehicle of every round, once each, in increasing order. */
  method CollectAllVehicles(rounds: seq<MembershipRecord>) returns (ids: seq<string>)
    ensures SortedBy(ids, StrLt)
    ensures forall v :: v in ids <==> Listed(rounds, v)
  {
    var vehs: set<string> := {};
    for i := 0 to |rounds|
      invariant forall v :: v in vehs <==> Listed(rounds[..i], v)
    {
      vehs := AddRound(vehs, rounds[i]);
      forall v ensures Listed(rounds[..i + 1], v) <==> Listed(rounds[..i], v) || InRound(rounds[i], v) {
        if Listed(rounds[..i + 1], v) {
          var i' :| 0 <= i' < i + 1 && InRound(rounds[..i + 1][i'], v);
          if i' < i {
            assert rounds[..i][i'] == rounds[i'];
          }
        }
        if Listed(rounds[..i], v) {
          var i' :| 0 <= i' < i && InRound(rounds[..i][i'], v);
          assert rounds[..i + 1][i'] == rounds[i'];
        }
        if InRound(rounds[i], v) {
          assert rounds[..i + 1][i] == rounds[i];
        }
      }
    }
    assert rounds[..|rounds|] == rounds;
    StrLtIsStrictTotalOrder();
    ids := SortSet(vehs, StrLt);
  }

  // ----- assign_disjoint_bundles -----

  /** The `ValueError` of `assign_disjoint_bundles`: `needed` indices asked for, `have` available. */
  datatype BundleError = NotEnoughIndices(needed: int, have: int)

  /** `indices` after `rng.shuffle`: a permutation of `range(size)`; the generator itself is not modelled. */
  ghost predicate IsShuffle(indices: seq<int>, size: nat)
  {
    && |indices| == size
    && (forall i :: 0 <= i < |indices| ==> 0 <= indices[i] < size)
    && (forall i, j :: 0 <= i < j < |indices| ==> indices[i] != indices[j])
  }

  /** `indices[cursor: cursor + bundle_size]` with the cursor at vehicle `p`. */
  function Slice(indices: seq<int>, b: nat, p: nat): (s: seq<int>)
    requires p * b + b <= |indices|
    ensures |s| == b
    ensures forall a :: 0 <= a < b ==> s[a] == indices[p * b + a]
  {
    indices[p * b .. p * b + b]
  }

  /**
   * The bundles after the first `n` vehicles: vehicle `p` takes the slice
   * `[p * b, p * b + b)` of the shuffle, a repeated id keeping its last slice.
   */
  function BundlesOf(vehIds: seq<string>, indices: seq<int>, b: nat, n: nat): map<string, seq<int>>
    requires n <= |vehIds| && |vehIds| * b <= |indices|
  {
    if n == 0 then map[]
    else
      MulMonotone(n, |vehIds|, b);
      BundlesOf(vehIds, indices, b, n - 1)[vehIds[n - 1] := Slice(indices, b, n - 1)]
  }

  /** Every vehicle among the first `n` has a bundle, and nothing else has. */
  lemma {:induction false} BundleKeys(vehIds: seq<string>, indices: seq<int>, b: nat, n: nat, v: string)
    requires n <= |vehIds| && |vehIds| * b <= |indices|
    ensures v in BundlesOf(vehIds, indices, b, n) <==> v in vehIds[..n]
  {
    if n > 0 {
      BundleKeys(vehIds, indices, b, n - 1, v);
      assert vehIds[..n] == vehIds[..n - 1] + [vehIds[n - 1]];
    }
  }

  /** `p` is the last position of `v` among the first `n` vehicles. */
  ghost predicate LastAt(vehIds: seq<string>, n: nat, p: nat, v: string)
  {
    p < n <= |vehIds| && vehIds[p] == v && forall q :: p < q < n ==> vehIds[q] != v
  }

  /** A vehicle's bundle is the slice at its last position: a repeated id keeps its last slice. */
  lemma {:induction false} BundleSlice(vehIds: seq<string>, indices: seq<int>, b: nat, n: nat, v: string)
    requires n <= |vehIds| && |vehIds| * b <= |indices|
    requires v in BundlesOf(vehIds, indices, b, n)
    ensures exists p: nat :: LastAt(vehIds, n, p, v) && p * b + b <= |indices| && BundlesOf(vehIds, indices, b, n)[v] == Slice(indices, b, p)
  {
    MulMonotone(n, |vehIds|, b);
    var bundles := BundlesOf(vehIds, indices, b, n);
    if v == vehIds[n - 1] {
      var p := n - 1;
      assert LastAt(vehIds, n, p, v) && bundles[v] == Slice(indices, b, p);
    } else {
      BundleSlice(vehIds, indices, b, n - 1, v);
      var p: nat :| LastAt(vehIds, n - 1, p, v) && p * b + b <= |indices| && BundlesOf(vehIds, indices, b, n - 1)[v] == Slice(indices, b, p);
      assert LastAt(vehIds, n, p, v) && bundles[v] == Slice(indices, b, p);
    }
  }

  /** Slices at different positions of a shuffle share no index. */
  lemma SlicesDisjoint(indices: seq<int>, b: nat, p: nat, q: nat)
    requires p < q && q * b + b <= |indices|
    requires forall i, j :: 0 <= i < j < |indices| ==> indices[i] != indices[j]
    ensures forall x :: x in Slice(indices, b, p) ==> x !in Slice(indices, b, q)
  {
    MulMonotone(p + 1, q, b);
    forall x | x in Slice(indices, b, p) ensures x !in Slice(indices, b, q) {
      var a :| 0 <= a < b && Slice(indices, b, p)[a] == x;
    }
  }

  /**
   * What the docstring promises: the keys are exactly `veh_ids`, each bundle
   * has `bundle_size` indices of the dataset, and two vehicles never share
   * an index.
   */
  lemma AssignedBundles(vehIds: seq<string>, indices: seq<int>, size: nat, b: nat, v: string, w: string)
    requires IsShuffle(indices, size) && |vehIds| * b <= size
    ensures var bundles := BundlesOf(vehIds, indices, b, |vehIds|);
      && (v in bundles <==> v in vehIds)
      && (v in bundles ==> |bundles[v]| == b && forall x :: x in bundles[v] ==> 0 <= x < size)
      && (v in bundles && w in bundles && v != w ==> forall x :: x in bundles[v] ==> x !in bundles[w])
  {
    var n := |vehIds|;
    assert vehIds[..n] == vehIds;
    BundleKeys(vehIds, indices, b, n, v);
    BundleKeys(vehIds, indices, b, n, w);
    var bundles := BundlesOf(vehIds, indices, b, n);
    if v in bundles {
      BundleSlice(vehIds, indices, b, n, v);
    }
    if v in bundles && w in bundles && v != w {
      BundleSlice(vehIds, indices, b, n, w);
      var p: nat :| LastAt(vehIds, n, p, v) && p * b + b <= |indices| && bundles[v] == Slice(indices, b, p);
      var q: nat :| LastAt(vehIds, n, q, w) && q * b + b <= |indices| && bundles[w] == Slice(indices, b, q);
      if p < q {
        SlicesDisjoint(indices, b, p, q);
      } else {
        SlicesDisjoint(indices, b, q, p);
      }
    }
  }

  /**
   * `assign_disjoint_bundles` with the shuffled `indices` given: the error
   * exactly when `len(veh_ids) * bundle_size > dataset_size`, otherwise
   * consecutive slices taken with an advancing cursor.
   */
  method AssignDisjointBundles(vehIds: seq<string>, size: nat, b: nat, indices: seq<int>)
    returns (r: Result<map<string, seq<int>>, BundleError>)
    requires IsShuffle(indices, size)
    ensures r.Failure? <==> |vehIds| * b > size
    ensures r.Failure? ==> r.error == NotEnoughIndices(|vehIds| * b, size)
    ensures r.Success? ==> r.value == BundlesOf(vehIds, indices, b, |vehIds|)
  {
    var needed := |vehIds| * b;
    if needed > size {
      return Failure(NotEnoughIndices(needed, size));
    }
    var bundles: map<string, seq<int>> := map[];
    var cursor := 0;
    for n := 0 to |vehIds|
      invariant cursor == n * b
      invariant bundles == BundlesOf(vehIds, indices, b, n)
    {
      MulMonotone(n + 1, |vehIds|, b);
      assert (n + 1) * b == cursor + b;
      assert indices[cursor .. cursor + b] == Slice(indices, b, n);
      bundles := bundles[vehIds[n] := indices[cursor .. cursor + b]];
      cursor := cursor + b;
    }
    return Success(bundles);
  }

  // ----- per-round and cumulative unions -----

  /** Every vehicle of the rounds has a bundle, so `vehicle_bundles[v]` never raises. */
  ghost predicate Covers(bundles: map<string, seq<int>>, rsus: seq<(string, seq<string>)>)
  {
    forall j, v :: 0 <= j < |rsus| && v in rsus[j].1 ==> v in bundles
  }

  /** Index `x` is in the bundle of one of `vehs`. */
  ghost predicate InUnion(bundles: map<string, seq<int>>, vehs: seq<string>, x: int)
  {
    exists i :: 0 <= i < |vehs| && vehs[i] in bundles && x in bundles[vehs[i]]
  }

  /** Index `x` reaches RSU `k` in this round: it is in the bundle of one of the vehicles listed under `k`. */
  ghost predicate InRoundUnion(bundles: map<string, seq<int>>, rsus: seq<(string, seq<string>)>, k: string, x: int)
  {
    exists j :: 0 <= j < |rsus| && rsus[j].0 == k && InUnion(bundles, rsus[j].1, x)
  }

  /** Index `x` reached RSU `k` in one of the first `n` rounds. */
  ghost predicate SeenBy(bundles: map<string, seq<int>>, rounds: seq<MembershipRecord>, n: nat, k: string, x: int)
    requires n <= |rounds|
  {
    exists i :: 0 <= i < n && InRoundUnion(bundles, rounds[i].rsus, k, x)
  }

  /** `cumulative.get(k, set())`. */
  function Prior(cum: map<string, set<int>>, k: string): set<int>
  {
    if k in cum then cum[k] else {}
  }

  /** The `j`-th entry of `round_out`: the RSU's id and the sorted union of its vehicles' bundles. */
  ghost predicate RoundEntry(bundles: map<string, seq<int>>, rsus: seq<(string, seq<string>)>, out: seq<(string, seq<int>)>, j: nat)
    requires j < |rsus| && j < |out|
  {
    && out[j].0 == rsus[j].0
    && SortedBy(out[j].1, IntLt)
    && forall x :: x in out[j].1 <==> InUnion(bundles, rsus[j].1, x)
  }

  /** The `j`-th entry of `cum_out`: the RSU's id and its accumulated set `cum`, sorted. */
  ghost predicate CumEntry(cum: map<string, set<int>>, rsus: seq<(string, seq<string>)>, out: seq<(string, seq<int>)>, j: nat)
    requires j < |rsus| && j < |out|
  {
    && out[j].0 == rsus[j].0
    && SortedBy(out[j].1, IntLt)
    && forall x :: x in out[j].1 <==> x in Prior(cum, rsus[j].0)
  }

  /** `u = set(); for v in veh_list: u.update(vehicle_bundles[v])`. */
  method RoundUnion(bundles: map<string, seq<int>>, vehs: seq<string>) returns (u: set<int>)
    requires forall v :: v in vehs ==> v in bundles
    ensures forall x :: x in u <==> InUnion(bundles, vehs, x)
  {
    u := {};
    for i := 0 to |vehs|
      invariant forall x :: x in u <==> exists i' :: 0 <= i' < i && x in bundles[vehs[i']]
    {
      u := u + (set x | x in bundles[vehs[i]]);
    }
  }

  lemma InRoundUnionSnoc(bundles: map<string, seq<int>>, rsus: seq<(string, seq<string>)>, j: nat, k: string, x: int)
    requires j < |rsus|
    ensures InRoundUnion(bundles, rsus[..j + 1], k, x)
      <==> InRoundUnion(bundles, rsus[..j], k, x) || (k == rsus[j].0 && InUnion(bundles, rsus[j].1, x))
  {
    if InRoundUnion(bundles, rsus[..j + 1], k, x) {
      var j' :| 0 <= j' < j + 1 && rsus[..j + 1][j'].0 == k && InUnion(bundles, rsus[..j + 1][j'].1, x);
      if j' < j {
        assert rsus[..j][j'] == rsus[j'];
      }
    }
    if InRoundUnion(bundles, rsus[..j], k, x) {
      var j' :| 0 <= j' < j && rsus[..j][j'].0 == k && InUnion(bundles, rsus[..j][j'].1, x);
      assert rsus[..j + 1][j'] == rsus[j'];
    }
    if k == rsus[j].0 && InUnion(bundles, rsus[j].1, x) {
      assert rsus[..j + 1][j] == rsus[j];
    }
  }

  /**
   * One RSU of one round: its union, then `cumulative[rsu_id].update(u)`,
   * creating the entry if needed; every other RSU's set is left alone.
   */
  method ProcessRsu(cum: map<string, set<int>>, bundles: map<string, seq<int>>, k: string, vehs: seq<string>)
    returns (cum': map<string, set<int>>, roundList: seq<int>, cumList: seq<int>)
    requires forall v :: v in vehs ==> v in bundles
    ensures SortedBy(roundList, IntLt) && forall x :: x in roundList <==> InUnion(bundles, vehs, x)
    ensures forall x :: x in Prior(cum', k) <==> x in Prior(cum, k) || InUnion(bundles, vehs, x)
    ensures forall k' :: k' != k ==> Prior(cum', k') == Prior(cum, k')
    ensures SortedBy(cumList, IntLt) && forall x :: x in cumList <==> x in Prior(cum', k)
  {
    IntLtIsStrictTotalOrder();
    var u := RoundUnion(bundles, vehs);
    roundList := SortSet(u, IntLt);
    var grown := Prior(cum, k) + u;
    cum' := cum[k := grown];
    cumList := SortSet(grown, IntLt);
  }

  /**
   * The body of the loop over rounds: for every RSU of the round, its union
   * and its accumulated set, both written out sorted.
   */
  method ProcessRound(cum: map<string, set<int>>, bundles: map<string, seq<int>>, rsus: seq<(string, seq<string>)>)
    returns (cum': map<string, set<int>>, roundOut: seq<(string, seq<int>)>, cumOut: seq<(string, seq<int>)>)
    requires DistinctKeys(rsus) && Covers(bundles, rsus)
    ensures |roundOut| == |cumOut| == |rsus|
    ensures forall j :: 0 <= j < |rsus| ==> RoundEntry(bundles, rsus, roundOut, j)
    ensures forall k, x :: x in Prior(cum', k) <==> x in Prior(cum, k) || InRoundUnion(bundles, rsus, k, x)
    ensures forall j :: 0 <= j < |rsus| ==> CumEntry(cum', rsus, cumOut, j)
  {
    cum', roundOut, cumOut := cum, [], [];
    for j := 0 to |rsus|
      invariant |roundOut| == |cumOut| == j
      invariant forall j' :: 0 <= j' < j ==> RoundEntry(bundles, rsus, roundOut, j')
      invariant forall k, x :: x in Prior(cum', k) <==> x in Prior(cum, k) || InRoundUnion(bundles, rsus[..j], k, x)
      invariant forall j' :: 0 <= j' < j ==> CumEntry(cum', rsus, cumOut, j')
    {
      var (k, vehs) := rsus[j];
      var before, roundBefore, cumBefore := cum', roundOut, cumOut;
      var roundList, cumList;
      cum', roundList, cumList := ProcessRsu(cum', bundles, k, vehs);
      roundOut := roundOut + [(k, roundList)];
      cumOut := cumOut + [(k, cumList)];
      forall k', x ensures x in Prior(cum', k') <==> x in Prior(cum, k') || InRoundUnion(bundles, rsus[..j + 1], k', x) {
        InRoundUnionSnoc(bundles, rsus, j, k', x);
      }
      forall j' | 0 <= j' < j + 1 ensures RoundEntry(bundles, rsus, roundOut, j') {
        if j' < j {
          assert roundOut[j'] == roundBefore[j'];
          assert RoundEntry(bundles, rsus, roundBefore, j');
        } else {
          assert roundOut[j] == (rsus[j].0, roundList);
        }
      }
      forall j' | 0 <= j' < j + 1 ensures CumEntry(cum', rsus, cumOut, j') {
        if j' < j {
          assert cumOut[j'] == cumBefore[j'] && rsus[j'].0 != k;
          assert CumEntry(before, rsus, cumBefore, j');
        }
      }
    }
    assert rsus[..|rsus|] == rsus;
  }

  // ----- main -----

  /** A line of `rsu_round_indices.jsonl` or of `rsu_round_indices_cumulative.jsonl`. */
  datatype IndexRecord = IndexRecord(round: int, rsus: seq<(string, seq<int>)>)

  /** What `main` writes: the bundles, and one line per round in each of the two files. */
  datatype Prepared = Prepared(bundles: map<string, seq<int>>, perRound: seq<IndexRecord>, cumulative: seq<IndexRecord>)

  /** The per-round line of round `rec`: every RSU with the sorted union of its vehicles' bundles. */
  ghost predicate PerRoundOutput(bundles: map<string, seq<int>>, rec: MembershipRecord, out: IndexRecord)
  {
    && out.round == rec.round
    && |out.rsus| == |rec.rsus|
    && forall j :: 0 <= j < |rec.rsus| ==> RoundEntry(bundles, rec.rsus, out.rsus, j)
  }

  /** The cumulative entry of the `j`-th RSU of round `i`: every index that reached it in rounds `0..i`, sorted. */
  ghost predicate CumulativeEntry(bundles: map<string, seq<int>>, rounds: seq<MembershipRecord>, i: nat, out: IndexRecord, j: nat)
    requires i < |rounds| && j < |rounds[i].rsus| && j < |out.rsus|
  {
    && out.rsus[j].0 == rounds[i].rsus[j].0
    && SortedBy(out.rsus[j].1, IntLt)
    && forall x :: x in out.rsus[j].1 <==> SeenBy(bundles, rounds, i + 1, rounds[i].rsus[j].0, x)
  }

  ghost predicate CumulativeOutput(bundles: map<string, seq<int>>, rounds: seq<MembershipRecord>, i: nat, out: IndexRecord)
    requires i < |rounds|
  {
    && out.round == rounds[i].round
    && |out.rsus| == |rounds[i].rsus|
    && forall j :: 0 <= j < |rounds[i].rsus| ==> CumulativeEntry(bundles, rounds, i, out, j)
  }

  lemma SeenBySnoc(bundles: map<string, seq<int>>, rounds: seq<MembershipRecord>, n: nat, k: string, x: int)
    requires n < |rounds|
    ensures SeenBy(bundles, rounds, n + 1, k, x) <==> SeenBy(bundles, rounds, n, k, x) || InRoundUnion(bundles, rounds[n].rsus, k, x)
  {
  }

  /** Every vehicle listed in a round is among `veh_ids`, so it has a bundle. */
  lemma EveryListedHasBundle(rounds: seq<MembershipRecord>, vehIds: seq<string>, indices: seq<int>, b: nat, i: nat)
    requires (forall v :: v in vehIds <==> Listed(rounds, v)) && |vehIds| * b <= |indices| && i < |rounds|
    ensures Covers(BundlesOf(vehIds, indices, b, |vehIds|), rounds[i].rsus)
  {
    assert vehIds[..|vehIds|] == vehIds;
    forall j, v | 0 <= j < |rounds[i].rsus| && v in rounds[i].rsus[j].1
      ensures v in BundlesOf(vehIds, indices, b, |vehIds|)
    {
      assert InRound(rounds[i], v);
      BundleKeys(vehIds, indices, b, |vehIds|, v);
    }
  }

  /** The lines written for round `n`, given the accumulated sets before and after it. */
  lemma RoundWritten(bundles: map<string, seq<int>>, rounds: seq<MembershipRecord>, n: nat,
                     cum: map<string, set<int>>, cum': map<string, set<int>>, cumOut: seq<(string, seq<int>)>)
    requires n < |rounds| && |cumOut| == |rounds[n].rsus|
    requires forall k, x :: x in Prior(cum, k) <==> SeenBy(bundles, rounds, n, k, x)
    requires forall k, x :: x in Prior(cum', k) <==> x in Prior(cum, k) || InRoundUnion(bundles, rounds[n].rsus, k, x)
    requires forall j :: 0 <= j < |rounds[n].rsus| ==> CumEntry(cum', rounds[n].rsus, cumOut, j)
    ensures forall k, x :: x in Prior(cum', k) <==> SeenBy(bundles, rounds, n + 1, k, x)
    ensures CumulativeOutput(bundles, rounds, n, IndexRecord(rounds[n].round, cumOut))
  {
    forall k, x ensures x in Prior(cum', k) <==> SeenBy(bundles, rounds, n + 1, k, x) {
      SeenBySnoc(bundles, rounds, n, k, x);
    }
    forall j | 0 <= j < |rounds[n].rsus| ensures CumulativeEntry(bundles, rounds, n, IndexRecord(rounds[n].round, cumOut), j) {
      assert CumEntry(cum', rounds[n].rsus, cumOut, j);
    }
  }

  /**
   * `main` with the shuffle of `assign_disjoint_bundles` given: load the
   * rounds, collect the vehicles, assign the bundles (or raise), then write
   * one per-round and one cumulative line per round.
   */
  method Prepare(lines: seq<Line<MembershipRecord>>, size: nat, b: nat, indices: seq<int>)
    returns (vehIds: seq<string>, r: Result<Prepared, BundleError>)
    requires IsShuffle(indices, size)
    requires forall n :: 0 <= n < |lines| && lines[n].Record? ==> DistinctKeys(lines[n].rec.rsus)
    ensures SortedBy(vehIds, StrLt) && forall v :: v in vehIds <==> Listed(NonBlank(lines), v)
    ensures r.Failure? <==> |vehIds| * b > size
    ensures r.Success? ==>
      var rounds := NonBlank(lines);
      && r.value.bundles == BundlesOf(vehIds, indices, b, |vehIds|)
      && |r.value.perRound| == |r.value.cumulative| == |rounds|
      && (forall i :: 0 <= i < |rounds| ==> PerRoundOutput(r.value.bundles, rounds[i], r.value.perRound[i]))
      && (forall i :: 0 <= i < |rounds| ==> CumulativeOutput(r.value.bundles, rounds, i, r.value.cumulative[i]))
  {
    var rounds := LoadRounds(lines);
    vehIds := CollectAllVehicles(rounds);
    var outcome := AssignDisjointBundles(vehIds, size, b, indices);
    if outcome.Failure? {
      return vehIds, Failure(outcome.error);
    }
    var bundles := outcome.value;
    var cum: map<string, set<int>> := map[];
    var perRound: seq<IndexRecord> := [];
    var cumulative: seq<IndexRecord> := [];
    for n := 0 to |rounds|
      invariant |perRound| == |cumulative| == n
      invariant forall i :: 0 <= i < n ==> PerRoundOutput(bundles, rounds[i], perRound[i])
      invariant forall i :: 0 <= i < n ==> CumulativeOutput(bundles, rounds, i, cumulative[i])
      invariant forall k, x :: x in Prior(cum, k) <==> SeenBy(bundles, rounds, n, k, x)
    {
      var rec := rounds[n];
      NonBlankMembership(lines, rec);
      assert rec in rounds;
      EveryListedHasBundle(rounds, vehIds, indices, b, n);
      var cum', roundOut, cumOut := ProcessRound(cum, bundles, rec.rsus);
      RoundWritten(bundles, rounds, n, cum, cum', cumOut);
      cum := cum';
      perRound := perRound + [IndexRecord(rec.round, roundOut)];
      cumulative := cumulative + [IndexRecord(rec.round, cumOut)];
    }
    return vehIds, Success(Prepared(bundles, perRound, cumulative));
  }

  /** The cumulative set of an RSU never shrinks from one round to a later one. */
  lemma CumulativeNeverShrinks(bundles: map<string, seq<int>>, rounds: seq<MembershipRecord>, cumulative: seq<IndexRecord>,
                               i: nat, j: nat, i2: nat, j2: nat)
    requires i <= i2 < |rounds| && |cumulative| == |rounds|
    requires CumulativeOutput(bundles, rounds, i, cumulative[i]) && CumulativeOutput(bundles, rounds, i2, cumulative[i2])
    requires j < |rounds[i].rsus| && j2 < |rounds[i2].rsus| && rounds[i].rsus[j].0 == rounds[i2].rsus[j2].0
    ensures forall x :: x in cumulative[i].rsus[j].1 ==> x in cumulative[i2].rsus[j2].1
  {
    assert CumulativeEntry(bundles, rounds, i, cumulative[i], j);
    assert CumulativeEntry(bundles, rounds, i2, cumulative[i2], j2);
  }

  /** The cumulative set of an RSU holds that round's union. */
  lemma CumulativeHoldsRound(bundles: map<string, seq<int>>, rounds: seq<MembershipRecord>, perRound: IndexRecord, cumulative: IndexRecord,
                             i: nat, j: nat)
    requires i < |rounds| && j < |rounds[i].rsus|
    requires PerRoundOutput(bundles, rounds[i], perRound) && CumulativeOutput(bundles, rounds, i, cumulative)
    ensures forall x :: x in perRound.rsus[j].1 ==> x in cumulative.rsus[j].1
  {
    assert RoundEntry(bundles, rounds[i].rsus, perRound.rsus, j);
    assert CumulativeEntry(bundles, rounds, i, cumulative, j);
  }
}
