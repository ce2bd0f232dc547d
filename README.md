# RSU connectivity logging and analysis, modelled in Dafny

This project models the bookkeeping of a SUMO-based vehicular simulation.
Roadside units (RSUs) are placed on a map. Vehicles are matched to RSUs step by step, and the resulting logs feed offline analyses:

- **Round logger** (`rsu_logger_for_rounds.py`). It validates the RSU configuration. At each step it assigns every vehicle to the nearest RSU in range, and it accumulates per-round statistics over windows of `ROUND_LENGTH = 10` seconds. These are membership, connected time, distances, handovers, seen and connected vehicles, and uncovered time. When the round changes, it flushes one membership record and the statistics rows.
  - Modules: `Registry` (configuration validation, closest pick) and `RoundLogger` (class `Logger`).
- **Membership analyser** (`analyse_membership.py`). It reloads the membership log and the per-round statistics, inverts each record's RSU-to-vehicles map, and counts handovers between consecutive records. It writes one summary row per record and one row per RSU.
  - Module: `MembershipAnalysis`.
- **Bundle preparation** (`vehicle_bundle_prep.py`). It collects every vehicle of the membership log and gives each one a disjoint slice of a shuffled dataset index list. Per round and RSU, it writes the union of the connected vehicles' slices, and a cumulative union over all rounds so far.
  - Module: `BundlePrep`.
- **RSU placement** (`select_rsu_positions` in `FCD_heatmap.py`). It walks the cells of a traffic density heatmap from the hottest down. It keeps the centres of non-empty cells that are at least `min_dist` from every centre already kept, until `k` are kept.
  - Module: `RsuPlacement`.
- **Raw connection log** (`rsu_logger.py`). At every step it writes one row for every (vehicle, RSU) pair within the RSU's radius.
  - Module: `ConnectionLogger`.

Shared modules:
- `Wrappers`: `Option` and `Result`.
- `Arith`: monotonicity of multiplication, for flat indices and bundle cursors.
- `Geometry`: points, and the distance as a parameter.
- `Ordering`: Python's string order, and sorting a set.
- `Logs`: the lines of a JSON Lines file, blank or holding a record.

Every loop of the source is a method with a `while` or `for` loop. Each such method is proved equal to a specification function. The properties the code promises are proved as lemmas about those functions. The round logger keeps its per-round accumulators, previous time, open round and emitted records in the fields of a `Logger` class. Its methods update those fields.

Three behaviours of the code worth noting:

- `flush_round` lists, under each RSU, every vehicle for which that RSU was the nearest in range at some sample of the round (`rsu_logger_for_rounds.py:208-211`). A vehicle that changes RSU mid-round is therefore listed under each RSU it used.
- Only rounds that received at least one step are flushed. A round index skipped by the simulation clock produces no record.
- `unique_vehicles` in the analyser is the length of the record's vehicle list, not a count of distinct vehicles.

## Model

| member | source | states |
|---|---|---|
| Geometry.InRangeIffSquared | rsu_logger_for_rounds.py:44-45 | with `distance` as `math.hypot`, being within `radius` is the same as a squared distance at most `radius²` |
| Geometry.CloserIffSquared | rsu_logger_for_rounds.py:44-45 | with `distance` as `math.hypot`, one RSU is strictly closer than another exactly when its squared distance is smaller |
| Geometry.EuclideanSymmetric | FCD_heatmap.py:93-94 | the hypot distance between two points does not depend on their order |
| Ordering.StrLtIsStrictTotalOrder | vehicle_bundle_prep.py:33 | Python's lexicographic string order, used by `sorted`, is irreflexive, transitive and total |
| Ordering.SortedListUnique | rsu_logger_for_rounds.py:134 | two strictly sorted lists of the same set are equal, so `sorted(set)` has one answer |
| Ordering.SortSet | rsu_logger_for_rounds.py:134 | `sorted(list(s))` is strictly increasing, holds exactly the elements of `s`, and is as long as `s` |
| Registry.Lookup | rsu_logger_for_rounds.py:31 | a key is found exactly when some field of the object carries it, and the value returned is that field's |
| Registry.FieldError | rsu_logger_for_rounds.py:30-34 | a field passes exactly when it is present and numeric; otherwise the error is "missing key" or "must be numeric" for that key |
| Registry.EntryError | rsu_logger_for_rounds.py:28-36 | an entry passes exactly when it is an object with numeric `x`, `y`, `radius` and `radius > 0`; the "not an object" error is raised exactly for non-objects; otherwise the error is the first complaint in the order x, y, radius, then `radius > 0` |
| Registry.ToRsu | rsu_logger_for_rounds.py:35-38 | an accepted entry keeps its id and has a positive radius |
| Registry.LoadAndValidate | rsu_logger_for_rounds.py:20-38 | the "non-empty object" error exactly for a non-object or empty top level; success exactly when every entry passes, returning every entry in file order with distinct ids; otherwise the error of the first failing entry |
| Registry.Closest | rsu_logger_for_rounds.py:48-57 | a returned RSU id is a configured RSU |
| Registry.ClosestIsFirstNearest | rsu_logger_for_rounds.py:48-57 | `(None, None)` exactly when no RSU covers the point; otherwise the pick is in range, no farther than any in-range RSU, and strictly nearer than every earlier in-range RSU, so ties go to the first |
| Registry.ClosestIsInRegistry | rsu_logger_for_rounds.py:48-57 | the returned `d` is the distance to the returned RSU, which covers the point |
| Registry.PickClosest | rsu_logger_for_rounds.py:48-57 | the `best_d`/`best_rsu` loop returns exactly `Closest` |
| Logs.NonBlank | vehicle_bundle_prep.py:18-25 | skipping blank lines never yields more records than lines |
| Logs.NonBlankAppend | vehicle_bundle_prep.py:18-25 | reading two stretches of a file gives the records of the first, then those of the second |
| Logs.NonBlankMembership | vehicle_bundle_prep.py:18-25 | a record is loaded exactly when some line holds it |
| Logs.NonBlankLength | analyse_membership.py:59-64 | the number of records read is the number of non-blank lines |
| RoundLogger.RoundOf | rsu_logger_for_rounds.py:176 | `int(t // ROUND_LENGTH)` is the round `r` with `r·L <= t < (r+1)·L` |
| RoundLogger.RoundOfMonotone | rsu_logger_for_rounds.py:176 | a later time never has an earlier round |
| RoundLogger.StepDt | rsu_logger_for_rounds.py:172 | `dt` is 0 on the first step, `t - prev_t` when time does not go back, and 0 when it does: `max(0.0, t - prev_t)` |
| RoundLogger.Fresh | rsu_logger_for_rounds.py:107-123 | after a reset every RSU has empty accumulators, `prev_assignment` is kept, and the round invariant holds again |
| RoundLogger.FreshTimeZero | rsu_logger_for_rounds.py:107-123 | a reset round holds no connected or uncovered vehicle time |
| RoundLogger.AddSample | rsu_logger_for_rounds.py:208-217 | a covered sample adds the vehicle to the RSU's members, `dt` to its connected time, and one to its distance count |
| RoundLogger.AddSampleConsistent | rsu_logger_for_rounds.py:213-217 | updating sum, count, min and max keeps `min <= max` and `count·min <= sum <= count·max` |
| RoundLogger.Track | rsu_logger_for_rounds.py:188-201 | the vehicle is seen, its previous assignment becomes the current pick, and no RSU's statistics change |
| RoundLogger.TrackConsistent | rsu_logger_for_rounds.py:194-201 | a handover adds one to `out[prev]` and one to `in[curr]`, so the totals stay equal and name configured RSUs |
| RoundLogger.Credit | rsu_logger_for_rounds.py:203-217 | crediting a sample keeps the set of RSU keys |
| RoundLogger.CreditConsistent | rsu_logger_for_rounds.py:203-217 | crediting a seen vehicle keeps `connected ⊆ seen`, every membership within `connected`, and the distance invariants |
| RoundLogger.ObserveSample | rsu_logger_for_rounds.py:187-217 | one sample keeps every RSU keyed and adds the vehicle to `seen` |
| RoundLogger.ObserveSampleConsistent | rsu_logger_for_rounds.py:187-217 | one sample keeps the whole round invariant |
| RoundLogger.ObserveBatch | rsu_logger_for_rounds.py:187-217 | the samples of a step keep every RSU keyed |
| RoundLogger.ObserveBatchConsistent | rsu_logger_for_rounds.py:187-217 | a whole step keeps the round invariant |
| RoundLogger.ObserveBatchSeen | rsu_logger_for_rounds.py:187-188 | after a step, `seen` is the old `seen` plus every vehicle of the step, covered or not |
| RoundLogger.NoHandoverAcrossGap | rsu_logger_for_rounds.py:194-204 | a sample out of every RSU's range between A and B resets the assignment, so A, uncovered, B counts no handover |
| RoundLogger.ObserveSampleCredits | rsu_logger_for_rounds.py:203-211 | a sample's `dt` goes to the uncovered time when nothing covers it, else to the connected time of its nearest RSU alone |
| RoundLogger.ObserveSampleTime | rsu_logger_for_rounds.py:203-211 | one sample adds exactly `dt` to the round's total connected plus uncovered time |
| RoundLogger.ObserveBatchTime | rsu_logger_for_rounds.py:187-211 | a step with `n` vehicles adds `n·dt` to the round's total vehicle time |
| RoundLogger.MeanBetween | rsu_logger_for_rounds.py:140-143 | `avg_dist = sum / count` lies between `min_dist` and `max_dist` |
| RoundLogger.RowOf | rsu_logger_for_rounds.py:138-159 | an RSU's row has blank distance columns exactly when its count is 0, and otherwise `min <= avg <= max` |
| RoundLogger.MembersUpTo | rsu_logger_for_rounds.py:134 | the membership payload has one entry per configured RSU |
| RoundLogger.RowsUpTo | rsu_logger_for_rounds.py:138-159 | the statistics rows number one per configured RSU |
| RoundLogger.FlushedRsu | rsu_logger_for_rounds.py:126-166 | a flushed record lists RSU `i` at position `i` with its vehicles sorted, its member count, its connected time, and blank or ordered distance columns |
| RoundLogger.Opened | rsu_logger_for_rounds.py:177-183 | the round check keeps `prev_assignment`, and keeps the accumulators when the round is unchanged |
| RoundLogger.Logger.constructor | rsu_logger_for_rounds.py:84-105 | no open round, no previous time, no records, fresh accumulators and an empty `prev_assignment` |
| RoundLogger.Logger.Reset | rsu_logger_for_rounds.py:107-123 | `reset_round_accumulators` leaves fresh accumulators that keep `prev_assignment` |
| RoundLogger.Logger.StatsRow | rsu_logger_for_rounds.py:139-159 | the row written for an RSU is `RowOf` its accumulators |
| RoundLogger.Logger.FlushRound | rsu_logger_for_rounds.py:126-166 | `flush_round(r)` appends exactly one record, for window `[r·L, (r+1)·L)` |
| RoundLogger.Logger.Tables | rsu_logger_for_rounds.py:134-159 | the loop over RSUs yields, in configuration order, each RSU's sorted vehicles and its row |
| RoundLogger.Logger.SortedMembers | rsu_logger_for_rounds.py:134 | `sorted(round_membership[k])` is the unique sorted list of that RSU's vehicles |
| RoundLogger.Logger.Window | rsu_logger_for_rounds.py:127-128 | `t_start = r·L` and `t_end = (r+1)·L` |
| RoundLogger.Logger.Observe | rsu_logger_for_rounds.py:187-217 | one inner-loop iteration updates the accumulators as `ObserveSample` and keeps the invariant |
| RoundLogger.Logger.TrackVehicle | rsu_logger_for_rounds.py:188-201 | marks the vehicle seen, counts a handover on a change between two RSUs, and records the pick |
| RoundLogger.Logger.CreditSample | rsu_logger_for_rounds.py:203-217 | uncovered time or the nearest RSU's statistics are updated as `Credit` |
| RoundLogger.Logger.Step | rsu_logger_for_rounds.py:168-217 | a step flushes the open round if `t` is in another one, opens the round of `t`, and credits every vehicle with that step's `dt`, in the new round |
| RoundLogger.Logger.Advance | rsu_logger_for_rounds.py:170-183 | computes `dt`, records `t`, and flushes and reopens exactly when the round changes |
| RoundLogger.Logger.OpenRound | rsu_logger_for_rounds.py:176-183 | opens round `r`, flushing the open round first if it is a different one |
| RoundLogger.Logger.ObserveAll | rsu_logger_for_rounds.py:185-217 | the loop over a step's vehicles applies `ObserveBatch` and keeps the invariant |
| RoundLogger.Logger.Finish | rsu_logger_for_rounds.py:219-220 | the open round, if any, is flushed once at the end; with no steps nothing is written |
| RoundLogger.RoundsOf | rsu_logger_for_rounds.py:176 | one round per step |
| RoundLogger.DistinctRuns | rsu_logger_for_rounds.py:177-183 | collapsing runs of equal rounds keeps the last round and never lengthens the sequence |
| RoundLogger.DistinctRunsMembers | rsu_logger_for_rounds.py:177-183 | a round is recorded exactly when some step falls in it, so skipped rounds get no record |
| RoundLogger.DistinctRunsChange | rsu_logger_for_rounds.py:180-183 | consecutive records are for different rounds |
| RoundLogger.DistinctRunsIncreasing | rsu_logger_for_rounds.py:180-183 | when rounds never decrease, the recorded rounds strictly increase |
| RoundLogger.RoundsMonotone | rsu_logger_for_rounds.py:176 | non-decreasing step times give non-decreasing rounds |
| RoundLogger.StepExtendsRuns | rsu_logger_for_rounds.py:177-183 | after a step, the records plus the open round are the distinct runs of the rounds seen so far |
| RoundLogger.FinishCompletesRuns | rsu_logger_for_rounds.py:219-220 | the final flush turns the open round into the last record |
| RoundLogger.ClosedRounds | rsu_logger_for_rounds.py:180-183 | the records a step closes carry exactly the round it leaves |
| RoundLogger.StepRuns | rsu_logger_for_rounds.py:168-217 | one pass of the `while` loop extends the recorded runs by the step's round |
| RoundLogger.StepAll | rsu_logger_for_rounds.py:168-217 | after all steps, the records plus the open round are the distinct runs of the steps' rounds |
| RoundLogger.Run | rsu_logger_for_rounds.py:168-220 | `run` writes one record per maximal run of steps in the same round, in order: each open round is flushed exactly once |
| RoundLogger.RunRoundsIncreasing | rsu_logger_for_rounds.py:168-220 | with non-decreasing step times the written rounds strictly increase |
| MembershipAnalysis.StatsByRoundLastWins | analyse_membership.py:14-23 | a round is a key exactly when some non-blank line has it, and its value is from the last such line |
| MembershipAnalysis.LoadStatsByRound | analyse_membership.py:14-23 | the loading loop builds exactly `StatsByRound` |
| MembershipAnalysis.InvertedLastWins | analyse_membership.py:26-31 | the keys of the inversion are exactly the listed vehicles; each maps to an RSU listing it, the last such in record order |
| MembershipAnalysis.AssignVehicles | analyse_membership.py:29-30 | the inner loop maps every vehicle of one RSU to it, on top of the earlier assignments |
| MembershipAnalysis.Invert | analyse_membership.py:26-31 | `invert_membership` computes `Inverted` |
| MembershipAnalysis.MovesBalance | analyse_membership.py:87-93 | `hand_in` and `hand_out` have the same total, the number of movers visited |
| MembershipAnalysis.MovesSnoc | analyse_membership.py:91-93 | visiting one more vehicle adds one to `hand_out[prev]` and one to `hand_in[curr]` exactly when it moved |
| MembershipAnalysis.MovesInCounted | analyse_membership.py:87-93 | whatever the iteration order of `all_vehs`, `hand_in[k]` ends as the number of vehicles that moved into `k` |
| MembershipAnalysis.MovesOutCounted | analyse_membership.py:87-93 | whatever the iteration order of `all_vehs`, `hand_out[k]` ends as the number of vehicles that moved out of `k` |
| MembershipAnalysis.MovesTotalCounted | analyse_membership.py:87-93 | both totals equal the number of vehicles with two different non-None assignments |
| MembershipAnalysis.CountHandovers | analyse_membership.py:84-93 | the handover loop gives, for every RSU, the number of vehicles moved in and out, and equal totals |
| MembershipAnalysis.NextAssignSpec | analyse_membership.py:106-107 | the next `prev_assign` covers current and previous vehicles: the current RSU for present ones, None for absent ones |
| MembershipAnalysis.ReturnAfterAbsence | analyse_membership.py:106-107 | a vehicle absent for a round and back under another RSU is not counted as a handover |
| MembershipAnalysis.FirstRecordNoHandovers | analyse_membership.py:87-93 | with an empty `prev_assign` no vehicle moves and every counter is 0 |
| MembershipAnalysis.Field | analyse_membership.py:76-78 | `stats.get(key, "")` is blank exactly when the key is absent, and otherwise the stored value; on a dictionary (distinct keys) it is the one value the key carries |
| MembershipAnalysis.ConsumedShape | analyse_membership.py:70-107 | a record appends its summary row, then one row per RSU unless the connected-time lookup raised |
| MembershipAnalysis.AnalysedSummaryCount | analyse_membership.py:58-79 | one summary row per record read, all of them when nothing raised |
| MembershipAnalysis.AnalysedSummaries | analyse_membership.py:70-79 | summary row `i` is record `i`'s round and window with the statistics of its round |
| MembershipAnalysis.AnalysedRowCount | analyse_membership.py:96-104 | without an exception, one RSU row per RSU key of every record |
| MembershipAnalysis.MissingStatsBlank | analyse_membership.py:70-101 | a round without statistics gives blank summary cells and blank connected times, not an error |
| MembershipAnalysis.FirstRecordRows | analyse_membership.py:84-104 | the rows of the first record show no handovers |
| MembershipAnalysis.WriteRsuRows | analyse_membership.py:96-104 | the per-RSU loop writes `RsuRows`: length of the list, connected time or blank, handovers in and out |
| MembershipAnalysis.ProcessRecord | analyse_membership.py:64-107 | one iteration of the record loop computes `Consumed` |
| MembershipAnalysis.AnalysedSnoc | analyse_membership.py:58-107 | one more record changes nothing after an exception, and is otherwise consumed |
| MembershipAnalysis.Analyse | analyse_membership.py:58-107 | on logs decoded into dictionaries (distinct keys in every statistics object, its time table and every record's `rsus`), `main` produces `Analysed` of the stats by round and the non-blank membership records |
| MembershipAnalysis.AnalysedStops | analyse_membership.py:101 | once the lookup has raised, later records change nothing |
| BundlePrep.LoadRounds | vehicle_bundle_prep.py:18-25 | `load_rounds` keeps exactly the non-blank lines, in order |
| BundlePrep.AddRound | vehicle_bundle_prep.py:30-32 | after one round, a vehicle is collected exactly when it was already or is listed under one of the round's RSUs |
| BundlePrep.CollectAllVehicles | vehicle_bundle_prep.py:28-33 | strictly sorted, hence duplicate-free, and exactly the vehicles listed in some round |
| BundlePrep.Slice | vehicle_bundle_prep.py:55 | `indices[cursor:cursor+bundle_size]` has `bundle_size` elements, the ones at `cursor + a` |
| BundlePrep.BundleKeys | vehicle_bundle_prep.py:54-56 | the bundle keys are exactly the vehicles assigned so far |
| BundlePrep.BundleSlice | vehicle_bundle_prep.py:52-56 | a vehicle's bundle is the slice at its last position in `veh_ids` |
| BundlePrep.SlicesDisjoint | vehicle_bundle_prep.py:53-56 | slices at different cursors of a permutation share no index |
| BundlePrep.AssignedBundles | vehicle_bundle_prep.py:36-57 | keys exactly `veh_ids`, each bundle `bundle_size` indices within `[0, dataset_size)`, and two vehicles' bundles are disjoint |
| BundlePrep.AssignDisjointBundles | vehicle_bundle_prep.py:36-57 | raises with `needed` and `dataset_size` exactly when `len(veh_ids)·bundle_size > dataset_size`, else the cursor loop builds `BundlesOf` |
| BundlePrep.RoundUnion | vehicle_bundle_prep.py:81-83 | `u` holds exactly the indices of the bundles of the RSU's vehicles |
| BundlePrep.ProcessRsu | vehicle_bundle_prep.py:79-90 | the per-round list is the sorted union; the RSU's cumulative set grows by exactly that union, no other RSU's changes, and the cumulative list is that set sorted |
| BundlePrep.ProcessRound | vehicle_bundle_prep.py:76-90 | one entry per RSU of the round in both outputs, per-round union lists, and cumulative sets grown by exactly that round's unions |
| BundlePrep.EveryListedHasBundle | vehicle_bundle_prep.py:82-83 | every vehicle listed in a round has a bundle, so `vehicle_bundles[v]` never raises |
| BundlePrep.RoundWritten | vehicle_bundle_prep.py:86-93 | after round `n` the cumulative set of an RSU is everything its vehicles held in rounds `0..n` |
| BundlePrep.Prepare | vehicle_bundle_prep.py:60-93 | sorted listed vehicles; failure exactly when the indices do not suffice; else the bundles, and per round the per-RSU sorted unions and the cumulative sorted unions |
| BundlePrep.CumulativeNeverShrinks | vehicle_bundle_prep.py:86-90 | an RSU's cumulative list in a round is contained in its list in any later round |
| BundlePrep.CumulativeHoldsRound | vehicle_bundle_prep.py:79-90 | an RSU's cumulative list in a round contains that round's union |
| RsuPlacement.DecodeInBounds | FCD_heatmap.py:72-79 | `flat_idx // W` and `flat_idx % W` are a row below `H` and a column below `W`, and recompose to `flat_idx` |
| RsuPlacement.RavelRoundTrip | FCD_heatmap.py:71-79 | cell `(i, j)` has flat index `i·W + j`, which decodes back to `(i, j)` |
| RsuPlacement.ChosenBounded | FCD_heatmap.py:74-76 | at most `k` positions, none when `k <= 0` |
| RsuPlacement.ChosenFromOrder | FCD_heatmap.py:81-83 | every kept cell has a count above 0 and comes from the visiting order |
| RsuPlacement.ChosenDescending | FCD_heatmap.py:70-71 | the counts of the kept cells never increase |
| RsuPlacement.ChosenSpaced | FCD_heatmap.py:90-99 | each kept position is at least `min_dist` from every position kept before it |
| RsuPlacement.ChosenPairwiseSpaced | FCD_heatmap.py:90-101 | with the hypot distance, any two returned positions are at least `min_dist` apart |
| RsuPlacement.NoSpacingTakesHottest | FCD_heatmap.py:90-99 | with `min_dist = 0`, the result is the first `min(k, #non-empty)` non-empty cells in visiting order |
| RsuPlacement.SaturatedStays | FCD_heatmap.py:75-76 | once `k` positions are kept nothing more is taken, so the `break` changes nothing |
| RsuPlacement.CheckSpacing | FCD_heatmap.py:90-96 | the `too_close` loop answers true exactly when some kept position is nearer than `min_dist` |
| RsuPlacement.Consider | FCD_heatmap.py:78-99 | a candidate is taken exactly when its cell is non-empty and not too close, and then its position is the cell centre `0.5·(edge[i] + edge[i+1])` |
| RsuPlacement.SelectRsuPositions | FCD_heatmap.py:62-103 | `select_rsu_positions` returns the centres of exactly the cells `Chosen` picks, in order |
| ConnectionLogger.VehicleRowsCount | rsu_logger.py:43-46 | a vehicle gets as many rows as RSUs cover it |
| ConnectionLogger.UncoveredWritesNothing | rsu_logger.py:41-46 | no RSU covers a vehicle exactly when it gets no rows |
| ConnectionLogger.VehicleRowsExact | rsu_logger.py:43-46 | a row for a vehicle is written exactly for each RSU whose radius reaches it, not only the closest, with that distance |
| ConnectionLogger.VehicleRowsAppend | rsu_logger.py:43-46 | rows follow RSU configuration order |
| ConnectionLogger.StepRowsAppend | rsu_logger.py:41-46 | rows follow vehicle order: the earlier vehicles' rows come first |
| ConnectionLogger.StepRowsCount | rsu_logger.py:41-46 | a step writes the sum over its vehicles of their in-range RSU counts |
| ConnectionLogger.StepRowsWellFormed | rsu_logger.py:36-46 | every row of a step carries the step's time, round `floor(t / L)`, and a distance within the radius of the named RSU |
| ConnectionLogger.LogRowsRound | rsu_logger.py:34-46 | every row's round is `floor(time / ROUND_LENGTH)` of its own time, and its time is a step's |
| ConnectionLogger.LogVehicle | rsu_logger.py:43-46 | the loop over `RSUS.items()` appends exactly `VehicleRows` |
| ConnectionLogger.LogStep | rsu_logger.py:36-46 | one step appends exactly `StepRows` |
| ConnectionLogger.Run | rsu_logger.py:29-46 | `run` writes exactly `LogRows`, step by step |

## Left out

- The simulator: TraCI calls (`simulationStep`, `getTime`, `getIDList`, `getPosition`, `getMinExpectedNumber`, `start`, `close`) are external. Steps are an input sequence of `(time, [(vehicle, position)])`.
- File, CSV and JSON input and output. Records and rows are values appended to sequences. Decoded JSON objects are sequences of `(key, value)` pairs in file order. A record whose JSON does not decode, or lacks a key the code indexes, is outside the model.
- Decoded JSON objects are assumed to have distinct keys where a loop relies on it (`Registry.LoadAndValidate`, at the top level and inside every entry; `BundlePrep.Prepare`; `BundlePrep.ProcessRound`; `MembershipAnalysis.Analyse`, for every statistics object, its `rsu_total_connected_time_s` table and every record's `rsus`), as Python dictionaries do. A repeated key, which `json.loads` collapses to its last value, is not modelled.
- `math.hypot` and `np.hypot` are not computable over reals. The distance is a function parameter. `IsEuclidean` pins it to the hypot value where a lemma needs it.
- Floating point: times, distances and counts are exact reals. `round(x, 3)` and `round(x, 2)` on output are not modelled.
- The `float("inf")` initial minimum is `None` until the first distance is counted.
- `ROUND_LENGTH` is the literal 10.0 seconds throughout.
- `random.Random(seed).shuffle`: the shuffled index list is a parameter, any permutation of `[0, dataset_size)`.
- `np.argsort(...)[::-1]`: the visiting order is a parameter, any permutation of the flat indices with non-increasing counts. numpy's order among equal counts is left open.
- `np.histogram2d`, `parse_fcd_positions`, `build_heatmap` and `plot_heatmap` are library and plotting wrappers. The heatmap is an input, held row-major as `heatmap.ravel()`.
- The unvalidated configuration load of `rsu_logger.py` (a missing or non-numeric field raises there). Its row loop takes an already decoded list of RSUs.
- Module-level configuration loading at import time, and the `__main__` blocks.
- The iteration order of `for v in all_vehs` over a Python set is left open. `MembershipAnalysis.CountHandovers` is proved for every order.
- `MembershipAnalysis.Analyse`: a non-object `rsu_total_connected_time_s` makes `rsu_time.get` raise. This is modelled as an `AnalysisError` that stops the fold; the summary row written just before the raise is kept.
- `BundlePrep.AssignDisjointBundles` (and `BundlePrep.Prepare`): `bundle_size` and `dataset_size` are natural numbers. A negative `bundle_size`, which Python slices would accept, and a negative `dataset_size`, which the `needed > dataset_size` test rejects even with no vehicles, are not modelled.
- `RoundLogger.Run` states the sequence of rounds recorded. The contents of each record are stated by `Logger.Step`, `Logger.FlushRound` and `FlushedRsu`.
