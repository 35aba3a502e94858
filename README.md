# NFTA bus speeds: a Dafny model of the processing core

The NFTA-process-data pipeline turns GPS pings from Buffalo's NFTA buses
into speed tables, one per OpenStreetMap way, and then predicts each road's
speed from past days. This project models that core in Dafny and proves
properties of the model. It has one module per source file:

- `OsmTables`: `get_map_data` in osm_interpreter.py. The node, way and
  relation tables are built from an OpenStreetMap extract. Only the nodes
  and ways that the NFTA route relations use are kept.
- `Distance`: the flat-earth `distance` of helper/distance.py. The copy in
  find_nearest_road.py is identical.
  - The cosine of the average latitude is replaced by a cubic polynomial.
  - The result is the Euclidean length of the (east, north) displacement in
    kilometres.
  - The square root is a function parameter, constrained by `IsSqrt`.
- `Matcher`: `find_nearest_road`, which maps a ping onto its route. It runs
  in four steps:
  - a margin-box filter over the route's ways, falling back to every route
    way when none is near;
  - a running-minimum search over the nodes;
  - a choice of up to three edges around the closest node;
  - a projection of the ping onto those edges, accepted only inside each
    edge's bounding box.
- `SpeedDerivation`: `find_traffic_speed`. Its steps:
  - validate the bin width;
  - index relations by the route number their `ref` starts with;
  - turn each acceptable pair of consecutive pings into a speed in mph;
  - append that speed to the per-way, per-bin sample lists;
  - average the lists into the speed table.

  The matcher and the distance are parameters here.
- `HistoryData`: helper/history_data.py.
  - Round a time up to a bin boundary.
  - Split a recent-hours span across midnight.
  - Build one single-bin task per past day or week.
  - Map way ids to rows.
  - Lay out the columns of `get_history_data`.
- `Predictor`: predict_road_condition.py.
  - Reassign the weights of days that failed to load.
  - Fall back to nearby bins on a day with no positive speed.
  - Estimate the remaining missing days by weight.
  - Take the weighted dot product.
  - Fill roads without data by a breadth-first search over the way graph.
    A road's neighbours and its class's speed limit supply its speed.
- `Batch`: script/generate_prediction_in_large_batches.py. It exports
  `road_speed`, builds `way_structure`, and runs the loop that predicts and
  exports every bin of a day.
- `TimeFormat` and `SpeedMap`: render a bin index as "HH:MM" and a range as
  "HH:MM - HH:MM". They also compute a road's running-mean speed and colour
  band for the map view.
- `Dicts`, `Strings` and `Wrappers` are shared helpers:
  - key orders for Python dicts and sets;
  - Python's substring `in`;
  - `Option` and `Result`.

The source's loops are methods with loop invariants. Each method is proved
equal to a recursive specification function, and the lemmas state what that
function means.

Python sets iterate in hash order, and the dicts loaded from files come in
an order the model does not know. The model passes such an order in as a
sequence of keys (`IsKeyOrder`, `IsSetOrder`). Dicts the program builds
itself keep insertion order, and the model tracks that order alongside
them.

Where the source raises an exception, the model returns a `Failure` value:

- a `KeyError` on a missing way;
- an `IndexError` past the end of a row;
- a zero-length edge in the projection;
- `RuntimeError` for a bad bin width;
- `ValueError` for 24 hours or more.

The source's quirks are modelled as written, and lemmas exhibit them:

- the bin fallback wraps with a literal 96 (`FallbackWrapsAt96`);
- the different-bin test `2 < d < 2` never holds (`DifferentBinsSkipped`);
- the second `way1 < 0` check never looks at `way2` (`SecondMatchUnchecked`);
- the usable-way intersection restarts when it becomes empty
  (`UsableRestarts`);
- the split across midnight uses `1440 // 15` bins whatever the bin width,
  which is 96, and yesterday's range stops before bin 95
  (`YesterdayLosesLastBin`, `OtherIntervalsTakeWrongBins`);
- an estimated day is multiplied by its weight twice
  (`EstimatedWayPrediction`).

## Model

| member | source | states |
|---|---|---|
| OsmTables.TableOf | osm_interpreter.py:163-172 | the table built by successive `dict.update` calls has a key exactly for the ids that occur in the entries |
| OsmTables.TableOfLastWins | osm_interpreter.py:163-172 | a repeated id keeps the value of its last entry |
| OsmTables.BuildTable | osm_interpreter.py:163-172 | the update loop builds the last-wins table of the entries |
| OsmTables.KeyOrder | osm_interpreter.py:201-207 | the dict's iteration order lists every key of the table, each exactly once |
| OsmTables.RelationEntries | osm_interpreter.py:209-210 | each relation contributes the entry (its id, [members, tags]) |
| OsmTables.UsedWaysOfMeaning | osm_interpreter.py:182-186 | a way is used exactly when some relation lists it and it is a key of the way table |
| OsmTables.MemberNodes | osm_interpreter.py:185-193 | a way member contributes exactly its nodes; otherwise a node member contributes itself, and any other member contributes nothing |
| OsmTables.UsedNodesOfMeaning | osm_interpreter.py:182-193 | a node is used exactly when it lies on a listed way, or it is itself listed, is not a way id and is in the node table |
| OsmTables.AddMember | osm_interpreter.py:184-193 | one member adds itself to the used ways when it is a way, and adds what `MemberNodes` gives to the used nodes |
| OsmTables.CollectUsed | osm_interpreter.py:182-193 | the nested relation/member loop yields exactly the used ways and used nodes of all members |
| OsmTables.RestrictTable | osm_interpreter.py:201-207 | the copy loop keeps exactly the keys in the used set, with their values unchanged |
| OsmTables.GetMapData | osm_interpreter.py:163-210 | the final node, way and relation tables are the restricted node and way tables and the last-wins relation table |
| OsmTables.KeptWays | osm_interpreter.py:205-207 | a way is kept exactly when some route lists it and the extract has it; it keeps the node list of its last reading |
| OsmTables.KeptNodes | osm_interpreter.py:201-203 | a node is kept exactly when the extract has it and either it lies on a listed way or it is listed and is not a way id; its coordinates are unchanged |
| Distance.CosPolyIsCubic | helper/distance.py:46-58 | the longitude scale, the `cos_poly` list evaluated at the average latitude, is the cubic with those four coefficients, highest degree first |
| Distance.DistNonNegative | helper/distance.py:59-61 | the distance is never negative |
| Distance.DistSelfIsZero | helper/distance.py:49-61 | a point is at distance 0 from itself |
| Distance.DistSymmetric | helper/distance.py:49-61 | swapping the points gives the same distance: both components flip sign and the average latitude stays |
| Distance.DistAlongMeridian | helper/distance.py:52-61 | for equal longitudes the distance is the absolute latitude difference in radians times the radius |
| Distance.DistLongitudeShift | helper/distance.py:49-58 | moving both points by the same longitude leaves the distance unchanged |
| Matcher.WayIsNear | find_nearest_road.py:168-173 | the node loop reports a way as near exactly when some node lies strictly inside the margin box on both axes |
| Matcher.NearWaysMeaning | find_nearest_road.py:165-175 | the coarse filter keeps exactly the route members that are ways and have a node in the box, each once |
| Matcher.RouteWaysMeaning | find_nearest_road.py:179-183 | the fallback keeps exactly the route members that are ways, each once |
| Matcher.PossibleWaysAreRouteWays | find_nearest_road.py:164-183 | every possible way is a route way, with no repeats; when some route way is near, the possible ways are exactly the near ones; when none is near, they are every route way |
| Matcher.CollectNearWays | find_nearest_road.py:165-175 | the filter loop builds the near ways in first-seen order |
| Matcher.CollectRouteWays | find_nearest_road.py:179-183 | the fallback loop builds every route way in first-seen order |
| Matcher.PossibleWays | find_nearest_road.py:162-183 | `possible_ways` holds the near ways, or every route way when no way is near |
| Matcher.PossibleWaysKnown | find_nearest_road.py:162-183 | every possible way is a key of the way table |
| Matcher.RunningMinIsFirstClosest | find_nearest_road.py:187-203 | with strict `<` from `inf`, the running minimum is the first closest candidate; there is one exactly when there is a candidate |
| Matcher.CoarsePass | find_nearest_road.py:196-203 | the coarse loop over ways and nodes computes that running minimum over the candidates in visit order |
| Matcher.CandidatesMeaning | find_nearest_road.py:196-203 | the coarse pass visits only nodes of possible ways, at their coordinates; it visits nothing exactly when every possible way is empty |
| Matcher.CandidateIsVisited | find_nearest_road.py:196-198 | every node of every possible way is visited |
| Matcher.BestIsCandidate | find_nearest_road.py:196-203 | the coarse result is a visited node with its own distance, and no visited node is closer |
| Matcher.Coarse | find_nearest_road.py:196-203 | the coarse result names a way of the table and a node index inside it |
| Matcher.EdgeWindow | find_nearest_road.py:207-214 | every chosen edge index i has 0 <= i < len - 1; a way of at most 3 nodes uses all of its edges |
| Matcher.EdgeWindowTouchesClosestNode | find_nearest_road.py:207-214 | a way with an edge gets 1 to 3 edges, and one of them starts or ends at the closest node |
| Matcher.Project | find_nearest_road.py:221-226 | coincident ends raise the division by zero; a computed projection lies on the line through the edge's ends and leaves the ping's offset orthogonal to the edge |
| Matcher.ProjectionUnique | find_nearest_road.py:221-226 | a point on the edge's line whose offset from the ping is orthogonal to the edge is the computed projection, so the two properties pin it down |
| Matcher.EndpointsProjectToThemselves | find_nearest_road.py:221-226 | when the edge has a length, each of its ends projects onto itself |
| Matcher.RefineKeepsWay | find_nearest_road.py:216-236 | the fine pass keeps the coarse way and node and never increases the distance; the result is the coarse one, or a projection inside some window edge's box with its own distance; it fails only on a zero-length edge |
| Matcher.RefineFailurePersists | find_nearest_road.py:216-226 | a zero-length edge aborts the rest of the fine pass |
| Matcher.FinePass | find_nearest_road.py:216-236 | the edge loop computes the fine pass |
| Matcher.FineResult | find_nearest_road.py:207-236 | the refined point keeps the way, is no farther than the node, and is the node or a projection inside the box of an edge of the way |
| Matcher.Routes | find_nearest_road.py:158-160 | `relations` holds the relation table's entry for each id, in order |
| Matcher.LookupRoutes | find_nearest_road.py:158-160 | the lookup loop builds `relations` |
| Matcher.NearestRoad | find_nearest_road.py:164-185 | no relation id gives ([0, 0], -1) |
| Matcher.NearestRoadRaises | find_nearest_road.py:187-214 | with ids, the matcher raises for lack of a candidate exactly when every possible way is empty; any other exception is a zero-length edge |
| Matcher.NearestRoadIsClosest | find_nearest_road.py:187-254 | a returned way is a possible way; the returned point is no farther than any node of any possible way; it is a node of that way or a projection inside the box of one of its edges |
| Matcher.FindNearestRoad | find_nearest_road.py:114-254 | the whole matcher computes `NearestRoad` |
| SpeedDerivation.ValidateInterval | find_traffic_speed.py:57-63 | a width outside (0, 1440] or one that does not divide 1440 fails with the matching error; otherwise the result is the bin count n with n * width = 1440 |
| SpeedDerivation.IntString | find_traffic_speed.py:177 | `str(route)`: the digits of a non-negative number, otherwise "-" followed by the digits of its negation |
| SpeedDerivation.NatStringValue | find_traffic_speed.py:91-94 | reading back the decimal digits of n gives n |
| SpeedDerivation.LeadingDigits | find_traffic_speed.py:91 | the match is the longest prefix made of digits |
| SpeedDerivation.LeadingNumber | find_traffic_speed.py:91-94 | a `ref` yields a route number exactly when it starts with a digit |
| SpeedDerivation.LeadingNumberOfNatString | find_traffic_speed.py:91-94 | a `ref` made of n's digits followed by a non-digit is indexed under n |
| SpeedDerivation.IndexOfKeys | find_traffic_speed.py:89-97 | a route number is a key of the index exactly when some relation's `ref` starts with it |
| SpeedDerivation.IndexOfSets | find_traffic_speed.py:89-97 | a route number's set holds exactly the relations whose `ref` starts with it |
| SpeedDerivation.BuildRouteIndex | find_traffic_speed.py:89-97 | the loop fails exactly when some relation has no `ref`; otherwise it builds that index |
| SpeedDerivation.RecentPings | find_traffic_speed.py:117-129 | with `recent_data_time <= 0` every line is kept; otherwise exactly the lines at or after the threshold are kept |
| SpeedDerivation.ReadPings | find_traffic_speed.py:117-129 | the read loop keeps those lines in file order |
| SpeedDerivation.BinBelowBinsPerDay | find_traffic_speed.py:136-144 | a clock time of the day falls in one of the day's bins |
| SpeedDerivation.PossibleRelationsMeaning | find_traffic_speed.py:172-178 | an indexed route's candidates are the relations whose `ref` starts with its number; for an unindexed route they are the relations whose `ref` contains its decimal string |
| SpeedDerivation.DifferentBinsSkipped | find_traffic_speed.py:147-149 | a pair in different bins is always skipped, so the two-bin append branches never run |
| SpeedDerivation.DisqualifiedPairsSkipped | find_traffic_speed.py:152-167 | a pair is skipped for equal times, equal positions, either sentinel test (the second tests lat2 with lng1), or different routes |
| SpeedDerivation.SampleMeaning | find_traffic_speed.py:147-220 | an accepted pair passed every check and has one bin and a non-negative first way; its speed is non-zero and equals distance / (t2 - t1) / 1.60934 * 3600 between the two projections |
| SpeedDerivation.SecondMatchUnchecked | find_traffic_speed.py:205-210 | a failed second match is not caught: the pair is recorded under the negative way |
| SpeedDerivation.Append | find_traffic_speed.py:228-242 | an append succeeds exactly for a known way and an in-range bin and changes only that one sample list; otherwise it raises the matching error |
| SpeedDerivation.Accumulate | find_traffic_speed.py:226-242 | an accepted pair's appends succeed exactly when both ways are known and both bins are in range; a failure names an offending way or bin; the shape is kept |
| SpeedDerivation.AccumulateCell | find_traffic_speed.py:226-242 | an accepted pair adds its speed once to each cell it touches and leaves every other cell alone |
| SpeedDerivation.StepPreserves | find_traffic_speed.py:131-242 | one loop pass keeps the ways and bin counts and records only non-zero speeds |
| SpeedDerivation.PairsPreserve | find_traffic_speed.py:131-242 | the pair loop of a file keeps the ways and bin counts and records only non-zero speeds |
| SpeedDerivation.FilesPreserve | find_traffic_speed.py:104-242 | the run over all files keeps the ways and bin counts and records only non-zero speeds |
| SpeedDerivation.PairsFailurePersists | find_traffic_speed.py:131-242 | an exception in a pair ends the file's loop with it |
| SpeedDerivation.FilesFailurePersists | find_traffic_speed.py:104-242 | an exception in a file ends the run with it |
| SpeedDerivation.StepBinsInRange | find_traffic_speed.py:136-144 | with a day's bins per way and clock-time pings, a pass never indexes past a sample list |
| SpeedDerivation.PairsBinsInRange | find_traffic_speed.py:131-242 | the same holds for a file's pair loop |
| SpeedDerivation.FilesBinsInRange | find_traffic_speed.py:104-242 | the same holds for the whole run |
| SpeedDerivation.RunPairs | find_traffic_speed.py:131-242 | the pair loop computes the specified pair sequence, stopping at the first exception |
| SpeedDerivation.RunFiles | find_traffic_speed.py:104-242 | the file loop filters and runs each file in turn |
| SpeedDerivation.InitTables | find_traffic_speed.py:80-85 | every way of the table gets n empty sample lists and a row of n zeros |
| SpeedDerivation.AverageRow | find_traffic_speed.py:301-303 | a bin with samples becomes their mean, and an empty bin keeps 0 |
| SpeedDerivation.AverageSpeeds | find_traffic_speed.py:299-303 | the averaging loop gives every way its row of bin means |
| SpeedDerivation.TrafficSpeedMeaning | find_traffic_speed.py:57-303 | a bad width fails first; otherwise every way of the table has 1440 / width bins, each bin the mean of its non-zero samples or 0 when it has none |
| SpeedDerivation.FindTrafficSpeed | find_traffic_speed.py:21-327 | the whole function, file I/O aside, computes `TrafficSpeed` |
| HistoryData.CeilingToStep | helper/history_data.py:102 | adding `(-t) mod step` rounds t up to the next multiple of step; a multiple stays as it is |
| HistoryData.RoundDownToIntervalIndex | helper/history_data.py:101-105 | the result is the bin whose start is the next boundary at or after the time, so a time on a boundary keeps its bin; a time in the day's last bin wraps to 0 |
| HistoryData.RecentHoursTasks | helper/history_data.py:15-29 | 24 hours or more raises; a non-negative start gives one task [start, end) today; a negative start gives yesterday [start + 96, 95) and today [0, end) |
| HistoryData.YesterdayLosesLastBin | helper/history_data.py:24-27 | with 15-minute bins and a span across midnight, yesterday's range stops before bin 95, so one bin fewer than the span is taken |
| HistoryData.SameDaySpanIsExact | helper/history_data.py:18-29 | without the split, the single task covers exactly the span's bins |
| HistoryData.OtherIntervalsTakeWrongBins | helper/history_data.py:24-27 | with 5-minute bins, the hour before midnight is read from bins 84..94 of yesterday |
| HistoryData.PastBinTaskList | helper/history_data.py:42-52 | task k is bin [idx, idx + 1) of the day (k + 1) * stride days back, most recent first |
| HistoryData.PastBinTasks | helper/history_data.py:47-49 | the append loop builds that task list |
| HistoryData.PastBinWidth | helper/history_data.py:48-52 | the past-day and past-week tasks give one column each |
| HistoryData.PySlice | helper/history_data.py:90 | numpy's clamped slice equals Dafny's slice inside the bounds, and is empty when the end comes before the start |
| HistoryData.RowIndexOfMeaning | helper/history_data.py:108-114 | an id has a row exactly when it occurs in the first column; its row is its last occurrence |
| HistoryData.GetWayIdToMatrixRow | helper/history_data.py:108-114 | the counter loop builds that row index |
| HistoryData.WayColumns | helper/history_data.py:89-96 | an unknown way fails; a known way gets its row's columns [start, end), broadcast to width end - start |
| HistoryData.WayRowsMeaning | helper/history_data.py:94-96 | row k holds way k's columns; a failure is some way's failure |
| HistoryData.ByIntervalRange | helper/history_data.py:82-98 | a negative width fails; the matrix has one row per way of width end - start |
| HistoryData.ByIntervalRangeRows | helper/history_data.py:82-98 | each row is its way's slice of the day table; an unknown way makes the load fail |
| HistoryData.HStack | helper/history_data.py:34 | `np.hstack` joins matching rows side by side |
| HistoryData.TaskColumns | helper/history_data.py:30-36 | no task raises; otherwise the columns of all tasks, one row per way |
| HistoryData.TaskColumnsStep | helper/history_data.py:30-36 | one more task appends its columns, or its failure, unless an earlier task already failed |
| HistoryData.TaskColumnsFailurePersists | helper/history_data.py:30-32 | a failed task fails the whole list |
| HistoryData.GetRecentData | helper/history_data.py:30-39 | the load-and-stack loop computes `TaskColumns` |
| HistoryData.GetHistoryData | helper/history_data.py:9-12 | the result is the hours, days and weeks columns, side by side, in that order |
| HistoryData.HistoryColumnsLayout | helper/history_data.py:9-12 | no past days, no past weeks, or 24 hours fails; otherwise each row holds the recent-hours columns, then one per day, then one per week |
| Predictor.Reassigned | predict_road_condition.py:60-75 | the result is empty exactly when the kept weights sum to 0 or none is kept |
| Predictor.ReassignWeight | predict_road_condition.py:41-75 | the two loops return the kept weights, in order, scaled by total / remaining, or nothing when the kept weights sum to 0 |
| Predictor.WeightTotals | predict_road_condition.py:60-66 | the first loop sums the kept weights and all weights |
| Predictor.RescaleKept | predict_road_condition.py:68-73 | the second loop scales each kept weight |
| Predictor.ReassignKeepsTotal | predict_road_condition.py:60-75 | the reassigned weights sum to the original total |
| Predictor.ReassignNothingMissing | predict_road_condition.py:60-75 | with no missing day and a non-zero total, the weights come back unchanged |
| Predictor.ComputePredictSpeed | predict_road_condition.py:114-134 | the loop computes the dot product over the days |
| Predictor.DotOfConstant | predict_road_condition.py:131-134 | when every day has speed v, the prediction is v times the sum of the days' weights |
| Predictor.Estimated | predict_road_condition.py:99-111 | the estimate has one entry per day |
| Predictor.EstimateMissingValue | predict_road_condition.py:78-111 | the kept days stay; each day to estimate becomes the weighted mean of the kept days times its weight; all zeros when the kept days have no weight |
| Predictor.AvailableTotals | predict_road_condition.py:99-104 | the first loop sums the kept days' weights and weighted speeds |
| Predictor.FillNeeded | predict_road_condition.py:105-108 | the writes give each day to estimate the mean times its weight |
| Predictor.FilledDot | predict_road_condition.py:99-111 | after filling, the dot product is the kept days' weighted sum plus the mean times the squared weights of the estimated days |
| Predictor.GetWayIdSet | predict_road_condition.py:189-218 | the loop builds the union of the key sets and the intersection that restarts when empty |
| Predictor.FullWaysMeaning | predict_road_condition.py:208-212 | a way is in the full set exactly when some matrix has it |
| Predictor.UsableWithinFull | predict_road_condition.py:208-218 | the usable ways are among the full set |
| Predictor.UsableIsIntersection | predict_road_condition.py:208-218 | when some way is in every matrix, the usable ways are exactly the ways in every matrix |
| Predictor.UsableRestarts | predict_road_condition.py:213-216 | with key sets {1}, {2}, {3}, no way is in all three, yet the usable set is {3} |
| Predictor.MotorwayLinks | predict_road_condition.py:259-261 | "motorway" and "motorway_link" count as motorways and "primary" does not |
| Predictor.StartOfMeaning | predict_road_condition.py:246-252 | the start is the first way with a positive speed; it is the sentinel 0 when there is none, and also when that way is way 0 |
| Predictor.FindStart | predict_road_condition.py:246-250 | the first loop finds that start |
| Predictor.FillWithLimits | predict_road_condition.py:252-257 | with no start, the keys stay and every way gets its type's average limit, or 30 |
| Predictor.NeighbourSamples | predict_road_condition.py:274-281 | each neighbour adds at most one sample |
| Predictor.AddSample | predict_road_condition.py:276-281 | a neighbour adds at most one sample, after the earlier ones, and all samples stay positive |
| Predictor.SamplesPositive | predict_road_condition.py:274-281 | every sample is positive |
| Predictor.SamplesAgree | predict_road_condition.py:274-275 | the samples depend only on the neighbours' speeds |
| Predictor.CollectSamples | predict_road_condition.py:273-281 | the neighbour loop collects the same-class positive speeds, and 4 times the speed of a plain neighbour of a motorway |
| Predictor.SamplesNonEmptyPositive | predict_road_condition.py:272-284 | with a positive limit, a way has at least one sample and all are positive |
| Predictor.Visit | predict_road_condition.py:267-284 | a visit adds an absent way with 0; a non-positive way takes the mean of its samples; nothing else changes |
| Predictor.Discover | predict_road_condition.py:286-289 | the neighbours that join the queue are exactly the unexplored ones, each once |
| Predictor.Enqueue | predict_road_condition.py:286-289 | the last loop queues those neighbours and explores every neighbour |
| Predictor.FrontierStep | predict_road_condition.py:263-289 | one turn visits a fresh way of the graph and keeps the search bookkeeping: visited and queued ways distinct, the explored set made of exactly those ways, the neighbours of visited ways explored, every way but the start with an earlier parent; the unexplored part shrinks or the queue does |
| Predictor.Turn | predict_road_condition.py:266-289 | one turn of the queue loop keeps the search invariant and makes progress |
| Predictor.SettleTurn | predict_road_condition.py:267-284 | the popped way is settled from the speeds as they stood at its visit, and the dict and its key order stay in step |
| Predictor.SearchFrom | predict_road_condition.py:263-291 | the queue loop visits the ways in exactly the first-in-first-out order `BfsOrder` (neighbours queued in adjacency-list order) and ends with the search's outcome; the key order still lists the dict |
| Predictor.BfsTriangle | predict_road_condition.py:264-289 | on three mutually adjacent ways, the search from way 1 visits 2 before 3, the order of 1's adjacency list |
| Predictor.SearchDone | predict_road_condition.py:263-291 | at the end, the visited ways start at the start, have no repeats, contain every neighbour of a visited way, and each was reached from an earlier one |
| Predictor.BfsReachesAll | predict_road_condition.py:263-291 | every way reachable from the start is visited |
| Predictor.BfsVisitsReachable | predict_road_condition.py:263-291 | every visited way is reachable from the start |
| Predictor.SettledAt | predict_road_condition.py:267-284 | the i-th visited way ends with its own speed when positive, otherwise the mean of its samples as the search saw them at its visit |
| Predictor.BfsKeepsPositive | predict_road_condition.py:271-272 | a way with a positive speed keeps it |
| Predictor.BfsFillsPositive | predict_road_condition.py:272-284 | a visited non-positive way takes the mean of its samples, so with positive limits every visited way ends positive |
| Predictor.EstimateNoDataRoadSpeed | predict_road_condition.py:221-291 | with no positive way, every existing way gets its limit and the keys stay; otherwise the breadth-first search from the first positive way, in the queue's visit order, fills the dict |
| Predictor.Slot | predict_road_condition.py:357 | the fallback bin lies in [0, 96) and agrees with idx + offset modulo 96 |
| Predictor.ProbeMeaning | predict_road_condition.py:353-359 | the fallback returns the first positive bin over the offsets in order; when none is positive it returns the last bin read; reading past the row raises |
| Predictor.FallbackWrapsAt96 | predict_road_condition.py:357 | on a day of 288 bins, bin 100 with offset -1 reads bin 3 |
| Predictor.FallbackLeavesShortRow | predict_road_condition.py:357 | on a day of 48 bins, bin 0 with offset -1 reads bin 95, past the end of the row |
| Predictor.DaySpeed | predict_road_condition.py:352-376 | one day's value is the bin itself when positive, otherwise the fallback |
| Predictor.HistoryMeaning | predict_road_condition.py:351-376 | day k's speed is that day's value; the days marked for estimation are exactly those still <= 0; a failure is some day's failure |
| Predictor.HistoryStopsAtFailure | predict_road_condition.py:351-352 | an exception on a day ends the way's loop with it |
| Predictor.SteadyWayPrediction | predict_road_condition.py:380-391 | with every day at the same positive speed v, the way's prediction is v times the sum of its days' weights |
| Predictor.EstimatedWayPrediction | predict_road_condition.py:385-391 | with some days estimated, the prediction is the kept days' weighted sum plus the mean times the squared weights of the estimated days: an estimated day's weight counts twice |
| Predictor.WeightlessWayPrediction | predict_road_condition.py:385-391 | with days to estimate and no weight on the kept days, the way gets 0 |
| Predictor.PredictWay | predict_road_condition.py:348-391 | one way of the first loop: its days, then 0 when too many need estimating, otherwise estimate and dot product |
| Predictor.Predictions | predict_road_condition.py:348-391 | a successful first loop has exactly the usable ways as keys |
| Predictor.PredictionsMeaning | predict_road_condition.py:348-391 | each usable way holds its own outcome; a failure is some way's failure |
| Predictor.PredictionsStopAtFailure | predict_road_condition.py:348-391 | an exception for a way ends the first loop with it |
| Predictor.PredictUsable | predict_road_condition.py:348-391 | the first loop computes the predictions of the usable ways and records them in order |
| Predictor.ZeroFillKeys | predict_road_condition.py:394-395 | the second loop adds the partly present ways to the keys |
| Predictor.ZeroFillMeaning | predict_road_condition.py:394-395 | after the second loop those ways read 0 and the others keep their prediction |
| Predictor.ZeroRest | predict_road_condition.py:394-395 | the second loop sets each partly present way to 0 and appends it to the key order |
| Predictor.GatheredKeys | predict_road_condition.py:345-395 | the dict handed to the search has every way of some day as a key, in the order usable then rest, with the rest at 0 |
| Predictor.GatheredPredictions | predict_road_condition.py:348-391 | before the search, a usable way holds its own prediction |
| Predictor.ComputeSpeedDict | predict_road_condition.py:294-401 | a failing way fails the call; otherwise the result is the search's outcome on the gathered dict |
| Predictor.KeptMatchesLoaded | predict_road_condition.py:169-185 | there is one kept weight per loaded day |
| Predictor.DayWeights | predict_road_condition.py:185 | the reassigned weights are empty or one per loaded day |
| Predictor.LoadHistory | predict_road_condition.py:169-186 | the loaded matrices are the days that loaded, in order, and their weights are reassigned from the missing days |
| Predictor.BinIndexIsFloor | predict_road_condition.py:464-465 | the bin index is the floor of the seconds of the day over the bin width in seconds |
| Predictor.BinIndexInDay | predict_road_condition.py:464-465 | a time of day falls in one of the day's bins |
| Predictor.PredictRoadCondition | predict_road_condition.py:450-496 | day and weight lists of different lengths give -1; no loaded day gives the error dict; otherwise the result is the outcome of `compute_speed_dict` for the bin of the time |
| Batch.SpeedRatio | script/generate_prediction_in_large_batches.py:31-35 | with a positive limit the ratio times the limit is the speed; otherwise the ratio is 1.0 |
| Batch.RoadSpeedsSucceed | script/generate_prediction_in_large_batches.py:30-43 | `road_speed` is built exactly when every predicted way's type has an average limit |
| Batch.RoadSpeedsEntry | script/generate_prediction_in_large_batches.py:30-43 | a way appears exactly when it is predicted and in the final way table, with its speed and its ratio to its type's limit |
| Batch.RoadSpeedsFailure | script/generate_prediction_in_large_batches.py:30-31 | a failure names the first way whose type has no limit |
| Batch.RoadSpeedsFromFailure | script/generate_prediction_in_large_batches.py:30-31 | a missing limit ends the loop with it |
| Batch.RoadSpeedTable | script/generate_prediction_in_large_batches.py:30-43 | the loop builds that table |
| Batch.Slice | script/generate_prediction_in_large_batches.py:24 | Python's clamped string slice equals Dafny's slice inside the bounds, and is empty past the end |
| Batch.PredictTimeRange | script/generate_prediction_in_large_batches.py:24-27 | for an 8-character date and a non-negative bin, the text has 24 characters |
| Batch.PredictTimeRangeLayout | script/generate_prediction_in_large_batches.py:24-27 | the text reads "YYYY-MM-DD HH:MM - HH:MM", with the date's digits in place; the clocks read the bin's first and last minutes, modulo one day |
| Batch.PredictTimeRangeClocks | script/generate_prediction_in_large_batches.py:24-27 | the start clock reads idx * width and the end clock reads (idx + 1) * width - 1, modulo one day |
| Batch.FirstBinAtMidnight | script/generate_prediction_in_large_batches.py:24-27 | bin 0 starts at 00:00 |
| Batch.BinsAdjoin | script/generate_prediction_in_large_batches.py:24-27 | each bin ends one minute before the next starts, so the bins of a day leave no gap |
| Batch.LastBinBeforeMidnight | script/generate_prediction_in_large_batches.py:24-27 | when the width divides the day, the last bin ends at 23:59 |
| Batch.PointsMeaning | script/generate_prediction_in_large_batches.py:60-62 | a way's points are found exactly when all its nodes are known; then there is one [lat, lng] per node, in order; otherwise the error names an unknown node |
| Batch.PointsFirstMissing | script/generate_prediction_in_large_batches.py:61-62 | the error is the first unknown node |
| Batch.WayPoints | script/generate_prediction_in_large_batches.py:60-62 | the inner loop builds the points |
| Batch.WayStructureSucceeds | script/generate_prediction_in_large_batches.py:58-63 | `way_structure` is built exactly when every node of every way is known |
| Batch.WayStructureEntries | script/generate_prediction_in_large_batches.py:58-63 | it has exactly the ways of the final way table, each with the points of its nodes |
| Batch.WayStructureFromFailure | script/generate_prediction_in_large_batches.py:58-63 | an unknown node ends the outer loop with it |
| Batch.GenerateWayStructure | script/generate_prediction_in_large_batches.py:53-70 | the outer loop builds `way_structure` |
| Batch.KeptMapHasAllPoints | script/generate_prediction_in_large_batches.py:58-63 | for tables produced by `get_map_data` from an extract whose ways have all their nodes, `way_structure` is always built |
| Batch.ExportBin | script/generate_prediction_in_large_batches.py:119-125 | one pass predicts the bin and exports it, or stops with the prediction's or the export's error |
| Batch.ExportDay | script/generate_prediction_in_large_batches.py:117-125 | the bins are exported in order; without an error there is one export per bin of the day, and an error stops at the first failing bin |
| Batch.ExportedGrows | script/generate_prediction_in_large_batches.py:117-125 | one more exported bin extends the exported prefix of the day |
| Batch.GeneratePredictionInLargeBatches | script/generate_prediction_in_large_batches.py:73-127 | mismatched lists give -1; no loaded day gives the error dict; otherwise every bin index in [0, 1440 / width) is exported in order, or the run stops at the first failing bin |
| TimeFormat.TwoDigits | helper/helper_time_range_index_to_str.py:7 | two zero-padded digits that read back as n |
| TimeFormat.HourOf | helper/helper_time_range_index_to_str.py:5 | the hour lies in [0, 24) |
| TimeFormat.MinuteOf | helper/helper_time_range_index_to_str.py:6 | the minute lies in [0, 60) |
| TimeFormat.TimeRangeIndexToStr | helper/helper_time_range_index_to_str.py:3-7 | the text has length 4 + len(delimiter), with the delimiter between the hour and the minute |
| TimeFormat.ClockReadsMinuteOfDay | helper/helper_time_range_index_to_str.py:4-6 | hour and minute denote t modulo one day |
| TimeFormat.TimeRangeIndexToStrReadsBack | helper/helper_time_range_index_to_str.py:3-7 | the text reads back as idx * width + offset modulo one day |
| TimeFormat.TimeRangeIndexToTimeRangeStr | helper/helper_time_range_index_to_str.py:10-17 | a negative start gives "all day average"; otherwise "start - end", the start reading its first minute and the end reading end * width - 1, modulo one day |
| TimeFormat.MidnightWraps | helper/helper_time_range_index_to_str.py:4-7 | minute 1440 renders "00:00" |
| TimeFormat.MinusOneWraps | helper/helper_time_range_index_to_str.py:4-7 | minute -1 renders "23:59" |
| SpeedMap.ScanRange | helper/debug_show_traffic_speed_map.py:42-51 | a negative start scans the whole row; otherwise start..end inclusive; a range reaching past the row fails exactly then, at the first index beyond the row |
| SpeedMap.PositiveIndices | helper/debug_show_traffic_speed_map.py:43-55 | exactly the indices of the range with a positive entry, in increasing order |
| SpeedMap.RunningMeanStep | helper/debug_show_traffic_speed_map.py:44-46 | the running update by the i-th sample gives the mean of the longer sequence |
| SpeedMap.SamplesAtPositiveIndices | helper/debug_show_traffic_speed_map.py:43-55 | the collected speeds and times are those of the positive indices |
| SpeedMap.GetTrafficSpeedData | helper/debug_show_traffic_speed_map.py:10-57 | a range past the row raises `IndexError` at the first index beyond it; otherwise `sample_speed` holds exactly the positive entries of the scanned range in order; `sample_time` holds their clock strings; `road_speed` is their mean, or 0 when there is none |
| SpeedMap.TrafficSpeedPositiveIffData | helper/debug_show_traffic_speed_map.py:40-57 | the road speed is positive exactly when the scanned range holds a positive entry |
| SpeedMap.EffectiveLimit | helper/debug_show_traffic_speed_map.py:79-80 | a non-positive limit counts as 30, and a positive one is kept |
| SpeedMap.GetTrafficSpeedColor | helper/debug_show_traffic_speed_map.py:60-91 | green at 20% of the limit or more, yellow from 10%, red from 5%, dark red above 0, and gray exactly when the speed is <= 0 |

## Left out

- File, pickle, CSV and JSON input and output are not modelled:
  - `read_speed_matrix_from_file`;
  - the `.p` and `.csv` probing in `get_history_speed_matrix_list`;
  - `graph_reader` and `graph_writer`;
  - the directory listing and output files of `find_traffic_speed`;
  - `json.dump`.

  Loaded data are inputs instead. A day whose file is missing is `None`. A
  data file is a sequence of parsed pings.
- The parsing of a ping line is not modelled: the clock slice of column 10,
  and `int`/`float` on the columns. The unused fifth column
  (`seconds / 300`) is dropped.
- Wall clock and calendar are parameters:
  - `datetime.now` and `fromtimestamp` give the seconds of the day and the
    recent-data threshold;
  - `strftime` gives the date strings;
  - `timedelta` gives the days-back number of a task.
- The `generate_timestr` and `generate_timestamp` fields of the exported
  JSON are left out, because they read the clock.
- The exported speeds and ratios are not rounded with `round(x, 2)`,
  because the model is over exact reals.
- The conversion of JSON keys to strings is not modelled.
- Floating point is modelled as exact reals.
- `math.sqrt` is a parameter constrained by `IsSqrt`.
- The trigonometric `distance_old` and `distance_accurate` are not part of
  this model.
- Rendering, debug and progress output are not part of this model:
  - `map_popup_generate` and `show_traffic_speed*`;
  - the folium debug block of `find_nearest_road`;
  - debug prints and `tqdm`.
- The osmium callbacks of `OSMHandler` are not part of this model, including
  the filter that keeps relations whose name contains "NFTA". `get_map_data`
  receives the parsed nodes, ways and relations.
- In the speed derivation, `find_nearest_road` and `distance` are function
  parameters. The model does not tie them to `Matcher.FindNearestRoad` and
  `Distance.Dist`.
- Matcher.Project: it does not prove that distinct edge ends always give a
  projection. The solver would not close the real-arithmetic step
  `u0*u0 + u1*u1 != 0`. `EndpointsProjectToThemselves` and
  `ProjectionUnique` therefore require a successful projection.
- Matcher.FindNearestRoad: the source returns `min_way = -1` as "no way".
  The model assumes -1 is not a way id, so looking it up raises.
- Matcher.FindNearestRoad requires every node of every way to be in the node
  table. The source would raise `KeyError` otherwise, and the tables of
  `get_map_data` satisfy this.
- Predictor.EstimateNoDataRoadSpeed requires the map data to be consistent
  (`GraphReady`) before a search runs:
  - every neighbour is a way of the graph and of `way_types`;
  - every type has an average limit.

  This asks more than the source needs. The source looks up only the ways
  the search visits and the neighbours with a positive speed, and it looks
  up a limit only for a non-positive way. Data that is inconsistent only
  outside those lookups runs in the source but is outside the model. A
  failed lookup is not modelled as an error value.
- Batch.GeneratePredictionInLargeBatches requires that same consistency for
  every bin, for the same reason.
- Predictor.PredictWay requires `weights == [] || |matrices| <= |weights|`.
  `LoadHistory` always produces weights of that shape.
- Predictor.EstimateMissingValue and Predictor.EstimateNoDataRoadSpeed
  return the updated list or dict. The source updates its argument in
  place and returns it, and the model does not capture that aliasing.
- Predictor.BinIndex requires a positive bin width. The source divides by
  it without a check.
- Batch.GeneratePredictionInLargeBatches requires a positive bin width for
  the same reason: `int(1440 / interval)` has no check either.
- Predictor.PredictRoadCondition requires a clock time below 86400 seconds.
- HistoryData.RoundDownToIntervalIndex requires a positive bin width that
  divides 1440. This is what the source's documentation demands, and it is
  never checked there.
- The `interval` and `max_idx` of `compute_speed_dict` are unused in the
  source, and they are left out.
- The history range split uses `1440 // 15`, which is 96, as the code
  computes it.
