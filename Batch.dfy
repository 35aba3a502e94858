/** The per-bin export and the whole-day batch of
    script/generate_prediction_in_large_batches.py: each bin's predicted
    dict becomes a `road_speed` table keyed by the ways of the final way
    table, the way table becomes a table of point lists, and the batch runs
    the prediction for every bin of the day. */
module Batch {
  import opened Wrappers
  import opened Dicts
  import TimeFormat
  import Predictor
  import OsmTables

  /** One `road_speed` entry: the predicted speed and its ratio to the
      average limit of the way's type. */
  datatype RoadSpeed = RoadSpeed(speed: real, ratio: real)

  /** The `KeyError`s the export raises: a way type without an average
      limit, or a way listing a node the node table lacks. */
  datatype ExportError =
    | MissingLimit(way: int, wayType: string)
    | MissingNode(way: int, node: int)

  /** `speed_ratio`: the speed over the limit when the limit is positive,
      1.0 otherwise. */
  function SpeedRatio(speed: real, limit: real): (r: real)
    ensures limit > 0.0 ==> r * limit == speed
    ensures limit <= 0.0 ==> r == 1.0
  {
    if limit > 0.0 then speed / limit else 1.0
  }

  // ----- road_speed (predict_speed_dict_to_json) -----

  /** The `road_speed` table built by iterating the predicted dict in its
      key order; the limit of every way's type is looked up, also for ways
      the final way table lacks. */
  function RoadSpeeds(order: seq<int>, speeds: map<int, real>, wayTable: map<int, seq<int>>,
                      types: map<int, string>, limits: map<string, real>): Result<map<int, RoadSpeed>, ExportError>
    requires forall k :: 0 <= k < |order| ==> order[k] in speeds
    decreases |order|
  {
    if order == [] then Success(map[])
    else
      match RoadSpeeds(order[..|order| - 1], speeds, wayTable, types, limits)
      case Failure(e) => Failure(e)
      case Success(table) =>
        var way := order[|order| - 1];
        var wayType := Predictor.TypeOf(types, way);
        if wayType !in limits then Failure(MissingLimit(way, wayType))
        else if way in wayTable then
          Success(table[way := RoadSpeed(speeds[way], SpeedRatio(speeds[way], limits[wayType]))])
        else Success(table)
  }

  /** Every way of the order has a type with an average limit. */
  predicate AllLimited(order: seq<int>, types: map<int, string>, limits: map<string, real>)
  {
    forall k :: 0 <= k < |order| ==> Predictor.TypeOf(types, order[k]) in limits
  }

  /** The table is built exactly when every way's type has a limit. */
  lemma {:induction false} RoadSpeedsSucceed(order: seq<int>, speeds: map<int, real>, wayTable: map<int, seq<int>>,
                                             types: map<int, string>, limits: map<string, real>)
    requires forall k :: 0 <= k < |order| ==> order[k] in speeds
    ensures RoadSpeeds(order, speeds, wayTable, types, limits).Success? <==> AllLimited(order, types, limits)
    decreases |order|
  {
    if order != [] {
      var front := order[..|order| - 1];
      RoadSpeedsSucceed(front, speeds, wayTable, types, limits);
      assert forall k :: 0 <= k < |front| ==> order[k] == front[k];
    }
  }

  /** A built table holds the ways that are both predicted and in the
      final way table, each with its predicted speed and that speed's
      ratio to the limit of its type. */
  lemma {:induction false} RoadSpeedsEntry(order: seq<int>, speeds: map<int, real>, wayTable: map<int, seq<int>>,
                                           types: map<int, string>, limits: map<string, real>, w: int)
    requires forall k :: 0 <= k < |order| ==> order[k] in speeds
    requires RoadSpeeds(order, speeds, wayTable, types, limits).Success?
    ensures var table := RoadSpeeds(order, speeds, wayTable, types, limits).value;
            && (w in table <==> w in order && w in wayTable)
            && (w in table ==>
                  w in speeds && Predictor.TypeOf(types, w) in limits
                  && table[w] == RoadSpeed(speeds[w], SpeedRatio(speeds[w], limits[Predictor.TypeOf(types, w)])))
    decreases |order|
  {
    if order != [] {
      var front := order[..|order| - 1];
      var last := order[|order| - 1];
      RoadSpeedsEntry(front, speeds, wayTable, types, limits, w);
      assert w in order <==> w in front || w == last by {
        assert order == front + [last];
      }
    }
  }

  /** A failed table names the first way whose type has no limit. */
  lemma {:induction false} RoadSpeedsFailure(order: seq<int>, speeds: map<int, real>, wayTable: map<int, seq<int>>,
                                             types: map<int, string>, limits: map<string, real>)
    requires forall k :: 0 <= k < |order| ==> order[k] in speeds
    requires RoadSpeeds(order, speeds, wayTable, types, limits).Failure?
    ensures exists k :: 0 <= k < |order|
              && RoadSpeeds(order, speeds, wayTable, types, limits).error
                 == MissingLimit(order[k], Predictor.TypeOf(types, order[k]))
              && Predictor.TypeOf(types, order[k]) !in limits
              && AllLimited(order[..k], types, limits)
    decreases |order|
  {
    var front := order[..|order| - 1];
    var last := |order| - 1;
    if RoadSpeeds(front, speeds, wayTable, types, limits).Failure? {
      RoadSpeedsFailure(front, speeds, wayTable, types, limits);
      var k :| 0 <= k < |front|
               && RoadSpeeds(front, speeds, wayTable, types, limits).error
                  == MissingLimit(front[k], Predictor.TypeOf(types, front[k]))
               && Predictor.TypeOf(types, front[k]) !in limits
               && AllLimited(front[..k], types, limits);
      assert order[k] == front[k] && order[..k] == front[..k];
    } else {
      RoadSpeedsSucceed(front, speeds, wayTable, types, limits);
      assert order[..last] == front;
    }
  }

  /** The `road_speed` loop of `predict_speed_dict_to_json`. */
  method RoadSpeedTable(order: seq<int>, speeds: map<int, real>, wayTable: map<int, seq<int>>,
                        types: map<int, string>, limits: map<string, real>)
    returns (r: Result<map<int, RoadSpeed>, ExportError>)
    requires IsKeyOrder(order, speeds)
    ensures r == RoadSpeeds(order, speeds, wayTable, types, limits)
  {
    var table: map<int, RoadSpeed> := map[];
    var i := 0;
    while i < |order|
      invariant 0 <= i <= |order|
      invariant RoadSpeeds(order[..i], speeds, wayTable, types, limits) == Success(table)
    {
      var way := order[i];
      assert order[..i + 1][..i] == order[..i];
      var wayType := Predictor.TypeOf(types, way);
      if wayType !in limits {
        assert order[..i + 1] == order[..i] + [way];
        RoadSpeedsFromFailure(order, speeds, wayTable, types, limits, i + 1);
        assert order[..|order|] == order;
        return Failure(MissingLimit(way, wayType));
      }
      var ratio := SpeedRatio(speeds[way], limits[wayType]);
      if way in wayTable {
        table := table[way := RoadSpeed(speeds[way], ratio)];
      }
      i := i + 1;
    }
    assert order[..i] == order;
    r := Success(table);
  }

  /** Once a prefix of the order fails, the whole table fails the same
      way. */
  lemma {:induction false} RoadSpeedsFromFailure(order: seq<int>, speeds: map<int, real>, wayTable: map<int, seq<int>>,
                                                  types: map<int, string>, limits: map<string, real>, n: nat)
    requires forall k :: 0 <= k < |order| ==> order[k] in speeds
    requires 0 < n <= |order|
    requires RoadSpeeds(order[..n], speeds, wayTable, types, limits).Failure?
    ensures forall m :: n <= m <= |order| ==>
              RoadSpeeds(order[..m], speeds, wayTable, types, limits)
              == RoadSpeeds(order[..n], speeds, wayTable, types, limits)
    decreases |order| - n
  {
    if n < |order| {
      assert order[..n + 1][..n] == order[..n];
      RoadSpeedsFromFailure(order, speeds, wayTable, types, limits, n + 1);
    }
  }

  // ----- predict_time_range -----

  /** Python's `s[lo:hi]` for 0 <= lo: the bounds are clamped to the
      string. */
  function Slice(s: string, lo: nat, hi: nat): (r: string)
    ensures lo <= hi <= |s| ==> r == s[lo..hi]
    ensures |s| <= lo ==> r == []
  {
    if |s| <= lo || hi <= lo then [] else s[lo..if hi < |s| then hi else |s|]
  }

  /** `predict_time_range`: the date "YYYYMMDD" rewritten "YYYY-MM-DD",
      then the bin's clock range with ":" between hours and minutes. */
  function PredictTimeRange(date: string, idx: int, interval: int): (r: string)
    ensures |date| == 8 && idx >= 0 ==> |r| == 24
  {
    Slice(date, 0, 4) + "-" + Slice(date, 4, 6) + "-" + Slice(date, 6, |date|) + " "
      + TimeFormat.TimeRangeIndexToTimeRangeStr(idx, idx + 1, interval, ":")
  }

  /** For an eight-character date and a bin of the day, the field reads
      "YYYY-MM-DD HH:MM - HH:MM": the date's digits in place, the start
      clock reading the bin's first minute and the end clock its last one,
      modulo one day. */
  lemma PredictTimeRangeLayout(date: string, idx: int, interval: int)
    requires |date| == 8 && idx >= 0
    ensures var r := PredictTimeRange(date, idx, interval);
            && |r| == 24
            && r[..4] == date[..4] && r[4] == '-' && r[5..7] == date[4..6] && r[7] == '-'
            && r[8..10] == date[6..] && r[10] == ' ' && r[16..19] == " - "
            && TimeFormat.ReadClock(r[11..16], 1) == (idx * interval) % TimeFormat.MinutesPerDay
            && TimeFormat.ReadClock(r[19..], 1) == ((idx + 1) * interval - 1) % TimeFormat.MinutesPerDay
  {
    var range := TimeFormat.TimeRangeIndexToTimeRangeStr(idx, idx + 1, interval, ":");
    var head := date[..4] + "-" + date[4..6] + "-" + date[6..] + " ";
    var r := PredictTimeRange(date, idx, interval);
    assert r == head + range;
    assert |head| == 11;
    assert r[11..] == range;
    assert r[16..19] == range[5..8];
    PredictTimeRangeClocks(date, idx, interval);
  }

  /** The start clock reads the bin's first minute and the end clock its
      last one, modulo one day. */
  lemma PredictTimeRangeClocks(date: string, idx: int, interval: int)
    requires |date| == 8 && idx >= 0
    ensures TimeFormat.ReadClock(PredictTimeRange(date, idx, interval)[11..16], 1)
            == (idx * interval) % TimeFormat.MinutesPerDay
    ensures TimeFormat.ReadClock(PredictTimeRange(date, idx, interval)[19..], 1)
            == ((idx + 1) * interval - 1) % TimeFormat.MinutesPerDay
  {
    var range := TimeFormat.TimeRangeIndexToTimeRangeStr(idx, idx + 1, interval, ":");
    var r := PredictTimeRange(date, idx, interval);
    assert r == date[..4] + "-" + date[4..6] + "-" + date[6..] + " " + range;
    assert r[11..16] == range[..5];
    assert r[19..] == range[8..];
  }

  /** The first bin of the day starts at 00:00. */
  lemma FirstBinAtMidnight(date: string, interval: int)
    requires |date| == 8
    ensures TimeFormat.ReadClock(PredictTimeRange(date, 0, interval)[11..16], 1) == 0
  {
    PredictTimeRangeClocks(date, 0, interval);
  }

  /** Each bin ends one minute before the next one starts, modulo one
      day: the bins of a day leave no gap and do not overlap. */
  lemma BinsAdjoin(date: string, interval: int, idx: nat)
    requires |date| == 8
    ensures var end := TimeFormat.ReadClock(PredictTimeRange(date, idx, interval)[19..], 1);
            var next := TimeFormat.ReadClock(PredictTimeRange(date, idx + 1, interval)[11..16], 1);
            (end + 1) % TimeFormat.MinutesPerDay == next
  {
    var t := (idx + 1) * interval;
    PredictTimeRangeClocks(date, idx, interval);
    PredictTimeRangeClocks(date, idx + 1, interval);
    var end := TimeFormat.ReadClock(PredictTimeRange(date, idx, interval)[19..], 1);
    var next := TimeFormat.ReadClock(PredictTimeRange(date, idx + 1, interval)[11..16], 1);
    NextMinute(t, end, next);
  }

  /** When the width divides the day, the last bin ends at 23:59. */
  lemma LastBinBeforeMidnight(date: string, interval: int)
    requires |date| == 8 && 0 < interval && 1440 % interval == 0
    ensures TimeFormat.ReadClock(PredictTimeRange(date, Bins(interval) - 1, interval)[19..], 1) == 1439
  {
    var last := Bins(interval) - 1;
    assert (last + 1) * interval == 1440;
    PredictTimeRangeClocks(date, last, interval);
  }

  /** The minute before t, moved on by one, is t, modulo one day. */
  lemma NextMinute(t: int, end: int, next: int)
    requires end == (t - 1) % TimeFormat.MinutesPerDay && next == t % TimeFormat.MinutesPerDay
    ensures (end + 1) % TimeFormat.MinutesPerDay == next
  {
  }

  // ----- generate_way_structure_json -----

  /** The points of a way, `[lat, lng]` per node in order, or the first
      node the node table lacks. */
  function Points(nodes: seq<int>, nodeTable: map<int, (real, real)>): Result<seq<(real, real)>, int>
    decreases |nodes|
  {
    if nodes == [] then Success([])
    else
      match Points(nodes[..|nodes| - 1], nodeTable)
      case Failure(n) => Failure(n)
      case Success(points) =>
        var node := nodes[|nodes| - 1];
        if node in nodeTable then Success(points + [nodeTable[node]]) else Failure(node)
  }

  /** The points are found exactly when every node is in the node table;
      then there is one per node, its coordinates in the node's place. */
  lemma {:induction false} PointsMeaning(nodes: seq<int>, nodeTable: map<int, (real, real)>)
    ensures var r := Points(nodes, nodeTable);
            && (r.Success? <==> forall k :: 0 <= k < |nodes| ==> nodes[k] in nodeTable)
            && (r.Success? ==> (&& |r.value| == |nodes|
                                && forall k :: 0 <= k < |nodes| ==> r.value[k] == nodeTable[nodes[k]]))
            && (r.Failure? ==> r.error in nodes && r.error !in nodeTable)
    decreases |nodes|
  {
    if nodes != [] {
      var front := nodes[..|nodes| - 1];
      PointsMeaning(front, nodeTable);
      assert forall k :: 0 <= k < |front| ==> nodes[k] == front[k];
      if Points(front, nodeTable).Failure? {
        var k :| 0 <= k < |front| && front[k] == Points(front, nodeTable).error;
        assert nodes[k] == front[k];
      }
    }
  }

  /** The points found so far, extended by one node. */
  lemma PointsStep(nodes: seq<int>, nodeTable: map<int, (real, real)>, i: nat, points: seq<(real, real)>)
    requires i < |nodes| && Points(nodes[..i], nodeTable) == Success(points)
    ensures Points(nodes[..i + 1], nodeTable)
            == if nodes[i] in nodeTable then Success(points + [nodeTable[nodes[i]]]) else Failure(nodes[i])
  {
    assert nodes[..i + 1][..i] == nodes[..i];
  }

  /** The inner loop of `generate_way_structure_json`. */
  method WayPoints(nodes: seq<int>, nodeTable: map<int, (real, real)>) returns (r: Result<seq<(real, real)>, int>)
    ensures r == Points(nodes, nodeTable)
  {
    var points: seq<(real, real)> := [];
    var i := 0;
    while i < |nodes|
      invariant 0 <= i <= |nodes|
      invariant Points(nodes[..i], nodeTable) == Success(points)
    {
      PointsStep(nodes, nodeTable, i, points);
      if nodes[i] !in nodeTable {
        PointsMeaning(nodes, nodeTable);
        PointsMeaning(nodes[..i + 1], nodeTable);
        PointsFirstMissing(nodes, nodeTable, i);
        return Failure(nodes[i]);
      }
      points := points + [nodeTable[nodes[i]]];
      i := i + 1;
    }
    assert nodes[..i] == nodes;
    r := Success(points);
  }

  /** When the first `i` nodes are present and node `i` is not, the points
      fail at node `i`. */
  lemma {:induction false} PointsFirstMissing(nodes: seq<int>, nodeTable: map<int, (real, real)>, i: nat)
    requires i < |nodes| && nodes[i] !in nodeTable && Points(nodes[..i], nodeTable).Success?
    ensures Points(nodes, nodeTable) == Failure(nodes[i])
    decreases |nodes| - i
  {
    PointsStep(nodes, nodeTable, i, Points(nodes[..i], nodeTable).value);
    PointsFailureStays(nodes, nodeTable, i + 1);
    assert nodes[..|nodes|] == nodes;
  }

  lemma {:induction false} PointsFailureStays(nodes: seq<int>, nodeTable: map<int, (real, real)>, n: nat)
    requires 0 < n <= |nodes| && Points(nodes[..n], nodeTable).Failure?
    ensures forall m :: n <= m <= |nodes| ==> Points(nodes[..m], nodeTable) == Points(nodes[..n], nodeTable)
    decreases |nodes| - n
  {
    if n < |nodes| {
      assert nodes[..n + 1][..n] == nodes[..n];
      PointsFailureStays(nodes, nodeTable, n + 1);
    }
  }

  /** `way_structure`, built by iterating the final way table in its key
      order. */
  function WayStructure(order: seq<int>, wayTable: map<int, seq<int>>, nodeTable: map<int, (real, real)>)
    : Result<map<int, seq<(real, real)>>, ExportError>
    requires forall k :: 0 <= k < |order| ==> order[k] in wayTable
    decreases |order|
  {
    if order == [] then Success(map[])
    else
      match WayStructure(order[..|order| - 1], wayTable, nodeTable)
      case Failure(e) => Failure(e)
      case Success(structure) =>
        var way := order[|order| - 1];
        match Points(wayTable[way], nodeTable)
        case Failure(n) => Failure(MissingNode(way, n))
        case Success(points) => Success(structure[way := points])
  }

  /** Every node of every listed way is in the node table. */
  predicate AllNodesKnown(order: seq<int>, wayTable: map<int, seq<int>>, nodeTable: map<int, (real, real)>)
    requires forall k :: 0 <= k < |order| ==> order[k] in wayTable
  {
    forall k, j :: 0 <= k < |order| && 0 <= j < |wayTable[order[k]]| ==> wayTable[order[k]][j] in nodeTable
  }

  /** The structure is built exactly when every node of every way is
      known. */
  lemma {:induction false} WayStructureSucceeds(order: seq<int>, wayTable: map<int, seq<int>>,
                                                nodeTable: map<int, (real, real)>)
    requires forall k :: 0 <= k < |order| ==> order[k] in wayTable
    ensures WayStructure(order, wayTable, nodeTable).Success? <==> AllNodesKnown(order, wayTable, nodeTable)
    decreases |order|
  {
    if order != [] {
      var front := order[..|order| - 1];
      var way := order[|order| - 1];
      WayStructureSucceeds(front, wayTable, nodeTable);
      PointsMeaning(wayTable[way], nodeTable);
      if !AllNodesKnown(front, wayTable, nodeTable) {
        var k, j :| 0 <= k < |front| && 0 <= j < |wayTable[front[k]]| && wayTable[front[k]][j] !in nodeTable;
        assert order[k] == front[k];
      } else if !AllNodesKnown(order, wayTable, nodeTable) {
        var k, j :| 0 <= k < |order| && 0 <= j < |wayTable[order[k]]| && wayTable[order[k]][j] !in nodeTable;
        assert forall i :: 0 <= i < |front| ==> order[i] == front[i];
      }
    }
  }

  /** A built structure has the listed ways, each with one point per
      node. */
  lemma {:induction false} WayStructureEntries(order: seq<int>, wayTable: map<int, seq<int>>,
                                               nodeTable: map<int, (real, real)>, w: int)
    requires forall k :: 0 <= k < |order| ==> order[k] in wayTable
    requires WayStructure(order, wayTable, nodeTable).Success?
    ensures var structure := WayStructure(order, wayTable, nodeTable).value;
            && (w in structure <==> w in order)
            && (w in structure ==> w in wayTable && Points(wayTable[w], nodeTable) == Success(structure[w]))
    decreases |order|
  {
    if order != [] {
      var front := order[..|order| - 1];
      var way := order[|order| - 1];
      WayStructureEntries(front, wayTable, nodeTable, w);
      assert order == front + [way];
    }
  }

  /** The outer loop of `generate_way_structure_json`. */
  method GenerateWayStructure(order: seq<int>, wayTable: map<int, seq<int>>, nodeTable: map<int, (real, real)>)
    returns (r: Result<map<int, seq<(real, real)>>, ExportError>)
    requires IsKeyOrder(order, wayTable)
    ensures r == WayStructure(order, wayTable, nodeTable)
  {
    var structure: map<int, seq<(real, real)>> := map[];
    var i := 0;
    while i < |order|
      invariant 0 <= i <= |order|
      invariant WayStructure(order[..i], wayTable, nodeTable) == Success(structure)
    {
      var way := order[i];
      assert order[..i + 1][..i] == order[..i];
      var points := WayPoints(wayTable[way], nodeTable);
      if points.Failure? {
        WayStructureFromFailure(order, wayTable, nodeTable, i + 1);
        assert order[..|order|] == order;
        return Failure(MissingNode(way, points.error));
      }
      structure := structure[way := points.value];
      i := i + 1;
    }
    assert order[..i] == order;
    r := Success(structure);
  }

  lemma {:induction false} WayStructureFromFailure(order: seq<int>, wayTable: map<int, seq<int>>,
                                                   nodeTable: map<int, (real, real)>, n: nat)
    requires forall k :: 0 <= k < |order| ==> order[k] in wayTable
    requires 0 < n <= |order| && WayStructure(order[..n], wayTable, nodeTable).Failure?
    ensures forall m :: n <= m <= |order| ==>
              WayStructure(order[..m], wayTable, nodeTable) == WayStructure(order[..n], wayTable, nodeTable)
    decreases |order| - n
  {
    if n < |order| {
      assert order[..n + 1][..n] == order[..n];
      WayStructureFromFailure(order, wayTable, nodeTable, n + 1);
    }
  }

  /** When every node a way of the map lists is in the map, the tables
      `get_map_data` keeps give every kept way all its points: filtering
      the nodes never drops a node of a kept way. */
  lemma KeptMapHasAllPoints(nodes: seq<OsmTables.OsmNode>, ways: seq<OsmTables.OsmWay>,
                            relations: seq<OsmTables.OsmRelation>, order: seq<int>)
    requires var wayTable := OsmTables.TableOf(OsmTables.WayEntries(ways));
             forall w, j :: w in wayTable && 0 <= j < |wayTable[w]| ==>
               wayTable[w][j] in OsmTables.TableOf(OsmTables.NodeEntries(nodes))
    requires IsKeyOrder(order, OsmTables.MapDataOf(nodes, ways, relations).wayTable)
    ensures var data := OsmTables.MapDataOf(nodes, ways, relations);
            WayStructure(order, data.wayTable, data.nodeTable).Success?
  {
    var data := OsmTables.MapDataOf(nodes, ways, relations);
    forall k, j | 0 <= k < |order| && 0 <= j < |data.wayTable[order[k]]|
      ensures data.wayTable[order[k]][j] in data.nodeTable
    {
      OsmTables.KeptWays(nodes, ways, relations, order[k]);
      OsmTables.KeptNodes(nodes, ways, relations, data.wayTable[order[k]][j]);
    }
    WayStructureSucceeds(order, data.wayTable, data.nodeTable);
  }

  // ----- generate_prediction_in_large_batches -----

  /** One exported bin: the fields of the JSON file the clock does not
      decide. */
  datatype Export = Export(interval: int, idx: int, timeRange: string, roadSpeed: map<int, RoadSpeed>)

  /** What stops the batch part-way: a prediction error or an export
      error. */
  datatype BatchError = PredictFailed(cause: Predictor.PredictError) | ExportFailed(reason: ExportError)

  /** What the batch leaves: -1 for mismatched day offsets and weights,
      the error dict when no day loads, the files written before an error,
      or every bin's file and 0. */
  datatype BatchOutcome =
    | MismatchedConfig
    | NoHistory
    | Crashed(written: seq<Export>, error: BatchError)
    | Finished(written: seq<Export>)

  /** Everything the batch loop reads. */
  datatype Setting = Setting(
    matrices: seq<Predictor.Matrix>, weights: seq<real>, offsets: seq<int>,
    usableOrder: seq<int>, restOrder: seq<int>,
    graph: Predictor.Graph, types: map<int, string>, limits: map<string, real>,
    wayTable: map<int, seq<int>>, date: string, interval: int)

  /** The number of bins: `int(1440 / interval)`. */
  function Bins(interval: int): nat
    requires interval > 0
  {
    1440 / interval
  }

  /** What `compute_speed_dict` needs of the loaded history and the way
      orders. */
  predicate Ready(s: Setting)
  {
    && Weighted(s)
    && Distinct(s.usableOrder) && Distinct(s.restOrder)
    && (forall k :: 0 <= k < |s.restOrder| ==> s.restOrder[k] !in s.usableOrder)
  }

  /** A weight for every loaded day, or no weight at all. */
  predicate Weighted(s: Setting)
  {
    s.weights == [] || |s.matrices| <= |s.weights|
  }

  function GatheredAt(s: Setting, idx: nat): Result<(seq<int>, map<int, real>), Predictor.PredictError>
    requires Weighted(s)
  {
    Predictor.Gathered(s.matrices, s.usableOrder, s.restOrder, idx, s.offsets, s.weights)
  }

  /** The search of bin `idx` has what it needs. */
  predicate SearchReadyAt(s: Setting, idx: nat)
    requires Weighted(s)
  {
    var g := GatheredAt(s, idx);
    g.Success? ==> Predictor.SearchReady(g.value.0, g.value.1, s.graph, s.types, s.limits)
  }

  /** Bin `idx` was predicted into `result` and exported as `e`. */
  ghost predicate Exported(s: Setting, idx: nat, e: Export, result: (seq<int>, map<int, real>), visited: seq<int>)
    requires Weighted(s)
  {
    var g := GatheredAt(s, idx);
    && g.Success?
    && Predictor.GapFilled(g.value.0, g.value.1, s.graph, s.types, s.limits, result.0, result.1, visited)
    && e.interval == s.interval && e.idx == idx && e.timeRange == PredictTimeRange(s.date, idx, s.interval)
    && RoadSpeeds(result.0, result.1, s.wayTable, s.types, s.limits) == Success(e.roadSpeed)
  }

  /** Bin `idx` stopped the batch with `error`: its prediction failed, or
      its prediction `result` could not be exported. */
  ghost predicate Stopped(s: Setting, idx: nat, error: BatchError, result: (seq<int>, map<int, real>), visited: seq<int>)
    requires Weighted(s)
  {
    var g := GatheredAt(s, idx);
    || (g.Failure? && error == PredictFailed(g.error))
    || (&& g.Success?
        && Predictor.GapFilled(g.value.0, g.value.1, s.graph, s.types, s.limits, result.0, result.1, visited)
        && var table := RoadSpeeds(result.0, result.1, s.wayTable, s.types, s.limits);
           table.Failure? && error == ExportFailed(table.error))
  }

  /** One pass of the batch loop: `compute_speed_dict`, then the
      `road_speed` table of `predict_speed_dict_to_json`. */
  method ExportBin(s: Setting, idx: nat)
    returns (r: Result<Export, BatchError>, ghost result: (seq<int>, map<int, real>), ghost visited: seq<int>)
    requires Ready(s) && SearchReadyAt(s, idx)
    ensures r.Success? ==> Exported(s, idx, r.value, result, visited)
    ensures r.Failure? ==> Stopped(s, idx, r.error, result, visited)
  {
    var c;
    c, visited := Predictor.ComputeSpeedDict(idx, s.matrices, s.usableOrder, s.restOrder, s.offsets, s.weights,
                                             s.graph, s.types, s.limits);
    if c.Failure? {
      return Failure(PredictFailed(c.error)), ([], map[]), visited;
    }
    var predicted := c.value;
    result := predicted;
    var timeRange := PredictTimeRange(s.date, idx, s.interval);
    var table := RoadSpeedTable(predicted.0, predicted.1, s.wayTable, s.types, s.limits);
    if table.Failure? {
      return Failure(ExportFailed(table.error)), result, visited;
    }
    r := Success(Export(s.interval, idx, timeRange, table.value));
  }

  /** The first bins of the day, each predicted and exported in turn. */
  ghost predicate AllExported(s: Setting, written: seq<Export>, results: seq<(seq<int>, map<int, real>)>,
                              visits: seq<seq<int>>)
    requires Weighted(s)
  {
    && |written| <= |results| && |written| <= |visits|
    && forall i :: 0 <= i < |written| ==> Exported(s, i, written[i], results[i], visits[i])
  }

  /** The loop over the bins of the day, stopping at the first error. */
  method ExportDay(s: Setting)
    returns (written: seq<Export>, error: Option<BatchError>,
             ghost results: seq<(seq<int>, map<int, real>)>, ghost visits: seq<seq<int>>)
    requires s.interval > 0 && Ready(s)
    requires forall idx :: 0 <= idx < Bins(s.interval) ==> SearchReadyAt(s, idx)
    ensures AllExported(s, written, results, visits)
    ensures error.None? ==> |written| == Bins(s.interval)
    ensures error.Some? ==>
              && |written| < Bins(s.interval) && |written| < |results| && |written| < |visits|
              && Stopped(s, |written|, error.value, results[|written|], visits[|written|])
  {
    written, error, results, visits := [], None, [], [];
    var idx := 0;
    while idx < Bins(s.interval)
      invariant 0 <= idx <= Bins(s.interval)
      invariant |written| == |results| == |visits| == idx
      invariant AllExported(s, written, results, visits)
    {
      var r, result, visited := ExportBin(s, idx);
      results, visits := results + [result], visits + [visited];
      if r.Failure? {
        return written, Some(r.error), results, visits;
      }
      ExportedGrows(s, written, results[..idx], visits[..idx], r.value, result, visited);
      assert results == results[..idx] + [result] && visits == visits[..idx] + [visited];
      written := written + [r.value];
      idx := idx + 1;
    }
  }

  /** One more exported bin extends the exported prefix of the day. */
  lemma ExportedGrows(s: Setting, written: seq<Export>, results: seq<(seq<int>, map<int, real>)>,
                      visits: seq<seq<int>>, e: Export, result: (seq<int>, map<int, real>), visited: seq<int>)
    requires Weighted(s) && AllExported(s, written, results, visits)
    requires |written| == |results| == |visits| && Exported(s, |written|, e, result, visited)
    ensures AllExported(s, written + [e], results + [result], visits + [visited])
  {
    var n := |written|;
    forall i | 0 <= i <= n
      ensures Exported(s, i, (written + [e])[i], (results + [result])[i], (visits + [visited])[i])
    {
      if i < n {
        assert (written + [e])[i] == written[i];
        assert (results + [result])[i] == results[i];
        assert (visits + [visited])[i] == visits[i];
        assert Exported(s, i, written[i], results[i], visits[i]);
      } else {
        assert (written + [e])[i] == e && (results + [result])[i] == result && (visits + [visited])[i] == visited;
      }
    }
  }

  /** The order of the usable ways and the order of the other ways share
      no way. */
  lemma OrdersApart(usableOrder: seq<int>, restOrder: seq<int>, usable: set<int>, full: set<int>)
    requires IsSetOrder(usableOrder, usable) && IsSetOrder(restOrder, full - usable)
    ensures forall k :: 0 <= k < |restOrder| ==> restOrder[k] !in usableOrder
  {
    forall k | 0 <= k < |restOrder|
      ensures restOrder[k] !in usableOrder
    {
      assert restOrder[k] !in usable;
    }
  }

  /** The batch's setting once the history has loaded. */
  function SettingOf(days: seq<Option<Predictor.Matrix>>, weights: seq<real>, offsets: seq<int>, interval: int,
                     usableOrder: seq<int>, restOrder: seq<int>, graph: Predictor.Graph, types: map<int, string>,
                     limits: map<string, real>, wayTable: map<int, seq<int>>, date: string): Setting
    requires |days| == |weights|
  {
    Setting(Predictor.Loaded(days), Predictor.DayWeights(days, weights), offsets, usableOrder, restOrder,
            graph, types, limits, wayTable, date, interval)
  }

  /** `generate_prediction_in_large_batches` once the map data, the days
      and the date are in hand: the guards, the loading of the history,
      the way sets, then one prediction and one export per bin. */
  method GeneratePredictionInLargeBatches(days: seq<Option<Predictor.Matrix>>, weights: seq<real>, offsets: seq<int>,
                                          interval: int, usableOrder: seq<int>, restOrder: seq<int>,
                                          graph: Predictor.Graph, types: map<int, string>, limits: map<string, real>,
                                          wayTable: map<int, seq<int>>, date: string)
    returns (outcome: BatchOutcome, ghost results: seq<(seq<int>, map<int, real>)>, ghost visits: seq<seq<int>>)
    requires interval > 0
    requires var keys := Predictor.KeySets(Predictor.Loaded(days));
             && IsSetOrder(usableOrder, Predictor.UsableWays(keys))
             && IsSetOrder(restOrder, Predictor.FullWays(keys) - Predictor.UsableWays(keys))
    requires |days| == |weights| ==>
               var s := SettingOf(days, weights, offsets, interval, usableOrder, restOrder, graph, types, limits,
                                  wayTable, date);
               forall idx :: 0 <= idx < Bins(interval) ==> SearchReadyAt(s, idx)
    ensures |days| != |weights| ==> outcome == MismatchedConfig
    ensures |days| == |weights| && Predictor.Loaded(days) == [] ==> outcome == NoHistory
    ensures |days| == |weights| && Predictor.Loaded(days) != [] ==>
              var s := SettingOf(days, weights, offsets, interval, usableOrder, restOrder, graph, types, limits,
                                 wayTable, date);
              && (outcome.Finished? || outcome.Crashed?)
              && AllExported(s, outcome.written, results, visits)
              && (outcome.Finished? ==> |outcome.written| == Bins(interval))
              && (outcome.Crashed? ==>
                    var n := |outcome.written|;
                    n < Bins(interval) && n < |results| && n < |visits| && Stopped(s, n, outcome.error, results[n], visits[n]))
  {
    if |days| != |weights| {
      return MismatchedConfig, [], [];
    }
    var matrices, dayWeights := Predictor.LoadHistory(days, weights);
    if |matrices| == 0 {
      return NoHistory, [], [];
    }
    var full, usable := Predictor.GetWayIdSet(matrices);
    var s := Setting(matrices, dayWeights, offsets, usableOrder, restOrder, graph, types, limits, wayTable, date, interval);
    assert s == SettingOf(days, weights, offsets, interval, usableOrder, restOrder, graph, types, limits, wayTable, date);
    OrdersApart(usableOrder, restOrder, usable, full);
    var written, error;
    written, error, results, visits := ExportDay(s);
    if error.Some? {
      outcome := Crashed(written, error.value);
    } else {
      outcome := Finished(written);
    }
    assert outcome.written == written;
  }
}
