/** History-weighted speed prediction (predict_road_condition.py): the speed
    of a way at a time bin is a weighted sum over past days' speed matrices,
    with missing days' weights reassigned, missing bins filled from nearby
    bins or estimated, and ways without data filled by a breadth-first
    search over the way graph. */
module Predictor {
  import opened Wrappers
  import SpeedMap
  import Strings
  import opened Dicts

  /** A day's speed matrix: way id to its row of bin speeds. */
  type Matrix = map<int, seq<real>>

  function Sum(s: seq<real>): real
  {
    SpeedMap.Sum(s)
  }

  // ---------------------------------------------------------------------
  // `reassign_weight`

  /** The weights whose index is not missing, in order. */
  function Kept(weights: seq<real>, missing: set<int>): (kept: seq<real>)
    ensures |kept| <= |weights|
  {
    if weights == [] then []
    else
      var i := |weights| - 1;
      if i in missing then Kept(weights[..i], missing) else Kept(weights[..i], missing) + [weights[i]]
  }

  /** Every index outside the missing set keeps its weight. */
  lemma {:induction false} KeptAll(weights: seq<real>, missing: set<int>)
    requires forall i :: 0 <= i < |weights| ==> i !in missing
    ensures Kept(weights, missing) == weights
  {
    if weights != [] {
      KeptAll(weights[..|weights| - 1], missing);
    }
  }

  /** Each kept weight scaled by total / remaining. */
  function Rescaled(kept: seq<real>, remain: real, total: real): seq<real>
    requires remain != 0.0
  {
    seq(|kept|, k requires 0 <= k < |kept| => (kept[k] / remain) * total)
  }

  lemma RescaledSnoc(kept: seq<real>, x: real, remain: real, total: real)
    requires remain != 0.0
    ensures Rescaled(kept + [x], remain, total) == Rescaled(kept, remain, total) + [(x / remain) * total]
  {
    var a := Rescaled(kept + [x], remain, total);
    var b := Rescaled(kept, remain, total) + [(x / remain) * total];
    forall k | 0 <= k < |a|
      ensures a[k] == b[k]
    {
      if k < |kept| {
        assert b[k] == (kept[k] / remain) * total;
      }
    }
  }

  /** What `reassign_weight` returns: the kept weights rescaled so they sum
      to the original total, or nothing when the kept weights sum to 0. */
  function Reassigned(weights: seq<real>, missing: set<int>): (r: seq<real>)
    ensures r == [] <==> Sum(Kept(weights, missing)) == 0.0 || Kept(weights, missing) == []
  {
    var remain := Sum(Kept(weights, missing));
    if remain != 0.0 then Rescaled(Kept(weights, missing), remain, Sum(weights)) else []
  }

  /** The two loops of `reassign_weight`. */
  method ReassignWeight(weights: seq<real>, missing: set<int>) returns (r: seq<real>)
    ensures r == Reassigned(weights, missing)
  {
    var remain, total := WeightTotals(weights, missing);
    r := [];
    if remain != 0.0 {
      r := RescaleKept(weights, missing, remain, total);
    }
  }

  /** The first loop: the kept weight and the total weight. */
  method WeightTotals(weights: seq<real>, missing: set<int>) returns (remain: real, total: real)
    ensures remain == Sum(Kept(weights, missing)) && total == Sum(weights)
  {
    remain, total := 0.0, 0.0;
    var i := 0;
    while i < |weights|
      invariant 0 <= i <= |weights|
      invariant remain == Sum(Kept(weights[..i], missing))
      invariant total == Sum(weights[..i])
    {
      assert weights[..i + 1][..i] == weights[..i];
      if i !in missing {
        remain := remain + weights[i];
      }
      total := total + weights[i];
      i := i + 1;
    }
    assert weights[..i] == weights;
  }

  /** The second loop: each kept weight over the kept total, times the
      total. */
  method RescaleKept(weights: seq<real>, missing: set<int>, remain: real, total: real) returns (r: seq<real>)
    requires remain != 0.0
    ensures r == Rescaled(Kept(weights, missing), remain, total)
  {
    r := [];
    var i := 0;
    while i < |weights|
      invariant 0 <= i <= |weights|
      invariant r == Rescaled(Kept(weights[..i], missing), remain, total)
    {
      assert weights[..i + 1][..i] == weights[..i];
      if i !in missing {
        RescaleStep(weights, missing, i, remain, total);
        r := r + [(weights[i] / remain) * total];
      } else {
        assert Kept(weights[..i + 1], missing) == Kept(weights[..i], missing);
      }
      i := i + 1;
    }
    assert weights[..i] == weights;
  }

  lemma RescaleStep(weights: seq<real>, missing: set<int>, i: int, remain: real, total: real)
    requires 0 <= i < |weights| && i !in missing && remain != 0.0
    ensures Rescaled(Kept(weights[..i + 1], missing), remain, total) ==
            Rescaled(Kept(weights[..i], missing), remain, total) + [(weights[i] / remain) * total]
  {
    assert weights[..i + 1][..i] == weights[..i];
    var kept := Kept(weights[..i], missing);
    assert Kept(weights[..i + 1], missing) == kept + [weights[i]];
    RescaledSnoc(kept, weights[i], remain, total);
    var a := Rescaled(kept + [weights[i]], remain, total);
    var b := Rescaled(kept, remain, total) + [(weights[i] / remain) * total];
    assert a[..|a| - 1] == b[..|b| - 1];
    assert a[|a| - 1] == b[|b| - 1];
  }

  lemma RescaledSumStep(s: real, x: real, remain: real, total: real)
    requires remain != 0.0
    ensures (s / remain) * total + (x / remain) * total == ((s + x) / remain) * total
  {
    assert s / remain + x / remain == (s + x) / remain;
  }

  lemma {:induction false} RescaledSum(kept: seq<real>, remain: real, total: real)
    requires remain != 0.0
    ensures Sum(Rescaled(kept, remain, total)) == (Sum(kept) / remain) * total
  {
    if kept == [] {
    } else {
      var prefix := kept[..|kept| - 1];
      var x := kept[|kept| - 1];
      RescaledSum(prefix, remain, total);
      assert kept == prefix + [x];
      RescaledSnoc(prefix, x, remain, total);
      var r := Rescaled(kept, remain, total);
      assert r[..|r| - 1] == Rescaled(prefix, remain, total);
      RescaledSumStep(Sum(prefix), x, remain, total);
    }
  }

  /** Reassignment keeps the total weight. */
  lemma ReassignKeepsTotal(weights: seq<real>, missing: set<int>)
    requires Sum(Kept(weights, missing)) != 0.0
    ensures Sum(Reassigned(weights, missing)) == Sum(weights)
  {
    var remain := Sum(Kept(weights, missing));
    RescaledSum(Kept(weights, missing), remain, Sum(weights));
    SelfShare(remain, Sum(weights));
  }

  /** With no missing day and a non-zero total, the weights come back
      unchanged. */
  lemma ReassignNothingMissing(weights: seq<real>, missing: set<int>)
    requires forall i :: 0 <= i < |weights| ==> i !in missing
    requires Sum(weights) != 0.0
    ensures Reassigned(weights, missing) == weights
  {
    KeptAll(weights, missing);
    var r := Reassigned(weights, missing);
    forall k | 0 <= k < |weights|
      ensures r[k] == weights[k]
    {
      DivThenMul(weights[k], Sum(weights));
    }
  }

  lemma SelfShare(t: real, total: real)
    requires t != 0.0
    ensures (t / t) * total == total
  {
  }

  lemma DivThenMul(x: real, t: real)
    requires t != 0.0
    ensures (x / t) * t == x
  {
  }

  // ---------------------------------------------------------------------
  // `compute_predict_speed` and `estimate_missing_value`

  /** The dot product of the first n speeds with the first n weights. */
  function Dot(speeds: seq<real>, weights: seq<real>, n: nat): real
    requires n <= |speeds| <= |weights|
  {
    if n == 0 then 0.0 else Dot(speeds, weights, n - 1) + speeds[n - 1] * weights[n - 1]
  }

  /** `compute_predict_speed`: the accumulating loop. */
  method ComputePredictSpeed(speeds: seq<real>, weights: seq<real>) returns (speed: real)
    requires |weights| >= |speeds|
    ensures speed == Dot(speeds, weights, |speeds|)
  {
    speed := 0.0;
    var i := 0;
    while i < |speeds|
      invariant 0 <= i <= |speeds|
      invariant speed == Dot(speeds, weights, i)
    {
      speed := speed + speeds[i] * weights[i];
      i := i + 1;
    }
  }

  /** When every day has the same speed v, the prediction is v times the
      sum of the weights. */
  lemma {:induction false} DotOfConstant(speeds: seq<real>, weights: seq<real>, v: real, n: nat)
    requires n <= |speeds| <= |weights|
    requires forall i :: 0 <= i < |speeds| ==> speeds[i] == v
    ensures Dot(speeds, weights, n) == v * Sum(weights[..n])
  {
    if n > 0 {
      DotOfConstant(speeds, weights, v, n - 1);
      assert weights[..n][..n - 1] == weights[..n - 1];
    }
  }

  /** The weight of the days that have data, over the first n days. */
  function RemainWeight(weights: seq<real>, need: set<int>, n: nat): real
    requires n <= |weights|
  {
    if n == 0 then 0.0 else RemainWeight(weights, need, n - 1) + (if n - 1 in need then 0.0 else weights[n - 1])
  }

  /** The weighted sum of the days that have data, over the first n days. */
  function WeightedSum(speeds: seq<real>, weights: seq<real>, need: set<int>, n: nat): real
    requires n <= |speeds| <= |weights|
  {
    if n == 0 then 0.0
    else WeightedSum(speeds, weights, need, n - 1) + (if n - 1 in need then 0.0 else speeds[n - 1] * weights[n - 1])
  }

  /** The speeds with each day to estimate replaced by `mean` times its
      weight. */
  function Filled(speeds: seq<real>, need: set<int>, weights: seq<real>, mean: real): (r: seq<real>)
    requires |weights| >= |speeds|
  {
    seq(|speeds|, i requires 0 <= i < |speeds| => if i in need then mean * weights[i] else speeds[i])
  }

  /** What `estimate_missing_value` returns: each day to estimate becomes the
      weighted mean of the other days times its own weight, the other days
      are kept; all zeros when the other days have no weight. */
  function Estimated(speeds: seq<real>, need: set<int>, weights: seq<real>): (r: seq<real>)
    requires |weights| >= |speeds|
    ensures |r| == |speeds|
  {
    var remain := RemainWeight(weights, need, |speeds|);
    if remain != 0.0 then Filled(speeds, need, weights, WeightedSum(speeds, weights, need, |speeds|) / remain)
    else seq(|speeds|, _ => 0.0)
  }

  /** `estimate_missing_value`: the accumulating loop, then the writes to
      the days to estimate (or a list of zeros). */
  method EstimateMissingValue(speeds: seq<real>, need: set<int>, weights: seq<real>) returns (r: seq<real>)
    requires |weights| >= |speeds|
    requires forall i :: i in need ==> 0 <= i < |speeds|
    ensures r == Estimated(speeds, need, weights)
  {
    var remain, weighted := AvailableTotals(speeds, need, weights);
    if remain != 0.0 {
      weighted := weighted / remain;
      r := FillNeeded(speeds, need, weights, weighted);
    } else {
      r := seq(|speeds|, _ => 0.0);
    }
  }

  /** The first loop of `estimate_missing_value`. */
  method AvailableTotals(speeds: seq<real>, need: set<int>, weights: seq<real>) returns (remain: real, weighted: real)
    requires |weights| >= |speeds|
    ensures remain == RemainWeight(weights, need, |speeds|)
    ensures weighted == WeightedSum(speeds, weights, need, |speeds|)
  {
    remain, weighted := 0.0, 0.0;
    var i := 0;
    while i < |speeds|
      invariant 0 <= i <= |speeds|
      invariant remain == RemainWeight(weights, need, i)
      invariant weighted == WeightedSum(speeds, weights, need, i)
    {
      if i !in need {
        remain := remain + weights[i];
        weighted := weighted + speeds[i] * weights[i];
      }
      i := i + 1;
    }
  }

  /** The writes of `estimate_missing_value`: each day to estimate gets the
      mean times its weight. */
  method FillNeeded(speeds: seq<real>, need: set<int>, weights: seq<real>, mean: real) returns (r: seq<real>)
    requires |weights| >= |speeds|
    ensures r == Filled(speeds, need, weights, mean)
  {
    r := speeds;
    var i := 0;
    while i < |speeds|
      invariant 0 <= i <= |speeds| && |r| == |speeds|
      invariant forall j :: 0 <= j < i ==> r[j] == Filled(speeds, need, weights, mean)[j]
      invariant forall j :: i <= j < |speeds| ==> r[j] == speeds[j]
    {
      if i in need {
        r := r[i := mean * weights[i]];
      }
      i := i + 1;
    }
  }

  /** The sum of the squared weights of the days to estimate, over the first
      n days. */
  function NeedSquares(weights: seq<real>, need: set<int>, n: nat): real
    requires n <= |weights|
  {
    if n == 0 then 0.0 else NeedSquares(weights, need, n - 1) + (if n - 1 in need then weights[n - 1] * weights[n - 1] else 0.0)
  }

  /** The prediction after estimation counts an estimated day with the
      square of its weight: the dot product of the filled speeds is the
      weighted sum of the other days plus the mean times the sum of the
      squared weights of the estimated days. */
  lemma {:induction false} FilledDot(speeds: seq<real>, need: set<int>, weights: seq<real>, mean: real, n: nat)
    requires n <= |speeds| <= |weights|
    ensures Dot(Filled(speeds, need, weights, mean), weights, n) ==
              WeightedSum(speeds, weights, need, n) + mean * NeedSquares(weights, need, n)
  {
    if n > 0 {
      FilledDot(speeds, need, weights, mean, n - 1);
      FilledDotStep(speeds, need, weights, mean, n);
    }
  }

  /** One more day of `FilledDot`. */
  lemma FilledDotStep(speeds: seq<real>, need: set<int>, weights: seq<real>, mean: real, n: nat)
    requires 0 < n <= |speeds| <= |weights|
    requires Dot(Filled(speeds, need, weights, mean), weights, n - 1) ==
               WeightedSum(speeds, weights, need, n - 1) + mean * NeedSquares(weights, need, n - 1)
    ensures Dot(Filled(speeds, need, weights, mean), weights, n) ==
              WeightedSum(speeds, weights, need, n) + mean * NeedSquares(weights, need, n)
  {
    var filled := Filled(speeds, need, weights, mean);
    var w := weights[n - 1];
    if n - 1 in need {
      AddEstimated(Dot(filled, weights, n), Dot(filled, weights, n - 1),
                   WeightedSum(speeds, weights, need, n), WeightedSum(speeds, weights, need, n - 1),
                   NeedSquares(weights, need, n), NeedSquares(weights, need, n - 1), mean, w, filled[n - 1]);
    } else {
      AddKept(Dot(filled, weights, n), Dot(filled, weights, n - 1),
              WeightedSum(speeds, weights, need, n), WeightedSum(speeds, weights, need, n - 1),
              NeedSquares(weights, need, n), NeedSquares(weights, need, n - 1), mean, w, filled[n - 1]);
    }
  }

  /** The arithmetic of one estimated day in `FilledDot`: its filled speed
      `mean * w` counts `mean * w * w`. */
  lemma AddEstimated(dot': real, dot: real, sum': real, sum: real, squares': real, squares: real,
                     mean: real, w: real, speed: real)
    requires dot == sum + mean * squares
    requires speed == mean * w && dot' == dot + speed * w
    requires sum' == sum && squares' == squares + w * w
    ensures dot' == sum' + mean * squares'
  {
  }

  /** The arithmetic of one kept day in `FilledDot`. */
  lemma AddKept(dot': real, dot: real, sum': real, sum: real, squares': real, squares: real,
                mean: real, w: real, speed: real)
    requires dot == sum + mean * squares
    requires dot' == dot + speed * w
    requires sum' == sum + speed * w && squares' == squares
    ensures dot' == sum' + mean * squares'
  {
  }

  // ---------------------------------------------------------------------
  // `get_way_id_set`

  /** The ways of every matrix. */
  function FullWays(keys: seq<set<int>>): set<int>
  {
    if keys == [] then {} else FullWays(keys[..|keys| - 1]) + keys[|keys| - 1]
  }

  /** The running intersection, restarting from the next matrix's ways
      whenever it is empty. */
  function UsableWays(keys: seq<set<int>>): set<int>
  {
    if keys == [] then {}
    else
      var before := UsableWays(keys[..|keys| - 1]);
      if |before| <= 0 then keys[|keys| - 1] else before * keys[|keys| - 1]
  }

  /** `get_way_id_set` over the matrices. */
  method GetWayIdSet(matrices: seq<Matrix>) returns (full: set<int>, usable: set<int>)
    ensures full == FullWays(KeySets(matrices))
    ensures usable == UsableWays(KeySets(matrices))
  {
    full, usable := {}, {};
    var k := 0;
    while k < |matrices|
      invariant 0 <= k <= |matrices|
      invariant full == FullWays(KeySets(matrices[..k]))
      invariant usable == UsableWays(KeySets(matrices[..k]))
    {
      assert KeySets(matrices[..k + 1])[..k] == KeySets(matrices[..k]);
      var temp := matrices[k].Keys;
      full := full + temp;
      if |usable| <= 0 {
        usable := temp;
      } else {
        usable := usable * temp;
      }
      k := k + 1;
    }
    assert matrices[..k] == matrices;
  }

  function KeySets(matrices: seq<Matrix>): (keys: seq<set<int>>)
    ensures |keys| == |matrices|
    ensures forall k :: 0 <= k < |matrices| ==> keys[k] == matrices[k].Keys
  {
    seq(|matrices|, k requires 0 <= k < |matrices| => matrices[k].Keys)
  }

  /** A way is in the full set exactly when some matrix has it. */
  lemma {:induction false} FullWaysMeaning(keys: seq<set<int>>, w: int)
    ensures w in FullWays(keys) <==> exists k :: 0 <= k < |keys| && w in keys[k]
  {
    if keys != [] {
      var prefix := keys[..|keys| - 1];
      FullWaysMeaning(prefix, w);
      if exists k :: 0 <= k < |keys| && w in keys[k] {
        var k :| 0 <= k < |keys| && w in keys[k];
        if k < |prefix| {
          assert w in prefix[k];
        }
      }
      if exists k :: 0 <= k < |prefix| && w in prefix[k] {
        var k :| 0 <= k < |prefix| && w in prefix[k];
        assert w in keys[k];
      }
    }
  }

  /** The usable ways are among the full set. */
  lemma {:induction false} UsableWithinFull(keys: seq<set<int>>)
    ensures UsableWays(keys) <= FullWays(keys)
  {
    if keys != [] {
      UsableWithinFull(keys[..|keys| - 1]);
    }
  }

  /** A way in every matrix. */
  predicate InAll(keys: seq<set<int>>, w: int)
  {
    forall k :: 0 <= k < |keys| ==> w in keys[k]
  }

  /** When some way is in every matrix, no restart happens and the usable
      set is exactly the ways in every matrix. */
  lemma {:induction false} UsableIsIntersection(keys: seq<set<int>>, common: int, w: int)
    requires keys != [] && InAll(keys, common)
    ensures w in UsableWays(keys) <==> InAll(keys, w)
  {
    var prefix := keys[..|keys| - 1];
    var last := keys[|keys| - 1];
    assert InAll(prefix, common);
    if prefix == [] {
      assert UsableWays(prefix) == {};
      assert InAll(keys, w) <==> w in last;
    } else {
      UsableIsIntersection(prefix, common, w);
      UsableIsIntersection(prefix, common, common);
      assert common in UsableWays(prefix);
      assert |UsableWays(prefix)| > 0;
      assert UsableWays(keys) == UsableWays(prefix) * last;
      if InAll(keys, w) {
        assert InAll(prefix, w);
      }
      if InAll(prefix, w) && w in last {
        assert InAll(keys, w);
      }
    }
  }

  /** The restart in action: with matrices over ways {1}, {2}, {3}, no way
      is in all three, yet the usable set is {3}. */
  lemma UsableRestarts()
    ensures UsableWays([{1}, {2}, {3}]) == {3}
    ensures forall w :: !InAll([{1}, {2}, {3}], w)
  {
    var keys: seq<set<int>> := [{1}, {2}, {3}];
    assert keys[..2][..1] == [{1}];
    assert keys[..2] == [{1}, {2}];
    assert UsableWays([{1}]) == {1};
    assert {1} * {2} == {};
    assert UsableWays([{1}, {2}]) == {};
  }

  // ---------------------------------------------------------------------
  // `estimate_no_data_road_speed_using_BFS`

  /** The way graph: each way's adjacent ways, in adjacency-list order. */
  type Graph = map<int, seq<int>>

  /** The type assumed for a way without one. */
  const Unclassified := "unclassified"
  /** The limit assumed for a type without an average speed limit. */
  const DefaultLimit := 30.0
  /** How much faster a bus is taken to run on a motorway than on a plain
      road. */
  const MotorwayFactor := 4.0

  /** `dict.get(way, 0)`. */
  function Get(speeds: map<int, real>, way: int): real
  {
    if way in speeds then speeds[way] else 0.0
  }

  /** `way_types.get(way, "unclassified")`. */
  function TypeOf(types: map<int, string>, way: int): string
  {
    if way in types then types[way] else Unclassified
  }

  /** A motorway is any type naming "motorway", links included. */
  predicate IsMotorway(wayType: string)
  {
    Strings.Occurs("motorway", wayType)
  }

  lemma MotorwayLinks()
    ensures IsMotorway("motorway") && IsMotorway("motorway_link")
    ensures !IsMotorway("primary")
  {
    Strings.OccursInside("motorway", "", "");
    assert "" + "motorway" + "" == "motorway";
    Strings.OccursInside("motorway", "", "_link");
    assert "" + "motorway" + "_link" == "motorway_link";
  }

  /** The average limit of a way's type, or 30. */
  function LimitOrDefault(types: map<int, string>, limits: map<string, real>, way: int): real
  {
    if TypeOf(types, way) in limits then limits[TypeOf(types, way)] else DefaultLimit
  }

  predicate NonePositive(order: seq<int>, speeds: map<int, real>)
  {
    forall k :: 0 <= k < |order| ==> Get(speeds, order[k]) <= 0.0
  }

  /** `way` is the first way of the order with a positive speed. */
  predicate FirstPositiveIs(order: seq<int>, speeds: map<int, real>, way: int)
  {
    exists i :: 0 <= i < |order| && order[i] == way && Get(speeds, way) > 0.0 && NonePositive(order[..i], speeds)
  }

  /** The start of the search: the first way with a positive speed, or the
      sentinel 0. */
  function StartOf(order: seq<int>, speeds: map<int, real>): int
  {
    if order == [] then 0
    else if Get(speeds, order[0]) > 0.0 then order[0]
    else StartOf(order[1..], speeds)
  }

  /** The start is the first way with a positive speed; it is 0 when there
      is none, and also when that way is way 0. */
  lemma {:induction false} StartOfMeaning(order: seq<int>, speeds: map<int, real>)
    ensures StartOf(order, speeds) != 0 ==> FirstPositiveIs(order, speeds, StartOf(order, speeds))
    ensures StartOf(order, speeds) == 0 <==> NonePositive(order, speeds) || FirstPositiveIs(order, speeds, 0)
  {
    if order != [] {
      if Get(speeds, order[0]) > 0.0 {
        assert NonePositive(order[..0], speeds);
        assert FirstPositiveIs(order, speeds, order[0]);
      } else {
        var rest := order[1..];
        StartOfMeaning(rest, speeds);
        forall w | FirstPositiveIs(rest, speeds, w)
          ensures FirstPositiveIs(order, speeds, w)
        {
          var i :| 0 <= i < |rest| && rest[i] == w && Get(speeds, w) > 0.0 && NonePositive(rest[..i], speeds);
          assert order[..i + 1] == [order[0]] + rest[..i];
          assert NonePositive(order[..i + 1], speeds);
        }
        forall w | FirstPositiveIs(order, speeds, w)
          ensures FirstPositiveIs(rest, speeds, w)
        {
          var i :| 0 <= i < |order| && order[i] == w && Get(speeds, w) > 0.0 && NonePositive(order[..i], speeds);
          assert i > 0;
          assert rest[..i - 1] == order[1..i];
          assert NonePositive(rest[..i - 1], speeds);
        }
        if NonePositive(rest, speeds) {
          assert NonePositive(order, speeds);
        }
        if NonePositive(order, speeds) {
          assert NonePositive(rest, speeds);
        }
      }
    }
  }

  /** The first loop of the search: the first way with a positive speed. */
  method FindStart(order: seq<int>, speeds: map<int, real>) returns (start: int)
    ensures start == StartOf(order, speeds)
  {
    start := 0;
    var k := 0;
    while k < |order|
      invariant 0 <= k <= |order|
      invariant StartOf(order, speeds) == StartOf(order[k..], speeds)
    {
      if Get(speeds, order[k]) > 0.0 {
        start := order[k];
        return;
      }
      assert order[k..][1..] == order[k + 1..];
      k := k + 1;
    }
  }

  /** The no-data branch: every way gets the limit of its type, or 30. */
  method FillWithLimits(order: seq<int>, speeds: map<int, real>, types: map<int, string>, limits: map<string, real>)
    returns (filled: map<int, real>)
    requires IsKeyOrder(order, speeds)
    ensures filled.Keys == speeds.Keys
    ensures forall w :: w in filled ==> filled[w] == LimitOrDefault(types, limits, w)
  {
    filled := speeds;
    var k := 0;
    while k < |order|
      invariant 0 <= k <= |order|
      invariant filled.Keys == speeds.Keys
      invariant forall j :: 0 <= j < k ==> filled[order[j]] == LimitOrDefault(types, limits, order[j])
    {
      var wayType := if order[k] in types then types[order[k]] else Unclassified;
      filled := filled[order[k] := if wayType in limits then limits[wayType] else DefaultLimit];
      k := k + 1;
    }
    forall w | w in filled
      ensures filled[w] == LimitOrDefault(types, limits, w)
    {
      var j :| 0 <= j < |order| && order[j] == w;
    }
  }

  /** The speeds a way takes from its neighbours: a positive neighbour of the
      same motorway class counts as it is, a positive plain neighbour of a
      motorway counts four times over, a positive motorway neighbour of a
      plain way does not count. */
  function NeighbourSamples(neighbours: seq<int>, motorway: bool, speeds: map<int, real>, types: map<int, string>)
    : (samples: seq<real>)
    ensures |samples| <= |neighbours|
  {
    if neighbours == [] then []
    else
      var neighbour := neighbours[|neighbours| - 1];
      AddSample(NeighbourSamples(neighbours[..|neighbours| - 1], motorway, speeds, types),
                Get(speeds, neighbour), motorway, IsMotorway(TypeOf(types, neighbour)))
  }

  /** What one neighbour of the given speed and motorway class adds. */
  function AddSample(before: seq<real>, speed: real, motorway: bool, neighbourMotorway: bool): (after: seq<real>)
    ensures |before| <= |after| <= |before| + 1 && after[..|before|] == before
    ensures AllPositive(before) ==> AllPositive(after)
  {
    if speed <= 0.0 then before
    else if motorway == neighbourMotorway then before + [speed]
    else if motorway then before + [MotorwayFactor * speed]
    else before
  }

  predicate AllPositive(s: seq<real>)
  {
    forall k :: 0 <= k < |s| ==> s[k] > 0.0
  }

  /** Every sample is positive: only positive neighbours count, and the
      motorway factor keeps them positive. */
  lemma {:induction false} SamplesPositive(neighbours: seq<int>, motorway: bool, speeds: map<int, real>,
                                           types: map<int, string>)
    ensures AllPositive(NeighbourSamples(neighbours, motorway, speeds, types))
    decreases |neighbours|
  {
    if neighbours != [] {
      SamplesPositive(neighbours[..|neighbours| - 1], motorway, speeds, types);
    }
  }

  /** The samples depend only on the neighbours' speeds. */
  lemma {:induction false} SamplesAgree(neighbours: seq<int>, motorway: bool, a: map<int, real>, b: map<int, real>,
                                        types: map<int, string>)
    requires forall k :: 0 <= k < |neighbours| ==> Get(a, neighbours[k]) == Get(b, neighbours[k])
    ensures NeighbourSamples(neighbours, motorway, a, types) == NeighbourSamples(neighbours, motorway, b, types)
  {
    if neighbours != [] {
      var prefix := neighbours[..|neighbours| - 1];
      assert forall k :: 0 <= k < |prefix| ==> prefix[k] == neighbours[k];
      SamplesAgree(prefix, motorway, a, b, types);
      var last := neighbours[|neighbours| - 1];
      assert Get(a, last) == Get(b, last);
    }
  }

  /** The inner loop over the neighbours of the current way. */
  method CollectSamples(neighbours: seq<int>, motorway: bool, speeds: map<int, real>, types: map<int, string>)
    returns (samples: seq<real>)
    requires forall k :: 0 <= k < |neighbours| ==> neighbours[k] in types
    ensures samples == NeighbourSamples(neighbours, motorway, speeds, types)
  {
    samples := [];
    var k := 0;
    while k < |neighbours|
      invariant 0 <= k <= |neighbours|
      invariant samples == NeighbourSamples(neighbours[..k], motorway, speeds, types)
    {
      assert neighbours[..k + 1][..k] == neighbours[..k];
      var neighbour := neighbours[k];
      var speed := if neighbour in speeds then speeds[neighbour] else 0.0;
      if speed > 0.0 {
        if motorway == IsMotorway(types[neighbour]) {
          samples := samples + [speed];
        } else if motorway {
          samples := samples + [MotorwayFactor * speed];
        }
      }
      k := k + 1;
    }
    assert neighbours[..k] == neighbours;
  }

  /** A way's samples: those of its neighbours, then its type's limit. */
  function Samples(way: int, view: map<int, real>, graph: Graph, types: map<int, string>, limits: map<string, real>)
    : seq<real>
    requires way in graph && TypeOf(types, way) in limits
  {
    NeighbourSamples(graph[way], IsMotorway(TypeOf(types, way)), view, types) + [limits[TypeOf(types, way)]]
  }

  /** The samples of a way with a positive limit are positive, and there is
      at least one: the limit itself. */
  lemma SamplesNonEmptyPositive(way: int, view: map<int, real>, graph: Graph, types: map<int, string>,
                                limits: map<string, real>)
    requires way in graph && TypeOf(types, way) in limits && limits[TypeOf(types, way)] > 0.0
    ensures var samples := Samples(way, view, graph, types, limits);
            samples != [] && AllPositive(samples)
  {
    var before := NeighbourSamples(graph[way], IsMotorway(TypeOf(types, way)), view, types);
    SamplesPositive(graph[way], IsMotorway(TypeOf(types, way)), view, types);
    var samples := before + [limits[TypeOf(types, way)]];
    forall k | 0 <= k < |samples|
      ensures samples[k] > 0.0
    {
      if k < |before| {
        assert samples[k] == before[k];
      }
    }
  }

  /** The speed a visited way ends with: its own when positive, otherwise
      the mean of its samples as seen at its visit. */
  function Settled(way: int, before: map<int, real>, view: map<int, real>,
                   graph: Graph, types: map<int, string>, limits: map<string, real>): real
    requires way in graph && TypeOf(types, way) in limits
  {
    if Get(before, way) > 0.0 then Get(before, way) else SpeedMap.Mean(Samples(way, view, graph, types, limits))
  }

  /** The speeds as the search sees them once the ways of `done` are
      visited: theirs from `after`, the others' from `before`. */
  function View(before: map<int, real>, after: map<int, real>, done: seq<int>): map<int, real>
  {
    map w | w in before.Keys + (set x | x in done) :: if w in done then Get(after, w) else before[w]
  }

  lemma GetView(before: map<int, real>, after: map<int, real>, done: seq<int>, w: int)
    ensures Get(View(before, after, done), w) == if w in done then Get(after, w) else Get(before, w)
  {
  }

  /** What the search needs of the map data: adjacency lists that stay
      inside the graph, and a type with an average limit for every way. */
  predicate GraphReady(graph: Graph, types: map<int, string>, limits: map<string, real>)
  {
    && Closed(graph)
    && (forall w :: w in graph ==> w in types && types[w] in limits)
  }

  /** Every adjacency list names ways of the graph. */
  predicate Closed(graph: Graph)
  {
    forall w, k :: w in graph && 0 <= k < |graph[w]| ==> graph[w][k] in graph
  }

  lemma ReadyNeighbours(graph: Graph, types: map<int, string>, limits: map<string, real>, way: int)
    requires GraphReady(graph, types, limits) && way in graph
    ensures forall k :: 0 <= k < |graph[way]| ==> graph[way][k] in graph && graph[way][k] in types
  {
    forall k | 0 <= k < |graph[way]|
      ensures graph[way][k] in graph && graph[way][k] in types
    {
      var w := graph[way][k];
      assert w in graph;
      assert w in types && types[w] in limits;
    }
  }

  /** One visit: the way joins the dict with 0 if absent, and a non-positive
      way takes the mean of its samples. */
  method Visit(cur: int, order: seq<int>, speeds: map<int, real>,
               graph: Graph, types: map<int, string>, limits: map<string, real>)
    returns (order': seq<int>, speeds': map<int, real>)
    requires GraphReady(graph, types, limits) && cur in graph
    ensures order' == if cur in speeds then order else order + [cur]
    ensures speeds' == speeds[cur := Settled(cur, speeds, speeds, graph, types, limits)]
  {
    order', speeds' := order, speeds;
    var motorway := IsMotorway(types[cur]);
    if cur !in speeds' {
      speeds' := speeds'[cur := 0.0];
      order' := order' + [cur];
    }
    assert forall w :: Get(speeds', w) == Get(speeds, w);
    var nodeSpeed := speeds'[cur];
    if nodeSpeed <= 0.0 {
      ReadyNeighbours(graph, types, limits, cur);
      var samples := CollectSamples(graph[cur], motorway, speeds', types);
      SamplesAgree(graph[cur], motorway, speeds', speeds, types);
      samples := samples + [limits[TypeOf(types, cur)]];
      ghost var before := speeds';
      speeds' := speeds'[cur := SpeedMap.Sum(samples) / (|samples| as real)];
      assert speeds' == before[cur := SpeedMap.Mean(samples)];
      assert Settled(cur, speeds, speeds, graph, types, limits) == SpeedMap.Mean(samples);
      assert before[cur := SpeedMap.Mean(samples)] == speeds[cur := SpeedMap.Mean(samples)];
    } else {
      assert speeds' == speeds;
      assert Settled(cur, speeds, speeds, graph, types, limits) == speeds[cur];
    }
  }

  /** The ways of `neighbours` not yet explored, each once, in order. */
  function Discover(neighbours: seq<int>, explored: set<int>): (added: seq<int>)
    ensures forall x :: x in added <==> x in neighbours && x !in explored
    ensures Distinct(added)
  {
    if neighbours == [] then []
    else
      var before := Discover(neighbours[..|neighbours| - 1], explored);
      var x := neighbours[|neighbours| - 1];
      assert neighbours == neighbours[..|neighbours| - 1] + [x];
      if x in explored || x in before then before else before + [x]
  }

  /** The last loop of a visit: unexplored neighbours join the queue. */
  method Enqueue(neighbours: seq<int>, queue: seq<int>, explored: set<int>) returns (queue': seq<int>, explored': set<int>)
    ensures queue' == queue + Discover(neighbours, explored)
    ensures explored' == explored + (set x | x in neighbours)
  {
    queue', explored' := queue, explored;
    var k := 0;
    while k < |neighbours|
      invariant 0 <= k <= |neighbours|
      invariant EnqueuedSoFar(neighbours, queue, explored, k, queue', explored')
    {
      EnqueueStep(neighbours, queue, explored, k, queue', explored');
      if neighbours[k] !in explored' {
        queue' := queue' + [neighbours[k]];
        explored' := explored' + {neighbours[k]};
      }
      k := k + 1;
    }
    assert neighbours[..k] == neighbours;
  }

  /** After `k` neighbours, the queue and the explored set of `Enqueue`. */
  predicate EnqueuedSoFar(neighbours: seq<int>, queue: seq<int>, explored: set<int>, k: nat,
                          queue': seq<int>, explored': set<int>)
    requires k <= |neighbours|
  {
    && queue' == queue + Discover(neighbours[..k], explored)
    && explored' == explored + (set x | x in neighbours[..k])
  }

  /** One more neighbour: it is discovered exactly when it is neither
      explored nor among the neighbours before it. */
  lemma EnqueueStep(neighbours: seq<int>, queue: seq<int>, explored: set<int>, k: nat,
                    queue': seq<int>, explored': set<int>)
    requires k < |neighbours| && EnqueuedSoFar(neighbours, queue, explored, k, queue', explored')
    ensures var x := neighbours[k];
            if x in explored' then EnqueuedSoFar(neighbours, queue, explored, k + 1, queue', explored')
            else EnqueuedSoFar(neighbours, queue, explored, k + 1, queue' + [x], explored' + {x})
  {
    var x := neighbours[k];
    assert neighbours[..k + 1] == neighbours[..k] + [x];
    assert neighbours[..k + 1][..k] == neighbours[..k];
    var longer := neighbours[..k + 1];
    assert (set y | y in longer) == (set y | y in neighbours[..k]) + {x};
  }

  /** The visited ways that were not keys before, in visit order. */
  function NewWays(visited: seq<int>, keys: set<int>): seq<int>
  {
    if visited == [] then []
    else
      var before := NewWays(visited[..|visited| - 1], keys);
      if visited[|visited| - 1] in keys then before else before + [visited[|visited| - 1]]
  }

  /** The order in which the FIFO queue visits ways: from the state where
      `visited` are done, `queue` waits and `explored` have been queued,
      pop the head, then queue its unexplored neighbours in adjacency
      order. */
  function BfsRun(graph: Graph, queue: seq<int>, explored: set<int>, visited: seq<int>): seq<int>
    requires Closed(graph) && explored <= graph.Keys
    requires forall k :: 0 <= k < |queue| ==> queue[k] in explored
    decreases graph.Keys - explored, |queue|
  {
    if queue == [] then visited
    else
      var cur := queue[0];
      var added := Discover(graph[cur], explored);
      var explored' := explored + (set x | x in graph[cur]);
      BfsProgress(graph, cur, explored);
      BfsRun(graph, queue[1..] + added, explored', visited + [cur])
  }

  /** The breadth-first visit order from `start`. */
  function BfsOrder(graph: Graph, start: int): seq<int>
    requires Closed(graph) && start in graph
  {
    BfsRun(graph, [start], {start}, [])
  }

  /** Three ways, each adjacent to the other two. */
  function Triangle(): Graph
  {
    map[1 := [2, 3], 2 := [1, 3], 3 := [1, 2]]
  }

  /** On the triangle the search from 1 visits 2 before 3, the order of 1's
      adjacency list, so 3 is settled seeing 2's new speed. */
  lemma BfsTriangle()
    ensures Closed(Triangle()) && BfsOrder(Triangle(), 1) == [1, 2, 3]
  {
    TriangleFirst();
    TriangleSecond();
    TriangleLast();
  }

  lemma TriangleFirst()
    ensures Closed(Triangle())
    ensures BfsRun(Triangle(), [1], {1}, []) == BfsRun(Triangle(), [2, 3], {1, 2, 3}, [1])
  {
    var g := Triangle();
    TriangleFirstNeighbours();
    assert [1][1..] + [2, 3] == [2, 3];
    assert [] + [1] == [1];
    assert BfsRun(g, [1], {1}, [])
        == BfsRun(g, [1][1..] + Discover(g[1], {1}), {1} + (set x | x in g[1]), [] + [1]);
  }

  /** Both neighbours of 1 are new when 1 is popped. */
  lemma TriangleFirstNeighbours()
    ensures Discover(Triangle()[1], {1}) == [2, 3]
    ensures {1} + (set x | x in Triangle()[1]) == {1, 2, 3}
  {
    assert Triangle()[1] == [2, 3];
    assert Discover([2], {1}) == [2] by {
      assert [2][..0] == [];
    }
    assert [2, 3][..1] == [2];
    assert (set x | x in [2, 3]) == {2, 3};
  }

  lemma TriangleSecond()
    ensures Closed(Triangle())
    ensures BfsRun(Triangle(), [2, 3], {1, 2, 3}, [1]) == BfsRun(Triangle(), [3], {1, 2, 3}, [1, 2])
  {
    var g := Triangle();
    assert Discover(g[2], {1, 2, 3}) == [] by {
      assert g[2][..1] == [1];
      assert g[2][..1][..0] == [];
    }
    assert {1, 2, 3} + (set x | x in g[2]) == {1, 2, 3};
    assert [2, 3][1..] + [] == [3];
  }

  lemma TriangleLast()
    ensures Closed(Triangle())
    ensures BfsRun(Triangle(), [3], {1, 2, 3}, [1, 2]) == [1, 2, 3]
  {
    var g := Triangle();
    assert Discover(g[3], {1, 2, 3}) == [] by {
      assert g[3][..1] == [1];
      assert g[3][..1][..0] == [];
    }
    assert {1, 2, 3} + (set x | x in g[3]) == {1, 2, 3};
    assert [3][1..] + [] == [];
  }

  /** Popping `cur` either queues a new way, which shrinks the unexplored
      part of the graph, or leaves the explored set as it was. */
  lemma BfsProgress(graph: Graph, cur: int, explored: set<int>)
    requires Closed(graph) && explored <= graph.Keys && cur in graph
    ensures var added := Discover(graph[cur], explored);
            var explored' := explored + (set x | x in graph[cur]);
            && explored' <= graph.Keys
            && (forall x :: x in added ==> x in explored')
            && (added == [] ==> explored' == explored)
            && (added != [] ==> graph.Keys - explored' < graph.Keys - explored)
  {
    var added := Discover(graph[cur], explored);
    var explored' := explored + (set x | x in graph[cur]);
    forall x | x in graph[cur]
      ensures x in graph
    {
      var k :| 0 <= k < |graph[cur]| && graph[cur][k] == x;
    }
    if added != [] {
      assert added[0] in graph.Keys - explored;
      assert added[0] !in graph.Keys - explored';
    }
  }

  /** What the search from `start` leaves behind: the visited ways, each
      once, starting at `start`, each reached from an earlier one and
      together closed under adjacency; the dict gains the visited ways as
      keys, in visit order; unvisited ways keep their speed; each visited
      way is settled from the speeds as they stood at its visit. */
  ghost predicate BfsFilled(order: seq<int>, speeds: map<int, real>, graph: Graph, types: map<int, string>,
                            limits: map<string, real>, start: int,
                            order': seq<int>, speeds': map<int, real>, visited: seq<int>)
    requires GraphReady(graph, types, limits)
  {
    && start in graph && visited == BfsOrder(graph, start)
    && |visited| > 0 && visited[0] == start && Distinct(visited)
    && (forall k :: 0 <= k < |visited| ==> visited[k] in graph)
    && (forall i, nb :: 0 <= i < |visited| && nb in graph[visited[i]] ==> nb in visited)
    && (forall i :: 0 < i < |visited| ==> exists j :: 0 <= j < i && visited[i] in graph[visited[j]])
    && speeds'.Keys == speeds.Keys + (set w | w in visited)
    && order' == order + NewWays(visited, speeds.Keys)
    && (forall w :: w in speeds && w !in visited ==> speeds'[w] == speeds[w])
    && AllSettled(speeds, speeds', visited, graph, types, limits)
  }

  /** Speeds that agree on `done` give the same view. */
  lemma ViewAgree(before: map<int, real>, a: map<int, real>, b: map<int, real>, done: seq<int>)
    requires forall w :: w in done ==> Get(a, w) == Get(b, w)
    ensures View(before, a, done) == View(before, b, done)
  {
  }

  /** The unchanged part of the dict during the search. */
  predicate SearchedSoFar(speeds0: map<int, real>, speeds: map<int, real>, visited: seq<int>)
  {
    && speeds.Keys == speeds0.Keys + (set w | w in visited)
    && (forall w :: w in speeds0 && w !in visited ==> speeds[w] == speeds0[w])
  }

  /** Mid-search, the dict reads as the view of the ways visited so far. */
  lemma DictIsView(speeds0: map<int, real>, speeds: map<int, real>, visited: seq<int>, w: int)
    requires SearchedSoFar(speeds0, speeds, visited)
    ensures Get(speeds, w) == Get(View(speeds0, speeds, visited), w)
  {
    GetView(speeds0, speeds, visited, w);
  }

  /** Every visited way is settled from the view of the ways visited
      before it. */
  ghost predicate AllSettled(speeds0: map<int, real>, speeds: map<int, real>, visited: seq<int>,
                             graph: Graph, types: map<int, string>, limits: map<string, real>)
    requires GraphReady(graph, types, limits)
    requires forall k :: 0 <= k < |visited| ==> visited[k] in graph
    decreases |visited|
  {
    visited == [] ||
    var earlier := visited[..|visited| - 1];
    var last := visited[|visited| - 1];
    && AllSettled(speeds0, speeds, earlier, graph, types, limits)
    && Get(speeds, last) == Settled(last, speeds0, View(speeds0, speeds, earlier), graph, types, limits)
  }

  /** Settling a new way does not disturb the ways settled before it. */
  lemma {:induction false} SettleKeepsEarlier(speeds0: map<int, real>, speeds: map<int, real>, speeds': map<int, real>,
                                              visited: seq<int>, cur: int, value: real,
                                              graph: Graph, types: map<int, string>, limits: map<string, real>)
    requires GraphReady(graph, types, limits) && cur in graph && cur !in visited
    requires forall k :: 0 <= k < |visited| ==> visited[k] in graph
    requires AllSettled(speeds0, speeds, visited, graph, types, limits)
    requires speeds' == speeds[cur := value]
    ensures AllSettled(speeds0, speeds', visited, graph, types, limits)
    decreases |visited|
  {
    if visited != [] {
      var earlier := visited[..|visited| - 1];
      var last := visited[|visited| - 1];
      assert cur !in earlier && cur != last;
      SettleKeepsEarlier(speeds0, speeds, speeds', earlier, cur, value, graph, types, limits);
      ViewAgree(speeds0, speeds, speeds', earlier);
    }
  }

  /** A way settled from the dict as it stands at its visit is settled
      from the view of the ways visited before it. */
  lemma SettleCurrent(speeds0: map<int, real>, speeds: map<int, real>, speeds': map<int, real>, visited: seq<int>,
                      cur: int, graph: Graph, types: map<int, string>, limits: map<string, real>)
    requires GraphReady(graph, types, limits) && cur in graph && cur !in visited
    requires SearchedSoFar(speeds0, speeds, visited)
    requires speeds' == speeds[cur := Settled(cur, speeds, speeds, graph, types, limits)]
    ensures Get(speeds', cur) == Settled(cur, speeds0, View(speeds0, speeds', visited), graph, types, limits)
  {
    ViewAgree(speeds0, speeds, speeds', visited);
    var view := View(speeds0, speeds, visited);
    forall k | 0 <= k < |graph[cur]|
      ensures Get(speeds, graph[cur][k]) == Get(view, graph[cur][k])
    {
      DictIsView(speeds0, speeds, visited, graph[cur][k]);
    }
    SamplesAgree(graph[cur], IsMotorway(TypeOf(types, cur)), speeds, view, types);
    assert Get(speeds, cur) == Get(speeds0, cur);
  }

  /** The queue bookkeeping of the search: visited and queued ways are
      distinct and make up the explored set, all inside the graph; the
      search starts at `start`; the neighbours of visited ways are
      explored; and every way but the start has a parent visited before
      it, of which it is a neighbour. */
  ghost predicate Frontier(graph: Graph, start: int, visited: seq<int>, queue: seq<int>, explored: set<int>,
                           parent: map<int, nat>)
  {
    && Distinct(visited) && Distinct(queue)
    && (forall k :: 0 <= k < |queue| ==> queue[k] !in visited)
    && (forall x :: x in explored <==> x in visited || x in queue)
    && explored <= graph.Keys && parent.Keys <= explored
    && (visited == [] ==> queue == [start])
    && (visited != [] ==> visited[0] == start)
    && (forall i, nb :: 0 <= i < |visited| && visited[i] in graph && nb in graph[visited[i]] ==> nb in explored)
    && (forall i :: 0 < i < |visited| ==> HasParent(graph, visited, parent, visited[i], i))
    && (visited != [] ==> forall k :: 0 <= k < |queue| ==> HasParent(graph, visited, parent, queue[k], |visited|))
  }

  /** `way` is a neighbour of the visited way `parent[way]`, which comes
      before position `bound`. */
  ghost predicate HasParent(graph: Graph, visited: seq<int>, parent: map<int, nat>, way: int, bound: int)
  {
    way in parent && parent[way] < bound && parent[way] < |visited| && visited[parent[way]] in graph
    && way in graph[visited[parent[way]]]
  }

  ghost function NextParent(parent: map<int, nat>, added: seq<int>, index: nat): map<int, nat>
  {
    map x | x in parent.Keys + (set y | y in added) :: if x in parent then parent[x] else index
  }

  /** The way at the head of the queue is a way of the graph, not yet
      visited. */
  lemma FrontierPop(graph: Graph, start: int, visited: seq<int>, queue: seq<int>, explored: set<int>,
                    parent: map<int, nat>)
    requires Frontier(graph, start, visited, queue, explored, parent) && queue != []
    ensures queue[0] in graph && queue[0] !in visited
  {
    assert queue[0] in explored;
  }

  /** After a turn, visited and queued ways are still distinct and still
      make up the explored set. */
  lemma FrontierLists(graph: Graph, types: map<int, string>, limits: map<string, real>, start: int,
                      visited: seq<int>, queue: seq<int>, explored: set<int>, parent: map<int, nat>)
    requires GraphReady(graph, types, limits) && Frontier(graph, start, visited, queue, explored, parent)
    requires queue != [] && queue[0] in graph
    ensures var cur := queue[0];
            var added := Discover(graph[cur], explored);
            var explored' := explored + (set x | x in graph[cur]);
            var visited', queue' := visited + [cur], queue[1..] + added;
            && Distinct(visited') && Distinct(queue')
            && (forall k :: 0 <= k < |queue'| ==> queue'[k] !in visited')
            && (forall x :: x in explored' <==> x in visited' || x in queue')
            && explored' <= graph.Keys
  {
    var cur := queue[0];
    ReadyNeighbours(graph, types, limits, cur);
    var added := Discover(graph[cur], explored);
    var explored' := explored + (set x | x in graph[cur]);
    var visited', queue' := visited + [cur], queue[1..] + added;
    assert forall k :: 0 <= k < |queue| - 1 ==> queue[1..][k] == queue[k + 1];
    DistinctAppend(visited, [cur]);
    DistinctAppend(queue[1..], added);
    forall k | 0 <= k < |queue'|
      ensures queue'[k] !in visited'
    {
      if k < |queue| - 1 {
        assert queue'[k] == queue[k + 1];
      } else {
        assert queue'[k] in added;
      }
    }
    forall x
      ensures x in explored' <==> x in visited' || x in queue'
    {
      if x in queue {
        assert x == cur || x in queue[1..];
      }
    }
  }

  /** After a turn, the neighbours of every visited way are explored. */
  lemma FrontierClosure(graph: Graph, start: int, visited: seq<int>, queue: seq<int>, explored: set<int>,
                        parent: map<int, nat>)
    requires Frontier(graph, start, visited, queue, explored, parent)
    requires queue != [] && queue[0] in graph
    ensures var cur := queue[0];
            var explored' := explored + (set x | x in graph[cur]);
            var visited' := visited + [cur];
            forall i, nb :: 0 <= i < |visited'| && visited'[i] in graph && nb in graph[visited'[i]] ==> nb in explored'
  {
    var cur := queue[0];
    var explored' := explored + (set x | x in graph[cur]);
    var visited' := visited + [cur];
    forall i, nb | 0 <= i < |visited'| && visited'[i] in graph && nb in graph[visited'[i]]
      ensures nb in explored'
    {
      if i < |visited| {
        assert visited'[i] == visited[i];
      }
    }
  }

  /** A parent recorded before a turn stays a parent after it. */
  lemma ParentKept(graph: Graph, visited: seq<int>, parent: map<int, nat>, way: int, bound: int,
                   cur: int, added: seq<int>)
    requires HasParent(graph, visited, parent, way, bound)
    ensures HasParent(graph, visited + [cur], NextParent(parent, added, |visited|), way, bound)
  {
    var parent' := NextParent(parent, added, |visited|);
    assert parent'[way] == parent[way];
    assert (visited + [cur])[parent[way]] == visited[parent[way]];
  }

  /** A way first queued by `cur` has `cur` as its parent. */
  lemma ParentNew(graph: Graph, visited: seq<int>, parent: map<int, nat>, way: int, cur: int, added: seq<int>)
    requires cur in graph && way in added && way in graph[cur] && way !in parent
    ensures HasParent(graph, visited + [cur], NextParent(parent, added, |visited|), way, |visited| + 1)
  {
    var parent' := NextParent(parent, added, |visited|);
    assert parent'[way] == |visited|;
    assert (visited + [cur])[|visited|] == cur;
  }

  /** After a turn, every way but the start still has a parent visited
      before it. */
  lemma FrontierParents(graph: Graph, start: int, visited: seq<int>, queue: seq<int>, explored: set<int>,
                        parent: map<int, nat>)
    requires Frontier(graph, start, visited, queue, explored, parent)
    requires queue != [] && queue[0] in graph
    ensures var cur := queue[0];
            var added := Discover(graph[cur], explored);
            var visited', queue' := visited + [cur], queue[1..] + added;
            var parent' := NextParent(parent, added, |visited|);
            && (forall i :: 0 < i < |visited'| ==> HasParent(graph, visited', parent', visited'[i], i))
            && (forall k :: 0 <= k < |queue'| ==> HasParent(graph, visited', parent', queue'[k], |visited'|))
            && parent'.Keys <= explored + (set x | x in graph[cur])
  {
    var cur := queue[0];
    var added := Discover(graph[cur], explored);
    var visited', queue' := visited + [cur], queue[1..] + added;
    var parent' := NextParent(parent, added, |visited|);
    forall i | 0 < i < |visited'|
      ensures HasParent(graph, visited', parent', visited'[i], i)
    {
      if i < |visited| {
        ParentKept(graph, visited, parent, visited[i], i, cur, added);
      } else {
        ParentKept(graph, visited, parent, cur, |visited|, cur, added);
      }
    }
    forall k | 0 <= k < |queue'|
      ensures HasParent(graph, visited', parent', queue'[k], |visited'|)
    {
      if k < |queue| - 1 {
        assert queue'[k] == queue[k + 1];
        ParentKept(graph, visited, parent, queue[k + 1], |visited|, cur, added);
      } else {
        var way := queue'[k];
        assert way in added;
        ParentNew(graph, visited, parent, way, cur, added);
      }
    }
  }

  /** A turn that queues a way explores it, so the unexplored part of the
      graph shrinks; otherwise the explored set stays as it was. */
  lemma FrontierShrinks(graph: Graph, types: map<int, string>, limits: map<string, real>, start: int,
                        visited: seq<int>, queue: seq<int>, explored: set<int>, parent: map<int, nat>)
    requires GraphReady(graph, types, limits) && Frontier(graph, start, visited, queue, explored, parent)
    requires queue != [] && queue[0] in graph
    ensures var cur := queue[0];
            var added := Discover(graph[cur], explored);
            var explored' := explored + (set x | x in graph[cur]);
            && (added == [] ==> explored' == explored)
            && (added != [] ==> graph.Keys - explored' < graph.Keys - explored)
  {
    var cur := queue[0];
    ReadyNeighbours(graph, types, limits, cur);
    var added := Discover(graph[cur], explored);
    var explored' := explored + (set x | x in graph[cur]);
    if added != [] {
      assert added[0] in graph.Keys - explored;
      assert added[0] !in graph.Keys - explored';
    }
  }

  /** One turn of the queue loop keeps the bookkeeping and shrinks the
      unexplored part of the graph or the queue. */
  lemma FrontierStep(graph: Graph, types: map<int, string>, limits: map<string, real>, start: int,
                     visited: seq<int>, queue: seq<int>, explored: set<int>, parent: map<int, nat>)
    requires GraphReady(graph, types, limits) && Frontier(graph, start, visited, queue, explored, parent)
    requires queue != []
    ensures queue[0] in graph && queue[0] !in visited
    ensures var cur := queue[0];
            var added := Discover(graph[cur], explored);
            var explored' := explored + (set x | x in graph[cur]);
            && Frontier(graph, start, visited + [cur], queue[1..] + added, explored', NextParent(parent, added, |visited|))
            && (added == [] ==> explored' == explored)
            && (added != [] ==> graph.Keys - explored' < graph.Keys - explored)
  {
    FrontierPop(graph, start, visited, queue, explored, parent);
    FrontierLists(graph, types, limits, start, visited, queue, explored, parent);
    FrontierClosure(graph, start, visited, queue, explored, parent);
    FrontierParents(graph, start, visited, queue, explored, parent);
    FrontierShrinks(graph, types, limits, start, visited, queue, explored, parent);
  }

  /** What holds at the head of every turn of the queue loop. */
  ghost predicate Searching(start: int, order0: seq<int>, speeds0: map<int, real>,
                            graph: Graph, types: map<int, string>, limits: map<string, real>,
                            order: seq<int>, speeds: map<int, real>, visited: seq<int>,
                            queue: seq<int>, explored: set<int>, parent: map<int, nat>)
    requires GraphReady(graph, types, limits)
  {
    && Frontier(graph, start, visited, queue, explored, parent)
    && start in graph && BfsRun(graph, queue, explored, visited) == BfsOrder(graph, start)
    && (forall k :: 0 <= k < |visited| ==> visited[k] in graph)
    && SearchedSoFar(speeds0, speeds, visited)
    && order == order0 + NewWays(visited, speeds0.Keys)
    && IsKeyOrder(order, speeds)
    && AllSettled(speeds0, speeds, visited, graph, types, limits)
  }

  /** The breadth-first search from `start`: the queue loop. */
  method SearchFrom(start: int, order0: seq<int>, speeds0: map<int, real>,
                    graph: Graph, types: map<int, string>, limits: map<string, real>)
    returns (order: seq<int>, speeds: map<int, real>, ghost visited: seq<int>)
    requires GraphReady(graph, types, limits) && start in graph
    requires IsKeyOrder(order0, speeds0)
    ensures BfsFilled(order0, speeds0, graph, types, limits, start, order, speeds, visited)
    ensures IsKeyOrder(order, speeds)
  {
    order, speeds := order0, speeds0;
    var explored := {start};
    var queue := [start];
    visited := [];
    ghost var parent: map<int, nat> := map[];
    while queue != []
      invariant Searching(start, order0, speeds0, graph, types, limits, order, speeds, visited, queue, explored, parent)
      decreases graph.Keys - explored, |queue|
    {
      order, speeds, visited, queue, explored, parent :=
        Turn(start, order0, speeds0, graph, types, limits, order, speeds, visited, queue, explored, parent);
    }
    SearchDone(graph, start, visited, explored, parent);
  }

  /** One turn of the queue loop: pop a way, settle it, queue its
      unexplored neighbours. */
  method Turn(start: int, order0: seq<int>, speeds0: map<int, real>,
              graph: Graph, types: map<int, string>, limits: map<string, real>,
              order: seq<int>, speeds: map<int, real>, ghost visited: seq<int>,
              queue: seq<int>, explored: set<int>, ghost parent: map<int, nat>)
    returns (order': seq<int>, speeds': map<int, real>, ghost visited': seq<int>,
             queue': seq<int>, explored': set<int>, ghost parent': map<int, nat>)
    requires GraphReady(graph, types, limits) && queue != []
    requires Searching(start, order0, speeds0, graph, types, limits, order, speeds, visited, queue, explored, parent)
    ensures Searching(start, order0, speeds0, graph, types, limits, order', speeds', visited', queue', explored', parent')
    ensures graph.Keys - explored' < graph.Keys - explored || (explored' == explored && |queue'| < |queue|)
  {
    FrontierStep(graph, types, limits, start, visited, queue, explored, parent);
    var cur := queue[0];
    order', speeds' := SettleTurn(order0, speeds0, graph, types, limits, order, speeds, visited, cur);
    ghost var added := Discover(graph[cur], explored);
    queue', explored' := Enqueue(graph[cur], queue[1..], explored);
    parent' := NextParent(parent, added, |visited|);
    visited' := visited + [cur];
  }

  /** The dict side of a turn: the popped way is settled and recorded. */
  method SettleTurn(order0: seq<int>, speeds0: map<int, real>,
                    graph: Graph, types: map<int, string>, limits: map<string, real>,
                    order: seq<int>, speeds: map<int, real>, ghost visited: seq<int>, cur: int)
    returns (order': seq<int>, speeds': map<int, real>)
    requires GraphReady(graph, types, limits) && cur in graph && cur !in visited
    requires forall k :: 0 <= k < |visited| ==> visited[k] in graph
    requires SearchedSoFar(speeds0, speeds, visited)
    requires order == order0 + NewWays(visited, speeds0.Keys) && IsKeyOrder(order, speeds)
    requires AllSettled(speeds0, speeds, visited, graph, types, limits)
    ensures forall k :: 0 <= k < |visited + [cur]| ==> (visited + [cur])[k] in graph
    ensures SearchedSoFar(speeds0, speeds', visited + [cur])
    ensures order' == order0 + NewWays(visited + [cur], speeds0.Keys) && IsKeyOrder(order', speeds')
    ensures AllSettled(speeds0, speeds', visited + [cur], graph, types, limits)
  {
    order', speeds' := Visit(cur, order, speeds, graph, types, limits);
    SettleKeepsEarlier(speeds0, speeds, speeds', visited, cur, Get(speeds', cur), graph, types, limits);
    SettleCurrent(speeds0, speeds, speeds', visited, cur, graph, types, limits);
    DictStep(order0, speeds0, order, speeds, order', speeds', visited, cur, Get(speeds', cur));
    SettledStep(speeds0, speeds', visited, cur, graph, types, limits);
  }

  /** A visit keeps the dict and its key order in step with the ways
      visited so far. */
  lemma DictStep(order0: seq<int>, speeds0: map<int, real>, order: seq<int>, speeds: map<int, real>,
                 order': seq<int>, speeds': map<int, real>, visited: seq<int>, cur: int, value: real)
    requires SearchedSoFar(speeds0, speeds, visited) && cur !in visited
    requires order == order0 + NewWays(visited, speeds0.Keys) && IsKeyOrder(order, speeds)
    requires speeds' == speeds[cur := value]
    requires order' == if cur in speeds then order else order + [cur]
    ensures SearchedSoFar(speeds0, speeds', visited + [cur])
    ensures order' == order0 + NewWays(visited + [cur], speeds0.Keys)
    ensures IsKeyOrder(order', speeds')
  {
    KeysStep(speeds0, speeds, speeds', visited, cur, value);
    OrderStep(order0, speeds0, order, speeds, order', visited, cur);
    KeyOrderStep(order, speeds, order', speeds', cur, value);
  }

  lemma KeysStep(speeds0: map<int, real>, speeds: map<int, real>, speeds': map<int, real>, visited: seq<int>,
                 cur: int, value: real)
    requires SearchedSoFar(speeds0, speeds, visited) && cur !in visited
    requires speeds' == speeds[cur := value]
    ensures SearchedSoFar(speeds0, speeds', visited + [cur])
  {
    assert (set w | w in visited + [cur]) == (set w | w in visited) + {cur};
  }

  lemma OrderStep(order0: seq<int>, speeds0: map<int, real>, order: seq<int>, speeds: map<int, real>,
                  order': seq<int>, visited: seq<int>, cur: int)
    requires SearchedSoFar(speeds0, speeds, visited) && cur !in visited
    requires order == order0 + NewWays(visited, speeds0.Keys)
    requires order' == if cur in speeds then order else order + [cur]
    ensures order' == order0 + NewWays(visited + [cur], speeds0.Keys)
  {
    NewWaysStep(visited, cur, speeds0.Keys);
    assert cur in speeds <==> cur in speeds0;
  }

  lemma KeyOrderStep(order: seq<int>, speeds: map<int, real>, order': seq<int>, speeds': map<int, real>,
                     cur: int, value: real)
    requires IsKeyOrder(order, speeds)
    requires speeds' == speeds[cur := value]
    requires order' == if cur in speeds then order else order + [cur]
    ensures IsKeyOrder(order', speeds')
  {
    if cur !in speeds {
      DistinctAppend(order, [cur]);
    }
  }

  /** The way just visited extends the settled prefix. */
  lemma SettledStep(speeds0: map<int, real>, speeds: map<int, real>, visited: seq<int>, cur: int,
                    graph: Graph, types: map<int, string>, limits: map<string, real>)
    requires GraphReady(graph, types, limits) && cur in graph
    requires forall k :: 0 <= k < |visited| ==> visited[k] in graph
    requires AllSettled(speeds0, speeds, visited, graph, types, limits)
    requires Get(speeds, cur) == Settled(cur, speeds0, View(speeds0, speeds, visited), graph, types, limits)
    ensures AllSettled(speeds0, speeds, visited + [cur], graph, types, limits)
  {
    assert (visited + [cur])[..|visited|] == visited;
  }

  /** With the queue empty, the visited ways are closed under adjacency
      and each is reached from an earlier one. */
  lemma SearchDone(graph: Graph, start: int, visited: seq<int>, explored: set<int>, parent: map<int, nat>)
    requires Frontier(graph, start, visited, [], explored, parent)
    requires forall k :: 0 <= k < |visited| ==> visited[k] in graph
    ensures |visited| > 0 && visited[0] == start
    ensures Distinct(visited)
    ensures forall i, nb :: 0 <= i < |visited| && nb in graph[visited[i]] ==> nb in visited
    ensures forall i :: 0 < i < |visited| ==> exists j :: 0 <= j < i && visited[i] in graph[visited[j]]
  {
    assert visited + [] == visited;
    forall i | 0 < i < |visited|
      ensures exists j :: 0 <= j < i && visited[i] in graph[visited[j]]
    {
      assert HasParent(graph, visited, parent, visited[i], i);
      var j := parent[visited[i]];
      assert visited[i] in graph[visited[j]];
    }
  }

  lemma NewWaysStep(visited: seq<int>, cur: int, keys: set<int>)
    ensures NewWays(visited + [cur], keys) == if cur in keys then NewWays(visited, keys) else NewWays(visited, keys) + [cur]
  {
    assert (visited + [cur])[..|visited|] == visited;
  }

  /** The whole gap-filling step: with no positive way (or a first
      positive way numbered 0) every way gets its type's limit; otherwise
      the breadth-first search runs from the first positive way. */
  method EstimateNoDataRoadSpeed(order: seq<int>, speeds: map<int, real>,
                                 graph: Graph, types: map<int, string>, limits: map<string, real>)
    returns (order': seq<int>, speeds': map<int, real>, ghost visited: seq<int>)
    requires IsKeyOrder(order, speeds)
    requires StartOf(order, speeds) != 0 ==> GraphReady(graph, types, limits) && StartOf(order, speeds) in graph
    ensures IsKeyOrder(order', speeds')
    ensures StartOf(order, speeds) == 0 ==>
              && order' == order && speeds'.Keys == speeds.Keys
              && forall w :: w in speeds' ==> speeds'[w] == LimitOrDefault(types, limits, w)
    ensures StartOf(order, speeds) != 0 ==>
              BfsFilled(order, speeds, graph, types, limits, StartOf(order, speeds), order', speeds', visited)
  {
    var start := FindStart(order, speeds);
    if start == 0 {
      order' := order;
      speeds' := FillWithLimits(order, speeds, types, limits);
      visited := [];
    } else {
      order', speeds', visited := SearchFrom(start, order, speeds, graph, types, limits);
    }
  }

  /** A walk along the adjacency lists. */
  ghost predicate IsPath(graph: Graph, path: seq<int>)
  {
    && |path| > 0
    && forall k :: 0 <= k < |path| - 1 ==> path[k] in graph && path[k + 1] in graph[path[k]]
  }

  /** Every way reachable from the start is visited. */
  lemma {:induction false} BfsReachesAll(graph: Graph, start: int, visited: seq<int>, path: seq<int>)
    requires |visited| > 0 && visited[0] == start
    requires forall k :: 0 <= k < |visited| ==> visited[k] in graph
    requires forall i, nb :: 0 <= i < |visited| && nb in graph[visited[i]] ==> nb in visited
    requires IsPath(graph, path) && path[0] == start
    ensures path[|path| - 1] in visited
    decreases |path|
  {
    if |path| > 1 {
      var prefix := path[..|path| - 1];
      assert IsPath(graph, prefix);
      BfsReachesAll(graph, start, visited, prefix);
      var i :| 0 <= i < |visited| && visited[i] == prefix[|prefix| - 1];
      assert path[|path| - 1] in graph[visited[i]];
    }
  }

  /** Every visited way is reachable from the start: the search visits
      exactly the ways reachable from it. */
  lemma {:induction false} BfsVisitsReachable(graph: Graph, start: int, visited: seq<int>, i: int)
    returns (path: seq<int>)
    requires |visited| > 0 && visited[0] == start
    requires forall k :: 0 <= k < |visited| ==> visited[k] in graph
    requires forall j :: 0 < j < |visited| ==> exists p :: 0 <= p < j && visited[j] in graph[visited[p]]
    requires 0 <= i < |visited|
    ensures IsPath(graph, path) && path[0] == start && path[|path| - 1] == visited[i]
    decreases i
  {
    if i == 0 {
      path := [start];
    } else {
      var p :| 0 <= p < i && visited[i] in graph[visited[p]];
      var before := BfsVisitsReachable(graph, start, visited, p);
      path := before + [visited[i]];
      assert path[..|before|] == before;
      forall k | 0 <= k < |path| - 1
        ensures path[k] in graph && path[k + 1] in graph[path[k]]
      {
        if k < |before| - 1 {
          assert path[k] == before[k] && path[k + 1] == before[k + 1];
        }
      }
    }
  }

  /** The settled speed of the `i`-th visited way. */
  lemma {:induction false} SettledAt(speeds0: map<int, real>, speeds: map<int, real>, visited: seq<int>,
                                     graph: Graph, types: map<int, string>, limits: map<string, real>, i: int)
    requires GraphReady(graph, types, limits)
    requires forall k :: 0 <= k < |visited| ==> visited[k] in graph
    requires AllSettled(speeds0, speeds, visited, graph, types, limits)
    requires 0 <= i < |visited|
    ensures Get(speeds, visited[i]) == Settled(visited[i], speeds0, View(speeds0, speeds, visited[..i]), graph, types, limits)
    decreases |visited|
  {
    var earlier := visited[..|visited| - 1];
    if i < |visited| - 1 {
      assert forall k :: 0 <= k < |earlier| ==> earlier[k] in graph;
      SettledAt(speeds0, speeds, earlier, graph, types, limits, i);
      assert earlier[i] == visited[i];
      assert earlier[..i] == visited[..i];
    } else {
      assert visited[..i] == earlier;
    }
  }

  /** A way that already had a positive speed keeps it. */
  lemma BfsKeepsPositive(order: seq<int>, speeds: map<int, real>, graph: Graph,
                         types: map<int, string>, limits: map<string, real>, start: int,
                         order': seq<int>, speeds': map<int, real>, visited: seq<int>, way: int)
    requires GraphReady(graph, types, limits)
    requires BfsFilled(order, speeds, graph, types, limits, start, order', speeds', visited)
    requires way in speeds && speeds[way] > 0.0
    ensures way in speeds' && speeds'[way] == speeds[way]
  {
    if way in visited {
      var i :| 0 <= i < |visited| && visited[i] == way;
      SettledAt(speeds, speeds', visited, graph, types, limits, i);
    }
  }

  /** A visited way without a positive speed takes the mean of its
      samples, so with positive limits every visited way ends positive. */
  lemma BfsFillsPositive(speeds: map<int, real>, speeds': map<int, real>, visited: seq<int>,
                         graph: Graph, types: map<int, string>, limits: map<string, real>, i: int)
    requires GraphReady(graph, types, limits)
    requires forall k :: 0 <= k < |visited| ==> visited[k] in graph
    requires AllSettled(speeds, speeds', visited, graph, types, limits)
    requires forall t :: t in limits ==> limits[t] > 0.0
    requires 0 <= i < |visited|
    ensures Get(speeds, visited[i]) <= 0.0 ==>
              Get(speeds', visited[i]) == SpeedMap.Mean(Samples(visited[i], View(speeds, speeds', visited[..i]), graph, types, limits))
    ensures Get(speeds', visited[i]) > 0.0
  {
    var way := visited[i];
    SettledAt(speeds, speeds', visited, graph, types, limits, i);
    if Get(speeds, way) <= 0.0 {
      var view := View(speeds, speeds', visited[..i]);
      SamplesNonEmptyPositive(way, view, graph, types, limits);
      SpeedMap.SumOfPositivesIsPositive(Samples(way, view, graph, types, limits));
    }
  }

  // ---------------------------------------------------------------------
  // `compute_speed_dict`: one way's days and its prediction

  /** Why `compute_speed_dict` stops: a usable way that one day's matrix
      lacks (a `KeyError`), or a bin past the end of a way's row (an
      `IndexError`). */
  datatype PredictError = WayMissingFromDay(way: int) | BinOutsideRow(way: int, bin: int)

  /** The fallback bins wrap at 96 whatever the interval: the bins of a
      15-minute day. */
  const FallbackBins := 96

  /** The bin read for a fallback offset. */
  function Slot(idx: int, offset: int): (slot: int)
    ensures 0 <= slot < FallbackBins
    ensures (slot - (idx + offset)) % FallbackBins == 0
  {
    (idx + offset) % FallbackBins
  }

  /** The first n fallback bins lie inside the row and hold no positive
      speed. */
  predicate Clear(row: seq<real>, idx: int, offsets: seq<int>, n: nat)
    requires n <= |offsets|
  {
    forall k :: 0 <= k < n ==> Slot(idx, offsets[k]) < |row| && row[Slot(idx, offsets[k])] <= 0.0
  }

  /** The fallback loop: the bins of the offsets in order, stopping at the
      first positive one; the last bin read when none is positive. */
  function Probe(way: int, row: seq<real>, idx: int, offsets: seq<int>, current: real): Result<real, PredictError>
    decreases |offsets|
  {
    if offsets == [] then Success(current)
    else
      var slot := Slot(idx, offsets[0]);
      if slot >= |row| then Failure(BinOutsideRow(way, slot))
      else if row[slot] > 0.0 then Success(row[slot])
      else Probe(way, row, idx, offsets[1..], row[slot])
  }

  /** The fallback finds the first positive bin of the offsets, taken in
      order; reading past the row before that is an error; with no positive
      bin the day keeps the last value read. */
  lemma {:induction false} ProbeMeaning(way: int, row: seq<real>, idx: int, offsets: seq<int>, current: real)
    requires current <= 0.0
    ensures var r := Probe(way, row, idx, offsets, current);
            && (r.Success? && r.value > 0.0 ==>
                  exists k :: 0 <= k < |offsets| && Clear(row, idx, offsets, k)
                              && Slot(idx, offsets[k]) < |row| && r.value == row[Slot(idx, offsets[k])])
            && (r.Success? && r.value <= 0.0 ==>
                  && Clear(row, idx, offsets, |offsets|)
                  && r.value == if offsets == [] then current else row[Slot(idx, offsets[|offsets| - 1])])
            && (r.Failure? ==>
                  exists k :: 0 <= k < |offsets| && Clear(row, idx, offsets, k)
                              && Slot(idx, offsets[k]) >= |row| && r.error == BinOutsideRow(way, Slot(idx, offsets[k])))
    decreases |offsets|
  {
    if offsets != [] {
      var slot := Slot(idx, offsets[0]);
      assert Clear(row, idx, offsets, 0);
      if slot < |row| && row[slot] <= 0.0 {
        var rest := offsets[1..];
        ProbeMeaning(way, row, idx, rest, row[slot]);
        forall n | 0 <= n <= |rest| && Clear(row, idx, rest, n)
          ensures Clear(row, idx, offsets, n + 1)
        {
          forall k | 0 <= k < n + 1
            ensures Slot(idx, offsets[k]) < |row| && row[Slot(idx, offsets[k])] <= 0.0
          {
            if k > 0 {
              assert offsets[k] == rest[k - 1];
            }
          }
        }
        var r := Probe(way, row, idx, rest, row[slot]);
        if r.Success? && r.value > 0.0 {
          var k :| 0 <= k < |rest| && Clear(row, idx, rest, k) && Slot(idx, rest[k]) < |row| && r.value == row[Slot(idx, rest[k])];
          assert offsets[k + 1] == rest[k];
        } else if r.Failure? {
          var k :| 0 <= k < |rest| && Clear(row, idx, rest, k) && Slot(idx, rest[k]) >= |row|
                   && r.error == BinOutsideRow(way, Slot(idx, rest[k]));
          assert offsets[k + 1] == rest[k];
        } else if rest != [] {
          assert offsets[|offsets| - 1] == rest[|rest| - 1];
        }
      }
    }
  }

  /** A day's speed for a way: the bin itself when positive, otherwise the
      fallback. */
  function DayValue(way: int, row: seq<real>, idx: nat, offsets: seq<int>): Result<real, PredictError>
  {
    if idx >= |row| then Failure(BinOutsideRow(way, idx))
    else if row[idx] > 0.0 then Success(row[idx])
    else Probe(way, row, idx, offsets, row[idx])
  }

  /** The fallback wraps at 96 bins: on a day of 288 five-minute bins, bin
      100 with offset -1 reads bin 3, not bin 99. */
  lemma FallbackWrapsAt96(way: int, row: seq<real>)
    requires |row| == 288 && row[100] <= 0.0 && row[3] > 0.0
    ensures DayValue(way, row, 100, [-1]) == Success(row[3])
  {
    assert Slot(100, -1) == 3;
  }

  /** On a day of 48 half-hour bins, bin 0 with offsets [-1, 1] reads bin
      95, past the end of the row. */
  lemma FallbackLeavesShortRow(way: int, row: seq<real>)
    requires |row| == 48 && row[0] <= 0.0
    ensures DayValue(way, row, 0, [-1, 1]) == Failure(BinOutsideRow(way, 95))
  {
    assert Slot(0, -1) == 95;
  }

  /** One day of the inner loop of `compute_speed_dict`, fallback included. */
  method DaySpeed(way: int, row: seq<real>, idx: nat, offsets: seq<int>) returns (r: Result<real, PredictError>)
    ensures r == DayValue(way, row, idx, offsets)
  {
    if idx >= |row| {
      return Failure(BinOutsideRow(way, idx));
    }
    var speed := row[idx];
    if speed <= 0.0 {
      var k := 0;
      while k < |offsets|
        invariant 0 <= k <= |offsets| && speed <= 0.0
        invariant DayValue(way, row, idx, offsets) == Probe(way, row, idx, offsets[k..], speed)
      {
        assert offsets[k..][0] == offsets[k] && offsets[k..][1..] == offsets[k + 1..];
        var slot := (idx + offsets[k]) % 96;
        if slot >= |row| {
          return Failure(BinOutsideRow(way, slot));
        }
        speed := row[slot];
        if speed > 0.0 {
          break;
        }
        k := k + 1;
      }
    }
    r := Success(speed);
  }

  /** A day's speed for a way, the way being looked up in the day's
      matrix first. */
  function DayOf(matrix: Matrix, way: int, idx: nat, offsets: seq<int>): Result<real, PredictError>
  {
    if way !in matrix then Failure(WayMissingFromDay(way)) else DayValue(way, matrix[way], idx, offsets)
  }

  /** A way's speeds on the loaded days, and the days whose speed is still
      not positive, to be estimated. */
  datatype Days = Days(speeds: seq<real>, need: set<int>)

  /** The inner loop of `compute_speed_dict` for one way, day by day; the
      first day that fails stops it. */
  function History(matrices: seq<Matrix>, way: int, idx: nat, offsets: seq<int>): (r: Result<Days, PredictError>)
    ensures r.Success? ==> |r.value.speeds| == |matrices|
  {
    if matrices == [] then Success(Days([], {}))
    else
      var last := |matrices| - 1;
      match History(matrices[..last], way, idx, offsets)
      case Failure(e) => Failure(e)
      case Success(before) =>
        match DayOf(matrices[last], way, idx, offsets)
        case Failure(e) => Failure(e)
        case Success(v) =>
          Success(Days(before.speeds + [v], if v <= 0.0 then before.need + {last} else before.need))
  }

  /** Each day holds the way's speed on that day, the days to estimate
      are those whose speed is not positive, and a failure is the failure
      of some day. */
  lemma {:induction false} HistoryMeaning(matrices: seq<Matrix>, way: int, idx: nat, offsets: seq<int>)
    ensures var r := History(matrices, way, idx, offsets);
            && (r.Success? ==> forall k :: 0 <= k < |matrices| ==>
                                 DayOf(matrices[k], way, idx, offsets) == Success(r.value.speeds[k]))
            && (r.Success? ==> forall k :: k in r.value.need <==> 0 <= k < |matrices| && r.value.speeds[k] <= 0.0)
            && (r.Failure? ==> exists k :: 0 <= k < |matrices| && DayOf(matrices[k], way, idx, offsets) == Failure(r.error))
  {
    if matrices != [] {
      var last := |matrices| - 1;
      var front := matrices[..last];
      HistoryMeaning(front, way, idx, offsets);
      assert forall k :: 0 <= k < last ==> front[k] == matrices[k];
      var before := History(front, way, idx, offsets);
      if before.Failure? {
        var k :| 0 <= k < last && DayOf(front[k], way, idx, offsets) == Failure(before.error);
        assert DayOf(matrices[k], way, idx, offsets) == Failure(before.error);
      }
    }
  }

  /** Once a day fails, the days after it do not matter. */
  lemma {:induction false} HistoryStopsAtFailure(matrices: seq<Matrix>, way: int, idx: nat, offsets: seq<int>, n: nat)
    requires n <= |matrices|
    requires History(matrices[..n], way, idx, offsets).Failure?
    ensures History(matrices, way, idx, offsets) == History(matrices[..n], way, idx, offsets)
    decreases |matrices| - n
  {
    if n < |matrices| {
      assert matrices[..n + 1][..n] == matrices[..n];
      HistoryStopsAtFailure(matrices, way, idx, offsets, n + 1);
    } else {
      assert matrices[..n] == matrices;
    }
  }

  /** The prediction for one way from its days: 0 when at least as many
      days need estimating as there are weights; otherwise the dot product
      with the weights, after estimating the days that need it. */
  function WayPrediction(days: Days, weights: seq<real>): real
    requires |days.need| >= |weights| || |days.speeds| <= |weights|
  {
    if |days.need| >= |weights| then 0.0
    else if |days.need| > 0 then Dot(Estimated(days.speeds, days.need, weights), weights, |days.speeds|)
    else Dot(days.speeds, weights, |days.speeds|)
  }

  /** One way's outcome: its days, then its prediction. */
  function WayOutcome(matrices: seq<Matrix>, way: int, idx: nat, offsets: seq<int>, weights: seq<real>)
    : Result<real, PredictError>
    requires weights == [] || |matrices| <= |weights|
  {
    match History(matrices, way, idx, offsets)
    case Failure(e) => Failure(e)
    case Success(days) => Success(WayPrediction(days, weights))
  }

  /** With every day at the same positive speed v, the prediction is v
      times the sum of the weights of the days. */
  lemma SteadyWayPrediction(days: Days, weights: seq<real>, v: real)
    requires |days.speeds| <= |weights| && |weights| > 0 && v > 0.0
    requires forall k :: 0 <= k < |days.speeds| ==> days.speeds[k] == v
    requires forall k :: k in days.need <==> 0 <= k < |days.speeds| && days.speeds[k] <= 0.0
    ensures WayPrediction(days, weights) == v * Sum(weights[..|days.speeds|])
  {
    assert forall k :: k !in days.need;
    assert days.need == {};
    DotOfConstant(days.speeds, weights, v, |days.speeds|);
  }

  /** With some days to estimate and weight left on the others, each
      estimated day counts as the weighted mean of the others times its own
      weight, once more multiplied by its weight in the dot product. */
  lemma EstimatedWayPrediction(days: Days, weights: seq<real>)
    requires |days.speeds| <= |weights| && 0 < |days.need| < |weights|
    requires RemainWeight(weights, days.need, |days.speeds|) != 0.0
    ensures var n := |days.speeds|;
            var mean := WeightedSum(days.speeds, weights, days.need, n) / RemainWeight(weights, days.need, n);
            WayPrediction(days, weights) == WeightedSum(days.speeds, weights, days.need, n) + mean * NeedSquares(weights, days.need, n)
  {
    var n := |days.speeds|;
    var mean := WeightedSum(days.speeds, weights, days.need, n) / RemainWeight(weights, days.need, n);
    FilledDot(days.speeds, days.need, weights, mean, n);
  }

  /** With some days to estimate and no weight on the others, the way gets
      0. */
  lemma WeightlessWayPrediction(days: Days, weights: seq<real>)
    requires |days.speeds| <= |weights| && 0 < |days.need| < |weights|
    requires RemainWeight(weights, days.need, |days.speeds|) == 0.0
    ensures WayPrediction(days, weights) == 0.0
  {
    var zeros := Estimated(days.speeds, days.need, weights);
    DotOfConstant(zeros, weights, 0.0, |zeros|);
  }

  /** One way of the first loop of `compute_speed_dict`: its days, then the
      estimate and the dot product. */
  method PredictWay(matrices: seq<Matrix>, way: int, idx: nat, offsets: seq<int>, weights: seq<real>)
    returns (r: Result<real, PredictError>)
    requires weights == [] || |matrices| <= |weights|
    ensures r == WayOutcome(matrices, way, idx, offsets, weights)
  {
    var speeds: seq<real> := [];
    var need: set<int> := {};
    var k := 0;
    while k < |matrices|
      invariant 0 <= k <= |matrices|
      invariant History(matrices[..k], way, idx, offsets) == Success(Days(speeds, need))
      invariant |speeds| == k && forall i :: i in need ==> 0 <= i < k
    {
      assert matrices[..k + 1][..k] == matrices[..k];
      if way !in matrices[k] {
        HistoryStopsAtFailure(matrices, way, idx, offsets, k + 1);
        return Failure(WayMissingFromDay(way));
      }
      var day := DaySpeed(way, matrices[k][way], idx, offsets);
      if day.Failure? {
        HistoryStopsAtFailure(matrices, way, idx, offsets, k + 1);
        return Failure(day.error);
      }
      if day.value <= 0.0 {
        need := need + {|speeds|};
      }
      speeds := speeds + [day.value];
      k := k + 1;
    }
    assert matrices[..k] == matrices;
    if |need| >= |weights| {
      r := Success(0.0);
    } else {
      if |need| > 0 {
        speeds := EstimateMissingValue(speeds, need, weights);
      }
      var speed := ComputePredictSpeed(speeds, weights);
      r := Success(speed);
    }
  }

  // ---------------------------------------------------------------------
  // `compute_speed_dict`: the whole dict

  /** The first loop of `compute_speed_dict`: a prediction for each usable
      way, in the order the set yields them; the first failing way stops
      it. */
  function Predictions(matrices: seq<Matrix>, ways: seq<int>, idx: nat, offsets: seq<int>, weights: seq<real>)
    : (r: Result<map<int, real>, PredictError>)
    requires weights == [] || |matrices| <= |weights|
    ensures r.Success? ==> r.value.Keys == set w | w in ways
  {
    if ways == [] then Success(map[])
    else
      var last := |ways| - 1;
      match Predictions(matrices, ways[..last], idx, offsets, weights)
      case Failure(e) => Failure(e)
      case Success(before) =>
        match WayOutcome(matrices, ways[last], idx, offsets, weights)
        case Failure(e) => Failure(e)
        case Success(v) => Success(before[ways[last] := v])
  }

  /** Each usable way holds its own outcome; the first failing way gives
      the error. */
  lemma {:induction false} PredictionsMeaning(matrices: seq<Matrix>, ways: seq<int>, idx: nat, offsets: seq<int>,
                                              weights: seq<real>, k: int)
    requires weights == [] || |matrices| <= |weights|
    requires 0 <= k < |ways|
    ensures var r := Predictions(matrices, ways, idx, offsets, weights);
            && (r.Success? ==> WayOutcome(matrices, ways[k], idx, offsets, weights) == Success(r.value[ways[k]]))
            && (r.Failure? ==> exists j :: 0 <= j < |ways| && WayOutcome(matrices, ways[j], idx, offsets, weights) == Failure(r.error))
  {
    var last := |ways| - 1;
    var prefix := ways[..last];
    var before := Predictions(matrices, prefix, idx, offsets, weights);
    var outcome := WayOutcome(matrices, ways[last], idx, offsets, weights);
    if before.Failure? {
      if 0 < last {
        PredictionsMeaning(matrices, prefix, idx, offsets, weights, 0);
        var j :| 0 <= j < |prefix| && WayOutcome(matrices, prefix[j], idx, offsets, weights) == Failure(before.error);
        assert ways[j] == prefix[j];
      }
    } else if outcome.Success? && k < last && ways[k] != ways[last] {
      PredictionsMeaning(matrices, prefix, idx, offsets, weights, k);
      assert prefix[k] == ways[k];
    }
  }

  lemma {:induction false} PredictionsStopAtFailure(matrices: seq<Matrix>, ways: seq<int>, idx: nat, offsets: seq<int>,
                                                    weights: seq<real>, n: nat)
    requires weights == [] || |matrices| <= |weights|
    requires n <= |ways| && Predictions(matrices, ways[..n], idx, offsets, weights).Failure?
    ensures Predictions(matrices, ways, idx, offsets, weights) == Predictions(matrices, ways[..n], idx, offsets, weights)
    decreases |ways| - n
  {
    if n < |ways| {
      assert ways[..n + 1][..n] == ways[..n];
      PredictionsStopAtFailure(matrices, ways, idx, offsets, weights, n + 1);
    } else {
      assert ways[..n] == ways;
    }
  }

  /** The second loop of `compute_speed_dict`: each listed way set to 0. */
  function ZeroFill(speeds: map<int, real>, ways: seq<int>): map<int, real>
  {
    if ways == [] then speeds else ZeroFill(speeds, ways[..|ways| - 1])[ways[|ways| - 1] := 0.0]
  }

  /** The second loop adds the listed ways to the dict. */
  lemma {:induction false} ZeroFillKeys(speeds: map<int, real>, ways: seq<int>)
    ensures ZeroFill(speeds, ways).Keys == speeds.Keys + set w | w in ways
  {
    if ways != [] {
      var prefix := ways[..|ways| - 1];
      ZeroFillKeys(speeds, prefix);
      assert (set w | w in ways) == (set w | w in prefix) + {ways[|ways| - 1]};
    }
  }

  /** After the second loop, the listed ways read 0 and the others keep
      their prediction. */
  lemma {:induction false} ZeroFillMeaning(speeds: map<int, real>, ways: seq<int>, w: int)
    requires w in speeds || w in ways
    ensures w in ZeroFill(speeds, ways) && ZeroFill(speeds, ways)[w] == if w in ways then 0.0 else speeds[w]
  {
    ZeroFillKeys(speeds, ways);
    if ways != [] {
      var prefix := ways[..|ways| - 1];
      if w != ways[|ways| - 1] {
        assert w in ways <==> w in prefix;
        ZeroFillMeaning(speeds, prefix, w);
      }
    }
  }

  /** The dict handed to the search, with its key order: the predictions of
      the usable ways, then 0 for the other ways. */
  function Gathered(matrices: seq<Matrix>, usableOrder: seq<int>, restOrder: seq<int>, idx: nat, offsets: seq<int>,
                    weights: seq<real>): Result<(seq<int>, map<int, real>), PredictError>
    requires weights == [] || |matrices| <= |weights|
  {
    match Predictions(matrices, usableOrder, idx, offsets, weights)
    case Failure(e) => Failure(e)
    case Success(predicted) => Success((usableOrder + restOrder, ZeroFill(predicted, restOrder)))
  }

  /** Before the search, the dict holds every way of the history, each
      once in its key order, usable ways first; a way that is not usable
      reads 0. */
  lemma GatheredKeys(matrices: seq<Matrix>, full: set<int>, usable: set<int>,
                     usableOrder: seq<int>, restOrder: seq<int>, idx: nat, offsets: seq<int>, weights: seq<real>)
    requires weights == [] || |matrices| <= |weights|
    requires usable <= full
    requires IsSetOrder(usableOrder, usable) && IsSetOrder(restOrder, full - usable)
    requires Gathered(matrices, usableOrder, restOrder, idx, offsets, weights).Success?
    ensures var g := Gathered(matrices, usableOrder, restOrder, idx, offsets, weights).value;
            && g.0 == usableOrder + restOrder
            && IsKeyOrder(g.0, g.1) && g.1.Keys == full
            && (forall w :: w in full - usable ==> g.1[w] == 0.0)
  {
    var predicted := Predictions(matrices, usableOrder, idx, offsets, weights).value;
    var speeds := ZeroFill(predicted, restOrder);
    SetOfOrder(usableOrder, usable);
    SetOfOrder(restOrder, full - usable);
    ZeroFillKeys(predicted, restOrder);
    assert speeds.Keys == usable + (full - usable);
    forall w | w in full - usable
      ensures speeds[w] == 0.0
    {
      ZeroFillMeaning(predicted, restOrder, w);
    }
    DistinctAppend(usableOrder, restOrder);
  }

  /** Before the search, a usable way holds its own prediction. */
  lemma GatheredPredictions(matrices: seq<Matrix>, full: set<int>, usable: set<int>,
                            usableOrder: seq<int>, restOrder: seq<int>, idx: nat, offsets: seq<int>, weights: seq<real>,
                            w: int)
    requires weights == [] || |matrices| <= |weights|
    requires IsSetOrder(usableOrder, usable) && IsSetOrder(restOrder, full - usable)
    requires Gathered(matrices, usableOrder, restOrder, idx, offsets, weights).Success?
    requires w in usable
    ensures var speeds := Gathered(matrices, usableOrder, restOrder, idx, offsets, weights).value.1;
            w in speeds && WayOutcome(matrices, w, idx, offsets, weights) == Success(speeds[w])
  {
    var predicted := Predictions(matrices, usableOrder, idx, offsets, weights).value;
    var k :| 0 <= k < |usableOrder| && usableOrder[k] == w;
    PredictionsMeaning(matrices, usableOrder, idx, offsets, weights, k);
    assert w !in restOrder;
    ZeroFillMeaning(predicted, restOrder, w);
  }

  /** What the search needs: a start in the graph, and map data ready for
      the search; nothing when no way is positive. */
  predicate SearchReady(order: seq<int>, speeds: map<int, real>, graph: Graph, types: map<int, string>,
                        limits: map<string, real>)
  {
    StartOf(order, speeds) != 0 ==> GraphReady(graph, types, limits) && StartOf(order, speeds) in graph
  }

  /** What `estimate_no_data_road_speed_using_BFS` leaves behind. */
  ghost predicate GapFilled(order: seq<int>, speeds: map<int, real>, graph: Graph, types: map<int, string>,
                            limits: map<string, real>, order': seq<int>, speeds': map<int, real>, visited: seq<int>)
  {
    && IsKeyOrder(order', speeds')
    && (StartOf(order, speeds) == 0 ==>
          && order' == order && speeds'.Keys == speeds.Keys
          && forall w :: w in speeds' ==> speeds'[w] == LimitOrDefault(types, limits, w))
    && (StartOf(order, speeds) != 0 && GraphReady(graph, types, limits) ==>
          BfsFilled(order, speeds, graph, types, limits, StartOf(order, speeds), order', speeds', visited))
  }

  /** `compute_speed_dict`: the usable ways' predictions, 0 for the other
      ways, then the search. */
  method ComputeSpeedDict(idx: nat, matrices: seq<Matrix>, usableOrder: seq<int>, restOrder: seq<int>,
                          offsets: seq<int>, weights: seq<real>,
                          graph: Graph, types: map<int, string>, limits: map<string, real>)
    returns (r: Result<(seq<int>, map<int, real>), PredictError>, ghost visited: seq<int>)
    requires weights == [] || |matrices| <= |weights|
    requires Distinct(usableOrder) && Distinct(restOrder)
    requires forall k :: 0 <= k < |restOrder| ==> restOrder[k] !in usableOrder
    requires var g := Gathered(matrices, usableOrder, restOrder, idx, offsets, weights);
             g.Success? ==> SearchReady(g.value.0, g.value.1, graph, types, limits)
    ensures var g := Gathered(matrices, usableOrder, restOrder, idx, offsets, weights);
            && (g.Failure? ==> r == Failure(g.error))
            && (g.Success? ==> r.Success? && GapFilled(g.value.0, g.value.1, graph, types, limits, r.value.0, r.value.1, visited))
  {
    var predicted, order := PredictUsable(matrices, usableOrder, idx, offsets, weights);
    if predicted.Failure? {
      return Failure(predicted.error), [];
    }
    assert forall k :: 0 <= k < |restOrder| ==> restOrder[k] !in predicted.value;
    var speeds;
    order, speeds := ZeroRest(order, predicted.value, restOrder);
    ZeroFillKeys(predicted.value, restOrder);
    DistinctAppend(usableOrder, restOrder);
    assert IsKeyOrder(order, speeds);
    var order', speeds';
    order', speeds', visited := EstimateNoDataRoadSpeed(order, speeds, graph, types, limits);
    r := Success((order', speeds'));
  }

  /** The first loop of `compute_speed_dict`. */
  method PredictUsable(matrices: seq<Matrix>, ways: seq<int>, idx: nat, offsets: seq<int>, weights: seq<real>)
    returns (r: Result<map<int, real>, PredictError>, order: seq<int>)
    requires weights == [] || |matrices| <= |weights|
    requires Distinct(ways)
    ensures r == Predictions(matrices, ways, idx, offsets, weights)
    ensures r.Success? ==> order == ways
  {
    var speeds: map<int, real> := map[];
    order := [];
    var k := 0;
    while k < |ways|
      invariant 0 <= k <= |ways|
      invariant Predictions(matrices, ways[..k], idx, offsets, weights) == Success(speeds)
      invariant order == ways[..k]
    {
      assert ways[..k + 1][..k] == ways[..k];
      PredictionsFresh(matrices, ways, idx, offsets, weights, k);
      var way := ways[k];
      var prediction := PredictWay(matrices, way, idx, offsets, weights);
      if prediction.Failure? {
        PredictionsStopAtFailure(matrices, ways, idx, offsets, weights, k + 1);
        return Failure(prediction.error), order;
      }
      if way !in speeds {
        order := order + [way];
      }
      speeds := speeds[way := prediction.value];
      k := k + 1;
    }
    assert ways[..k] == ways;
    r := Success(speeds);
  }

  /** A way of a list without repeats is not yet in the dict of the ways
      before it. */
  lemma PredictionsFresh(matrices: seq<Matrix>, ways: seq<int>, idx: nat, offsets: seq<int>, weights: seq<real>, k: nat)
    requires weights == [] || |matrices| <= |weights|
    requires Distinct(ways) && k < |ways|
    requires Predictions(matrices, ways[..k], idx, offsets, weights).Success?
    ensures ways[k] !in Predictions(matrices, ways[..k], idx, offsets, weights).value
  {
    assert forall j :: 0 <= j < k ==> ways[..k][j] != ways[k];
  }

  /** The second loop of `compute_speed_dict`: each way present in some
      but not all days is set to 0. */
  method ZeroRest(order: seq<int>, speeds: map<int, real>, ways: seq<int>) returns (order': seq<int>, speeds': map<int, real>)
    requires Distinct(ways) && forall k :: 0 <= k < |ways| ==> ways[k] !in speeds
    ensures speeds' == ZeroFill(speeds, ways)
    ensures order' == order + ways
  {
    order', speeds' := order, speeds;
    var j := 0;
    while j < |ways|
      invariant 0 <= j <= |ways|
      invariant speeds' == ZeroFill(speeds, ways[..j])
      invariant order' == order + ways[..j]
      invariant forall i :: j <= i < |ways| ==> ways[i] !in speeds'
    {
      assert ways[..j + 1][..j] == ways[..j];
      var way := ways[j];
      if way !in speeds' {
        order' := order' + [way];
      }
      speeds' := speeds'[way := 0.0];
      j := j + 1;
    }
    assert ways[..j] == ways;
  }

  // ---------------------------------------------------------------------
  // Loading the days and `predict_road_condition`

  /** The matrices of the days that loaded, in order; `None` is a day
      whose file is missing. */
  function Loaded(days: seq<Option<Matrix>>): seq<Matrix>
  {
    if days == [] then []
    else
      var last := days[|days| - 1];
      Loaded(days[..|days| - 1]) + if last.Some? then [last.value] else []
  }

  /** The positions of the days that did not load. */
  function MissingDays(days: seq<Option<Matrix>>): set<int>
  {
    set k | 0 <= k < |days| && days[k].None?
  }

  /** The weights kept for the loaded days are as many as those days. */
  lemma {:induction false} KeptMatchesLoaded(days: seq<Option<Matrix>>, weights: seq<real>, n: nat)
    requires n <= |days| == |weights|
    ensures |Kept(weights[..n], MissingDays(days))| == |Loaded(days[..n])|
  {
    if n > 0 {
      KeptMatchesLoaded(days, weights, n - 1);
      assert weights[..n][..n - 1] == weights[..n - 1];
      assert days[..n][..n - 1] == days[..n - 1];
      assert n - 1 in MissingDays(days) <==> days[n - 1].None?;
    }
  }

  /** The weights of the loaded days: one per loaded day, unless the loaded
      days have no weight at all. */
  function DayWeights(days: seq<Option<Matrix>>, weights: seq<real>): (r: seq<real>)
    requires |days| == |weights|
    ensures r == [] || |r| == |Loaded(days)|
  {
    KeptMatchesLoaded(days, weights, |days|);
    assert weights[..|days|] == weights && days[..|days|] == days;
    Reassigned(weights, MissingDays(days))
  }

  /** The loading loop of `get_history_speed_matrix_list`, then the
      reassignment of the weights of the missing days. */
  method LoadHistory(days: seq<Option<Matrix>>, weights: seq<real>) returns (matrices: seq<Matrix>, weights': seq<real>)
    ensures matrices == Loaded(days)
    ensures weights' == Reassigned(weights, MissingDays(days))
  {
    matrices := [];
    var missing: set<int> := {};
    var i := 0;
    while i < |days|
      invariant 0 <= i <= |days|
      invariant matrices == Loaded(days[..i])
      invariant missing == set k | 0 <= k < i && days[k].None?
    {
      assert days[..i + 1][..i] == days[..i];
      if days[i].Some? {
        matrices := matrices + [days[i].value];
      } else {
        missing := missing + {i};
      }
      i := i + 1;
    }
    assert days[..i] == days;
    weights' := ReassignWeight(weights, missing);
  }

  /** The bin of the day a time falls in: whole minutes, then whole
      intervals. */
  function BinIndex(secondsOfDay: nat, interval: int): nat
    requires interval > 0
  {
    (secondsOfDay / 60) / interval
  }

  /** The bin is the floor of the seconds over the bin width in seconds. */
  lemma BinIndexIsFloor(secondsOfDay: nat, interval: int)
    requires interval > 0
    ensures var b := BinIndex(secondsOfDay, interval);
            b * (interval * 60) <= secondsOfDay < (b + 1) * (interval * 60)
  {
    var minutes := secondsOfDay / 60;
    var b := minutes / interval;
    assert minutes * 60 <= secondsOfDay < minutes * 60 + 60;
    assert b * interval <= minutes < b * interval + interval;
    assert b * (interval * 60) == (b * interval) * 60;
    assert (b + 1) * (interval * 60) == (b * interval + interval) * 60;
    assert (b * interval) * 60 <= minutes * 60;
    assert minutes + 1 <= b * interval + interval;
    assert (minutes + 1) * 60 <= (b * interval + interval) * 60;
  }

  /** A time of day falls in one of the day's bins. */
  lemma BinIndexInDay(secondsOfDay: nat, interval: int)
    requires 0 < interval && 1440 % interval == 0 && secondsOfDay < 86400
    ensures BinIndex(secondsOfDay, interval) < 1440 / interval
  {
    var bins := 1440 / interval;
    var width := interval * 60;
    assert bins * interval == 1440;
    assert bins * width == 86400;
    var b := BinIndex(secondsOfDay, interval);
    BinIndexIsFloor(secondsOfDay, interval);
    ScaledBelow(b, bins, width);
  }

  lemma ScaledBelow(a: int, b: int, width: int)
    requires width > 0 && a * width < b * width
    ensures a < b
  {
  }

  /** What `predict_road_condition` returns: -1 when the day offsets and the
      weights differ in length, the error dict when no day loads, the error
      of the first failing way, or the predicted dict with its key order. */
  datatype Outcome =
    | LengthMismatch
    | NoData
    | Failed(error: PredictError)
    | Predicted(order: seq<int>, speeds: map<int, real>)

  /** The dict handed to the search for a given time and set of days. */
  function GatheredFor(secondsOfDay: nat, interval: int, days: seq<Option<Matrix>>, offsets: seq<int>,
                       weights: seq<real>, usableOrder: seq<int>, restOrder: seq<int>)
    : Result<(seq<int>, map<int, real>), PredictError>
    requires interval > 0 && |days| == |weights|
  {
    Gathered(Loaded(days), usableOrder, restOrder, BinIndex(secondsOfDay, interval), offsets, DayWeights(days, weights))
  }

  /** `predict_road_condition` once the map data, the days and the time
      of day are in hand. */
  method PredictRoadCondition(secondsOfDay: nat, interval: int, days: seq<Option<Matrix>>, offsets: seq<int>,
                              weights: seq<real>, usableOrder: seq<int>, restOrder: seq<int>,
                              graph: Graph, types: map<int, string>, limits: map<string, real>)
    returns (outcome: Outcome, ghost visited: seq<int>)
    requires interval > 0 && secondsOfDay < 86400
    requires var keys := KeySets(Loaded(days));
             IsSetOrder(usableOrder, UsableWays(keys)) && IsSetOrder(restOrder, FullWays(keys) - UsableWays(keys))
    requires |days| == |weights| ==>
               var g := GatheredFor(secondsOfDay, interval, days, offsets, weights, usableOrder, restOrder);
               g.Success? ==> SearchReady(g.value.0, g.value.1, graph, types, limits)
    ensures |days| != |weights| ==> outcome == LengthMismatch
    ensures |days| == |weights| && Loaded(days) == [] ==> outcome == NoData
    ensures |days| == |weights| && Loaded(days) != [] ==>
              var g := GatheredFor(secondsOfDay, interval, days, offsets, weights, usableOrder, restOrder);
              && (g.Failure? ==> outcome == Failed(g.error))
              && (g.Success? ==> outcome.Predicted?
                                 && GapFilled(g.value.0, g.value.1, graph, types, limits, outcome.order, outcome.speeds, visited))
  {
    if |days| != |weights| {
      return LengthMismatch, [];
    }
    var idx := (secondsOfDay / 60) / interval;
    var matrices, dayWeights := LoadHistory(days, weights);
    assert dayWeights == DayWeights(days, weights);
    if |matrices| == 0 {
      return NoData, [];
    }
    var full, usable := GetWayIdSet(matrices);
    var r;
    r, visited := ComputeSpeedDict(idx, matrices, usableOrder, restOrder, offsets, dayWeights, graph, types, limits);
    match r
    case Failure(e) =>
      outcome := Failed(e);
    case Success(result) =>
      outcome := Predicted(result.0, result.1);
  }
}
