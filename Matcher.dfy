/** The nearest-road matcher `find_nearest_road` (find_nearest_road.py):
    narrows the search to the ways of the given bus routes that pass near
    the point, finds the closest way node, then projects the point onto
    the edges around that node. */
module Matcher {
  import opened Wrappers
  import Distance
  import OsmTables
  import opened Dicts

  type Point = Distance.Point
  type NodeTable = map<int, (real, real)>
  type WayTable = map<int, seq<int>>

  /** The default half-width, in degrees, of the box around the point. */
  const DefaultMargin: real := 0.01

  function PointOf(coords: (real, real)): Distance.Point
  {
    Distance.Point(coords.0, coords.1)
  }

  /** Every node of every way has coordinates. */
  predicate WaysResolved(wayTable: WayTable, nodeTable: NodeTable)
  {
    forall w, k :: w in wayTable && 0 <= k < |wayTable[w]| ==> wayTable[w][k] in nodeTable
  }

  /** The node lies strictly inside the box of half-width margin around
      the point, on both axes. */
  predicate NearPoint(node: Point, datapoint: Point, margin: real)
  {
    && datapoint.lat - margin < node.lat < datapoint.lat + margin
    && datapoint.lng - margin < node.lng < datapoint.lng + margin
  }

  predicate WayNear(nodes: seq<int>, nodeTable: NodeTable, datapoint: Point, margin: real)
    requires forall k :: 0 <= k < |nodes| ==> nodes[k] in nodeTable
  {
    exists k :: 0 <= k < |nodes| && NearPoint(PointOf(nodeTable[nodes[k]]), datapoint, margin)
  }

  /** The node loop of the coarse filter, stopping at the first node inside
      the box. */
  method WayIsNear(nodes: seq<int>, nodeTable: NodeTable, datapoint: Point, margin: real) returns (near: bool)
    requires forall k :: 0 <= k < |nodes| ==> nodes[k] in nodeTable
    ensures near <==> WayNear(nodes, nodeTable, datapoint, margin)
  {
    near := false;
    var k := 0;
    while k < |nodes|
      invariant 0 <= k <= |nodes|
      invariant forall j :: 0 <= j < k ==> !NearPoint(PointOf(nodeTable[nodes[j]]), datapoint, margin)
    {
      var node := PointOf(nodeTable[nodes[k]]);
      if datapoint.lat + margin > node.lat > datapoint.lat - margin {
        if datapoint.lng + margin > node.lng > datapoint.lng - margin {
          near := true;
          break;
        }
      }
      k := k + 1;
    }
  }

  // ---------------------------------------------------------------------
  // Candidate ways

  /** The members of the given routes, route after route. */
  function RouteMembers(routes: seq<OsmTables.RouteInfo>): seq<int>
  {
    if routes == [] then [] else RouteMembers(routes[..|routes| - 1]) + routes[|routes| - 1].members
  }

  /** Inserts a key into a dictionary's key order: a present key keeps its
      place. */
  function AddKey(order: seq<int>, key: int): seq<int>
  {
    if key in order then order else order + [key]
  }

  /** The key order of `possible_ways` after the coarse filter. */
  function NearWays(members: seq<int>, wayTable: WayTable, nodeTable: NodeTable, datapoint: Point, margin: real): seq<int>
    requires WaysResolved(wayTable, nodeTable)
  {
    if members == [] then []
    else
      var prefix := NearWays(members[..|members| - 1], wayTable, nodeTable, datapoint, margin);
      var way := members[|members| - 1];
      if way in wayTable && WayNear(wayTable[way], nodeTable, datapoint, margin) then AddKey(prefix, way) else prefix
  }

  /** The key order of `possible_ways` in the fallback: every route way. */
  function RouteWays(members: seq<int>, wayTable: WayTable): seq<int>
  {
    if members == [] then []
    else
      var prefix := RouteWays(members[..|members| - 1], wayTable);
      var way := members[|members| - 1];
      if way in wayTable then AddKey(prefix, way) else prefix
  }

  /** `possible_ways`: the near route ways, or every route way when none is
      near. */
  function PossibleWayOrder(routes: seq<OsmTables.RouteInfo>, wayTable: WayTable, nodeTable: NodeTable,
                            datapoint: Point, margin: real): seq<int>
    requires WaysResolved(wayTable, nodeTable)
  {
    var near := NearWays(RouteMembers(routes), wayTable, nodeTable, datapoint, margin);
    if near == [] then RouteWays(RouteMembers(routes), wayTable) else near
  }

  /** The near ways are the distinct route members that are ways with a
      node inside the box. */
  lemma {:induction false} NearWaysMeaning(members: seq<int>, wayTable: WayTable, nodeTable: NodeTable,
                                           datapoint: Point, margin: real)
    requires WaysResolved(wayTable, nodeTable)
    ensures forall w :: w in NearWays(members, wayTable, nodeTable, datapoint, margin) <==>
              w in members && w in wayTable && WayNear(wayTable[w], nodeTable, datapoint, margin)
    ensures Distinct(NearWays(members, wayTable, nodeTable, datapoint, margin))
  {
    if members != [] {
      var prefix := members[..|members| - 1];
      NearWaysMeaning(prefix, wayTable, nodeTable, datapoint, margin);
      assert members == prefix + [members[|members| - 1]];
    }
  }

  /** The fallback ways are the distinct route members that are ways. */
  lemma {:induction false} RouteWaysMeaning(members: seq<int>, wayTable: WayTable)
    ensures forall w :: w in RouteWays(members, wayTable) <==> w in members && w in wayTable
    ensures Distinct(RouteWays(members, wayTable))
  {
    if members != [] {
      var prefix := members[..|members| - 1];
      RouteWaysMeaning(prefix, wayTable);
      assert members == prefix + [members[|members| - 1]];
    }
  }

  /** A possible way is a route way; when some route way has a node inside
      the box, the possible ways are exactly those. */
  lemma PossibleWaysAreRouteWays(routes: seq<OsmTables.RouteInfo>, wayTable: WayTable, nodeTable: NodeTable,
                                 datapoint: Point, margin: real)
    requires WaysResolved(wayTable, nodeTable)
    ensures var members := RouteMembers(routes);
      var possible := PossibleWayOrder(routes, wayTable, nodeTable, datapoint, margin);
      && (forall w :: w in possible ==> w in members && w in wayTable)
      && (forall i, j :: 0 <= i < j < |possible| ==> possible[i] != possible[j])
      && ((exists w :: w in members && w in wayTable && WayNear(wayTable[w], nodeTable, datapoint, margin)) ==>
            forall w :: w in possible <==> w in members && w in wayTable && WayNear(wayTable[w], nodeTable, datapoint, margin))
      && ((forall w :: w in members && w in wayTable ==> !WayNear(wayTable[w], nodeTable, datapoint, margin)) ==>
            forall w :: w in possible <==> w in members && w in wayTable)
  {
    var members := RouteMembers(routes);
    var near := NearWays(members, wayTable, nodeTable, datapoint, margin);
    NearWaysMeaning(members, wayTable, nodeTable, datapoint, margin);
    RouteWaysMeaning(members, wayTable);
    var possible := PossibleWayOrder(routes, wayTable, nodeTable, datapoint, margin);
    if near == [] {
      assert possible == RouteWays(members, wayTable);
      forall w | w in members && w in wayTable
        ensures !WayNear(wayTable[w], nodeTable, datapoint, margin)
      {
        assert w !in near;
      }
    } else {
      assert possible == near;
      var w0 := near[0];
      assert w0 in members && w0 in wayTable && WayNear(wayTable[w0], nodeTable, datapoint, margin);
    }
  }

  /** One more member, appended after the members already visited. */
  lemma MembersStep(done: seq<int>, members: seq<int>, i: int, wayTable: WayTable, nodeTable: NodeTable,
                    datapoint: Point, margin: real)
    requires 0 <= i < |members|
    requires WaysResolved(wayTable, nodeTable)
    ensures var way := members[i];
      var before, after := done + members[..i], done + members[..i + 1];
      && NearWays(after, wayTable, nodeTable, datapoint, margin) ==
           (if way in wayTable && WayNear(wayTable[way], nodeTable, datapoint, margin)
            then AddKey(NearWays(before, wayTable, nodeTable, datapoint, margin), way)
            else NearWays(before, wayTable, nodeTable, datapoint, margin))
      && RouteWays(after, wayTable) ==
           (if way in wayTable then AddKey(RouteWays(before, wayTable), way) else RouteWays(before, wayTable))
  {
    assert (done + members[..i + 1])[..|done| + i] == done + members[..i];
  }

  /** One more route, appended after the routes already visited. */
  lemma RoutesStep(routes: seq<OsmTables.RouteInfo>, r: int)
    requires 0 <= r < |routes|
    ensures RouteMembers(routes[..r + 1]) == RouteMembers(routes[..r]) + routes[r].members[..|routes[r].members|]
  {
    assert routes[..r + 1][..r] == routes[..r];
    assert routes[r].members[..|routes[r].members|] == routes[r].members;
  }

  /** The coarse filter: the near route ways, in first-seen order. */
  method CollectNearWays(routes: seq<OsmTables.RouteInfo>, wayTable: WayTable, nodeTable: NodeTable,
                         datapoint: Point, margin: real) returns (order: seq<int>)
    requires WaysResolved(wayTable, nodeTable)
    ensures order == NearWays(RouteMembers(routes), wayTable, nodeTable, datapoint, margin)
  {
    order := [];
    var r := 0;
    while r < |routes|
      invariant 0 <= r <= |routes|
      invariant order == NearWays(RouteMembers(routes[..r]), wayTable, nodeTable, datapoint, margin)
    {
      ghost var done := RouteMembers(routes[..r]);
      var members := routes[r].members;
      var i := 0;
      assert done + members[..i] == done;
      while i < |members|
        invariant 0 <= i <= |members|
        invariant order == NearWays(done + members[..i], wayTable, nodeTable, datapoint, margin)
      {
        var way := members[i];
        MembersStep(done, members, i, wayTable, nodeTable, datapoint, margin);
        if way in wayTable {
          var near := WayIsNear(wayTable[way], nodeTable, datapoint, margin);
          if near {
            order := AddKey(order, way);
          }
        }
        i := i + 1;
      }
      RoutesStep(routes, r);
      r := r + 1;
    }
    assert routes[..r] == routes;
  }

  /** The fallback: every route way, in first-seen order. */
  method CollectRouteWays(routes: seq<OsmTables.RouteInfo>, wayTable: WayTable) returns (order: seq<int>)
    ensures order == RouteWays(RouteMembers(routes), wayTable)
  {
    order := [];
    var r := 0;
    while r < |routes|
      invariant 0 <= r <= |routes|
      invariant order == RouteWays(RouteMembers(routes[..r]), wayTable)
    {
      ghost var done := RouteMembers(routes[..r]);
      var members := routes[r].members;
      var i := 0;
      assert done + members[..i] == done;
      while i < |members|
        invariant 0 <= i <= |members|
        invariant order == RouteWays(done + members[..i], wayTable)
      {
        var way := members[i];
        assert (done + members[..i + 1])[..|done| + i] == done + members[..i];
        if way in wayTable {
          order := AddKey(order, way);
        }
        i := i + 1;
      }
      RoutesStep(routes, r);
      r := r + 1;
    }
    assert routes[..r] == routes;
  }

  /** Builds `possible_ways` (as its key order) with the coarse filter and
      its fallback. */
  method PossibleWays(routes: seq<OsmTables.RouteInfo>, wayTable: WayTable, nodeTable: NodeTable,
                      datapoint: Point, margin: real) returns (order: seq<int>)
    requires WaysResolved(wayTable, nodeTable)
    ensures order == PossibleWayOrder(routes, wayTable, nodeTable, datapoint, margin)
  {
    order := CollectNearWays(routes, wayTable, nodeTable, datapoint, margin);
    if order == [] {
      order := CollectRouteWays(routes, wayTable);
    }
  }

  // ---------------------------------------------------------------------
  // Coarse pass: the closest way node

  /** Node `index` of way `way`, at `point`. */
  datatype Candidate = Candidate(way: int, index: int, point: Point)

  /** The running minimum: its distance, way, point and node index
      (`min_dist`, `min_way`, `min_projection`, `mid_dist_index`). */
  datatype Best = Best(dist: real, way: int, point: Point, index: int)

  /** Every possible way is in the way table. */
  predicate WaysKnown(order: seq<int>, wayTable: WayTable)
  {
    forall k :: 0 <= k < |order| ==> order[k] in wayTable
  }

  function WayCandidates(way: int, nodes: seq<int>, nodeTable: NodeTable): (cs: seq<Candidate>)
    requires forall k :: 0 <= k < |nodes| ==> nodes[k] in nodeTable
    ensures |cs| == |nodes|
    ensures forall k :: 0 <= k < |nodes| ==> cs[k] == Candidate(way, k, PointOf(nodeTable[nodes[k]]))
  {
    seq(|nodes|, k requires 0 <= k < |nodes| => Candidate(way, k, PointOf(nodeTable[nodes[k]])))
  }

  /** The way nodes in the order the coarse pass visits them. */
  function Candidates(order: seq<int>, wayTable: WayTable, nodeTable: NodeTable): seq<Candidate>
    requires WaysKnown(order, wayTable) && WaysResolved(wayTable, nodeTable)
  {
    if order == [] then []
    else
      var way := order[|order| - 1];
      Candidates(order[..|order| - 1], wayTable, nodeTable) + WayCandidates(way, wayTable[way], nodeTable)
  }

  /** One step of the running minimum: a strictly closer node replaces the
      best so far; `None` stands for `min_dist = inf`. */
  function Consider(best: Option<Best>, c: Candidate, d: real): Option<Best>
  {
    if best.None? || d < best.value.dist then Some(Best(d, c.way, c.point, c.index)) else best
  }

  /** The running minimum after visiting every candidate. */
  function RunningMin(best: Option<Best>, cs: seq<Candidate>, sqrt: real -> real, datapoint: Point): Option<Best>
  {
    if cs == [] then best
    else
      var c := cs[|cs| - 1];
      Consider(RunningMin(best, cs[..|cs| - 1], sqrt, datapoint), c, Distance.Dist(sqrt, c.point, datapoint))
  }

  lemma {:induction false} RunningMinAppend(best: Option<Best>, xs: seq<Candidate>, ys: seq<Candidate>,
                                            sqrt: real -> real, datapoint: Point)
    ensures RunningMin(best, xs + ys, sqrt, datapoint) == RunningMin(RunningMin(best, xs, sqrt, datapoint), ys, sqrt, datapoint)
  {
    if ys != [] {
      var zs := xs + ys;
      assert zs[..|zs| - 1] == xs + ys[..|ys| - 1];
      RunningMinAppend(best, xs, ys[..|ys| - 1], sqrt, datapoint);
    } else {
      assert xs + ys == xs;
    }
  }

  lemma RunningMinStep(best: Option<Best>, cs: seq<Candidate>, i: nat, sqrt: real -> real, datapoint: Point)
    requires i < |cs|
    ensures RunningMin(best, cs[..i + 1], sqrt, datapoint)
            == Consider(RunningMin(best, cs[..i], sqrt, datapoint), cs[i], Distance.Dist(sqrt, cs[i].point, datapoint))
  {
    assert cs[..i + 1][..i] == cs[..i];
  }

  lemma CandidatesStep(order: seq<int>, wayTable: WayTable, nodeTable: NodeTable, w: nat)
    requires w < |order| && WaysKnown(order, wayTable) && WaysResolved(wayTable, nodeTable)
    ensures WaysKnown(order[..w], wayTable) && WaysKnown(order[..w + 1], wayTable)
    ensures Candidates(order[..w + 1], wayTable, nodeTable)
            == Candidates(order[..w], wayTable, nodeTable) + WayCandidates(order[w], wayTable[order[w]], nodeTable)
  {
    assert order[..w + 1][..w] == order[..w];
  }

  /** The best-so-far record for candidate c. */
  function BestOf(c: Candidate, sqrt: real -> real, datapoint: Point): Best
  {
    Best(Distance.Dist(sqrt, c.point, datapoint), c.way, c.point, c.index)
  }

  /** The distances of the candidates to the data point, in order. */
  function DistsOf(cs: seq<Candidate>, sqrt: real -> real, datapoint: Point): (ds: seq<real>)
    ensures |ds| == |cs|
    ensures forall k :: 0 <= k < |cs| ==> ds[k] == Distance.Dist(sqrt, cs[k].point, datapoint)
  {
    seq(|cs|, k requires 0 <= k < |cs| => Distance.Dist(sqrt, cs[k].point, datapoint))
  }

  /** Entry j is the first minimum: no entry is smaller, and every earlier
      one is strictly larger. */
  predicate FirstMinAt(ds: seq<real>, j: int)
  {
    && 0 <= j < |ds|
    && (forall k :: 0 <= k < |ds| ==> ds[j] <= ds[k])
    && (forall k :: 0 <= k < j ==> ds[j] < ds[k])
  }

  /** Candidate j is the first closest: no candidate is closer, and every
      earlier one is strictly farther. */
  predicate FirstClosestAt(cs: seq<Candidate>, j: int, sqrt: real -> real, datapoint: Point)
  {
    FirstMinAt(DistsOf(cs, sqrt, datapoint), j)
  }

  /** Appending x keeps the first minimum unless x is strictly smaller, in
      which case x becomes it. */
  lemma FirstMinExtend(ds: seq<real>, x: real, j: int)
    requires FirstMinAt(ds, j)
    ensures x < ds[j] ==> FirstMinAt(ds + [x], |ds|)
    ensures ds[j] <= x ==> FirstMinAt(ds + [x], j)
  {
    var es := ds + [x];
    assert forall k :: 0 <= k < |ds| ==> es[k] == ds[k];
  }

  /** Starting from `min_dist = inf`, the running minimum is the first
      closest candidate, and there is one whenever there is a candidate. */
  lemma {:induction false} RunningMinIsFirstClosest(cs: seq<Candidate>, sqrt: real -> real, datapoint: Point)
    ensures var r := RunningMin(None, cs, sqrt, datapoint);
      && (r.None? <==> cs == [])
      && (r.Some? ==> exists j :: FirstClosestAt(cs, j, sqrt, datapoint) && r.value == BestOf(cs[j], sqrt, datapoint))
  {
    if cs != [] {
      var prefix := cs[..|cs| - 1];
      RunningMinIsFirstClosest(prefix, sqrt, datapoint);
      var before := RunningMin(None, prefix, sqrt, datapoint);
      var d := Distance.Dist(sqrt, cs[|cs| - 1].point, datapoint);
      var ds := DistsOf(prefix, sqrt, datapoint);
      assert DistsOf(cs, sqrt, datapoint) == ds + [d];
      if before.Some? {
        var j :| FirstClosestAt(prefix, j, sqrt, datapoint) && before.value == BestOf(prefix[j], sqrt, datapoint);
        FirstMinExtend(ds, d, j);
        if d < before.value.dist {
          assert FirstClosestAt(cs, |cs| - 1, sqrt, datapoint);
        } else {
          assert cs[j] == prefix[j];
          assert FirstClosestAt(cs, j, sqrt, datapoint);
        }
      } else {
        assert FirstMinAt(DistsOf(cs, sqrt, datapoint), 0);
      }
    }
  }

  /** The coarse pass over the possible ways and their nodes. */
  method CoarsePass(order: seq<int>, wayTable: WayTable, nodeTable: NodeTable, datapoint: Point, sqrt: real -> real)
    returns (best: Option<Best>)
    requires WaysKnown(order, wayTable) && WaysResolved(wayTable, nodeTable)
    ensures best == RunningMin(None, Candidates(order, wayTable, nodeTable), sqrt, datapoint)
  {
    best := None;
    var w := 0;
    while w < |order|
      invariant 0 <= w <= |order|
      invariant best == RunningMin(None, Candidates(order[..w], wayTable, nodeTable), sqrt, datapoint)
    {
      var wayId := order[w];
      var nodeIds := wayTable[wayId];
      ghost var before := best;
      ghost var cs := WayCandidates(wayId, nodeIds, nodeTable);
      var i := 0;
      while i < |nodeIds|
        invariant 0 <= i <= |nodeIds|
        invariant best == RunningMin(before, cs[..i], sqrt, datapoint)
      {
        var node := PointOf(nodeTable[nodeIds[i]]);
        var tempDistance := Distance.Dist(sqrt, node, datapoint);
        RunningMinStep(before, cs, i, sqrt, datapoint);
        if best.None? || tempDistance < best.value.dist {
          best := Some(Best(tempDistance, wayId, node, i));
        }
        i := i + 1;
      }
      assert cs[..i] == cs;
      CandidatesStep(order, wayTable, nodeTable, w);
      RunningMinAppend(None, Candidates(order[..w], wayTable, nodeTable), cs, sqrt, datapoint);
      w := w + 1;
    }
    assert order[..w] == order;
  }

  // ---------------------------------------------------------------------
  // Edge window around the closest node

  /** `range(lo, hi)`. */
  function Range(lo: int, hi: int): (r: seq<int>)
    ensures |r| == if lo <= hi then hi - lo else 0
    ensures forall k :: 0 <= k < |r| ==> r[k] == lo + k
    decreases if lo <= hi then hi - lo else 0
  {
    if lo >= hi then [] else Range(lo, hi - 1) + [hi - 1]
  }

  /** The edges (i, i + 1) of a way of `len` nodes tried around its closest
      node `idx`: all edges of a way of at most three nodes, the first two
      edges at the start, the last edge near the end, else the edges before,
      at and after the node. */
  function EdgeWindow(len: int, idx: int): (r: seq<int>)
    requires 0 <= idx < len
    ensures forall k :: 0 <= k < |r| ==> 0 <= r[k] < len - 1
    ensures len <= 3 ==> r == Range(0, len - 1)
  {
    if len <= 3 then Range(0, len - 1)
    else if idx == 0 then Range(0, 2)
    else if idx >= len - 2 then Range(len - 2, len - 1)
    else Range(idx - 1, idx + 2)
  }

  /** Whenever the way has an edge, the window holds an edge that ends at
      the closest node, and it holds at most three edges. */
  lemma EdgeWindowTouchesClosestNode(len: int, idx: int)
    requires 0 <= idx < len && len >= 2
    ensures var r := EdgeWindow(len, idx);
      && 1 <= |r| <= 3
      && exists k :: 0 <= k < |r| && (r[k] == idx || r[k] + 1 == idx)
  {
    var r := EdgeWindow(len, idx);
    if len <= 3 {
      if idx == 0 {
        assert r[0] == idx;
      } else {
        assert r[idx - 1] + 1 == idx;
      }
    } else if idx == 0 {
      assert r[0] == idx;
    } else if idx >= len - 2 {
      assert r[0] == len - 2;
    } else {
      assert r[1] == idx;
    }
  }

  // ---------------------------------------------------------------------
  // Projection onto an edge

  datatype MatchError =
    | ZeroLengthEdge   // ZeroDivisionError: an edge whose two nodes coincide
    | NoCandidateWay   // KeyError: no possible way has a node

  /** The foot of the perpendicular from c to the line through a and b,
      `a + ((u . v) / |u|^2) u` with u = b - a and v = c - a. A zero
      squared length is a division by zero, which coincident nodes cause. */
  function Project(a: Point, b: Point, c: Point): (r: Result<Point, MatchError>)
    ensures a == b ==> r == Failure(ZeroLengthEdge)
    ensures r.Failure? ==> r.error == ZeroLengthEdge
    ensures r.Success? ==> a != b && OnLine(a, b, r.value) && Perpendicular(a, b, c, r.value)
  {
    var u0, u1 := b.lat - a.lat, b.lng - a.lng;
    var v0, v1 := c.lat - a.lat, c.lng - a.lng;
    var norm2 := u0 * u0 + u1 * u1;
    if norm2 == 0.0 then
      Failure(ZeroLengthEdge)
    else
      var dot := u0 * v0 + u1 * v1;
      var t := dot / norm2;
      ProjectionArithmetic(u0, u1, v0, v1, norm2, dot, t);
      Success(Distance.Point(t * u0 + a.lat, t * u1 + a.lng))
  }

  /** p lies on the line through a and b: p - a is parallel to b - a. */
  predicate OnLine(a: Point, b: Point, p: Point)
  {
    (p.lat - a.lat) * (b.lng - a.lng) == (p.lng - a.lng) * (b.lat - a.lat)
  }

  /** c - p is orthogonal to b - a. */
  predicate Perpendicular(a: Point, b: Point, c: Point, p: Point)
  {
    (c.lat - p.lat) * (b.lat - a.lat) + (c.lng - p.lng) * (b.lng - a.lng) == 0.0
  }

  lemma ProjectionArithmetic(u0: real, u1: real, v0: real, v1: real, norm2: real, dot: real, t: real)
    requires norm2 == u0 * u0 + u1 * u1 && norm2 != 0.0
    requires dot == u0 * v0 + u1 * v1 && t == dot / norm2
    ensures (v0 - t * u0) * u0 + (v1 - t * u1) * u1 == 0.0
    ensures (t * u0) * u1 == (t * u1) * u0
  {
    assert t * norm2 == dot;
    assert (v0 - t * u0) * u0 + (v1 - t * u1) * u1 == dot - t * norm2;
  }

  /** Whenever the edge has a length, the projection is the only point of
      the line through a and b whose offset from c is orthogonal to the
      edge. */
  lemma ProjectionUnique(a: Point, b: Point, c: Point, p: Point)
    requires Project(a, b, c).Success?
    requires OnLine(a, b, p) && Perpendicular(a, b, c, p)
    ensures Project(a, b, c) == Success(p)
  {
    var u0, u1 := b.lat - a.lat, b.lng - a.lng;
    var v0, v1 := c.lat - a.lat, c.lng - a.lng;
    var t := (u0 * v0 + u1 * v1) / (u0 * u0 + u1 * u1);
    assert Project(a, b, c).value == Distance.Point(t * u0 + a.lat, t * u1 + a.lng);
    FootUnique(u0, u1, v0, v1, p.lat - a.lat, p.lng - a.lng);
    assert p.lat == t * u0 + a.lat && p.lng == t * u1 + a.lng;
  }

  /** Within the plane: if w is parallel to the non-zero u and v - w is
      orthogonal to u, then w is the projection (v . u / |u|^2) u. */
  lemma FootUnique(u0: real, u1: real, v0: real, v1: real, w0: real, w1: real)
    requires u0 * u0 + u1 * u1 != 0.0
    requires w0 * u1 == w1 * u0
    requires (v0 - w0) * u0 + (v1 - w1) * u1 == 0.0
    ensures w0 == (u0 * v0 + u1 * v1) / (u0 * u0 + u1 * u1) * u0
    ensures w1 == (u0 * v0 + u1 * v1) / (u0 * u0 + u1 * u1) * u1
  {
    assert u0 * v0 + u1 * v1 == w0 * u0 + w1 * u1;
    ParallelComponent(u0, u1, w0, w1);
  }

  /** A vector w parallel to a non-zero u is (w . u / |u|^2) u. */
  lemma ParallelComponent(u0: real, u1: real, w0: real, w1: real)
    requires u0 * u0 + u1 * u1 != 0.0
    requires w0 * u1 == w1 * u0
    ensures w0 == (w0 * u0 + w1 * u1) / (u0 * u0 + u1 * u1) * u0
    ensures w1 == (w0 * u0 + w1 * u1) / (u0 * u0 + u1 * u1) * u1
  {
    var norm2, d := u0 * u0 + u1 * u1, w0 * u0 + w1 * u1;
    var t := d / norm2;
    assert t * norm2 == d;
    assert w0 * norm2 == d * u0 by {
      assert w0 * u1 * u1 == w1 * u0 * u1;
    }
    assert w1 * norm2 == d * u1 by {
      assert w1 * u0 * u0 == w0 * u1 * u0;
    }
    assert (t * u0) * norm2 == (t * norm2) * u0;
    assert (t * u1) * norm2 == (t * norm2) * u1;
    CancelNonZero(w0, t * u0, norm2);
    CancelNonZero(w1, t * u1, norm2);
  }

  /** Scaling by a non-zero factor is injective. */
  lemma CancelNonZero(x: real, y: real, k: real)
    requires k != 0.0 && x * k == y * k
    ensures x == y
  {
    assert (x - y) * k == 0.0;
  }

  /** Whenever the edge has a length, each of its ends projects onto
      itself. */
  lemma EndpointsProjectToThemselves(a: Point, b: Point)
    requires Project(a, b, a).Success?
    ensures Project(a, b, a) == Success(a)
    ensures Project(a, b, b) == Success(b)
  {
    StartProjectsToItself(a, b);
    assert Project(a, b, b).Success?;
    EndProjectsToItself(a, b);
  }

  lemma StartProjectsToItself(a: Point, b: Point)
    requires Project(a, b, a).Success?
    ensures Project(a, b, a) == Success(a)
  {
    var u0, u1 := b.lat - a.lat, b.lng - a.lng;
    var norm2 := u0 * u0 + u1 * u1;
    assert norm2 != 0.0;
    var dot := u0 * (a.lat - a.lat) + u1 * (a.lng - a.lng);
    assert dot == 0.0;
    var t := dot / norm2;
    assert t == 0.0;
    assert t * u0 == 0.0 && t * u1 == 0.0;
    assert Project(a, b, a).value == Distance.Point(t * u0 + a.lat, t * u1 + a.lng);
  }

  lemma EndProjectsToItself(a: Point, b: Point)
    requires Project(a, b, b).Success?
    ensures Project(a, b, b) == Success(b)
  {
    var u0, u1 := b.lat - a.lat, b.lng - a.lng;
    var norm2 := u0 * u0 + u1 * u1;
    assert norm2 != 0.0;
    var dot := u0 * (b.lat - a.lat) + u1 * (b.lng - a.lng);
    assert dot == norm2;
    var t := dot / norm2;
    assert t * norm2 == dot;
    assert t == 1.0;
    assert t * u0 == u0 && t * u1 == u1;
    assert Project(a, b, b).value == Distance.Point(t * u0 + a.lat, t * u1 + a.lng);
  }

  /** The closed bounding box of the edge (a, b), on both axes. */
  predicate InBox(p: Point, a: Point, b: Point)
  {
    && (if a.lat <= b.lat then a.lat else b.lat) <= p.lat <= (if a.lat <= b.lat then b.lat else a.lat)
    && (if a.lng <= b.lng then a.lng else b.lng) <= p.lng <= (if a.lng <= b.lng then b.lng else a.lng)
  }

  // ---------------------------------------------------------------------
  // Fine pass: projections onto the edges of the window

  /** Node i of a way, as a point. */
  function NodePoint(nodes: seq<int>, i: int, nodeTable: NodeTable): Point
    requires 0 <= i < |nodes| && nodes[i] in nodeTable
  {
    PointOf(nodeTable[nodes[i]])
  }

  /** Every node of the way has coordinates. */
  predicate NodesResolved(nodes: seq<int>, nodeTable: NodeTable)
  {
    forall k :: 0 <= k < |nodes| ==> nodes[k] in nodeTable
  }

  /** Every edge of the window is an edge of the way. */
  predicate EdgesOf(edges: seq<int>, nodes: seq<int>)
  {
    forall k :: 0 <= k < |edges| ==> 0 <= edges[k] < |nodes| - 1
  }

  /** The projection of the point onto edge i lands in the edge's box. */
  predicate LandsOnEdge(nodes: seq<int>, i: int, nodeTable: NodeTable, datapoint: Point, p: Point)
    requires NodesResolved(nodes, nodeTable) && 0 <= i < |nodes| - 1
  {
    var a, b := NodePoint(nodes, i, nodeTable), NodePoint(nodes, i + 1, nodeTable);
    Project(a, b, datapoint) == Success(p) && InBox(p, a, b)
  }

  /** One edge of the fine pass: a projection that lands on the edge and is
      strictly closer replaces the point and the distance; the way and the
      node index stay. */
  function RefineStep(cur: Best, i: int, nodes: seq<int>, nodeTable: NodeTable, datapoint: Point,
                      sqrt: real -> real): Result<Best, MatchError>
    requires NodesResolved(nodes, nodeTable) && 0 <= i < |nodes| - 1
  {
    var a, b := NodePoint(nodes, i, nodeTable), NodePoint(nodes, i + 1, nodeTable);
    var p := Project(a, b, datapoint);
    if p.Failure? then Failure(p.error)
    else if InBox(p.value, a, b) && Distance.Dist(sqrt, p.value, datapoint) < cur.dist then
      Success(Best(Distance.Dist(sqrt, p.value, datapoint), cur.way, p.value, cur.index))
    else Success(cur)
  }

  /** The fine pass over the edges of the window, in order; a zero-length
      edge aborts it. */
  function Refine(best: Best, edges: seq<int>, nodes: seq<int>, nodeTable: NodeTable, datapoint: Point,
                  sqrt: real -> real): Result<Best, MatchError>
    requires NodesResolved(nodes, nodeTable) && EdgesOf(edges, nodes)
  {
    if edges == [] then Success(best)
    else
      var before := Refine(best, edges[..|edges| - 1], nodes, nodeTable, datapoint, sqrt);
      if before.Failure? then before
      else RefineStep(before.value, edges[|edges| - 1], nodes, nodeTable, datapoint, sqrt)
  }

  /** The fine pass keeps the way and the node index and never moves away:
      it returns the coarse result, or a strictly closer projection that
      lands on one of the window's edges, with its distance. It fails only
      on a zero-length edge. */
  lemma {:induction false} RefineKeepsWay(best: Best, edges: seq<int>, nodes: seq<int>, nodeTable: NodeTable,
                                          datapoint: Point, sqrt: real -> real)
    requires NodesResolved(nodes, nodeTable) && EdgesOf(edges, nodes)
    ensures var r := Refine(best, edges, nodes, nodeTable, datapoint, sqrt);
      && (r.Failure? ==> r.error == ZeroLengthEdge)
      && (r.Success? ==>
            && r.value.way == best.way && r.value.index == best.index
            && r.value.dist <= best.dist
            && (r.value == best
                || (&& r.value.dist == Distance.Dist(sqrt, r.value.point, datapoint)
                    && exists k :: 0 <= k < |edges| && LandsOnEdge(nodes, edges[k], nodeTable, datapoint, r.value.point))))
  {
    if edges != [] {
      var prefix := edges[..|edges| - 1];
      RefineKeepsWay(best, prefix, nodes, nodeTable, datapoint, sqrt);
      var before := Refine(best, prefix, nodes, nodeTable, datapoint, sqrt);
      var r := Refine(best, edges, nodes, nodeTable, datapoint, sqrt);
      if before.Success? && r.Success? && r.value != before.value {
        assert LandsOnEdge(nodes, edges[|edges| - 1], nodeTable, datapoint, r.value.point);
      }
      if before.Success? && r.Success? && r.value == before.value && before.value != best {
        var k :| 0 <= k < |prefix| && LandsOnEdge(nodes, prefix[k], nodeTable, datapoint, before.value.point);
        assert edges[k] == prefix[k];
      }
    }
  }

  /** A failure of the fine pass on a prefix of the window is its result. */
  lemma {:induction false} RefineFailurePersists(best: Best, edges: seq<int>, k: int, nodes: seq<int>,
                                                 nodeTable: NodeTable, datapoint: Point, sqrt: real -> real)
    requires NodesResolved(nodes, nodeTable) && EdgesOf(edges, nodes) && 0 <= k <= |edges|
    requires Refine(best, edges[..k], nodes, nodeTable, datapoint, sqrt).Failure?
    ensures Refine(best, edges, nodes, nodeTable, datapoint, sqrt) == Refine(best, edges[..k], nodes, nodeTable, datapoint, sqrt)
    decreases |edges| - k
  {
    if k < |edges| {
      assert edges[..k + 1][..k] == edges[..k];
      RefineFailurePersists(best, edges, k + 1, nodes, nodeTable, datapoint, sqrt);
    } else {
      assert edges[..k] == edges;
    }
  }

  /** The fine-pass loop, stopping at the first zero-length edge. */
  method FinePass(best: Best, edges: seq<int>, nodes: seq<int>, nodeTable: NodeTable, datapoint: Point,
                  sqrt: real -> real) returns (r: Result<Best, MatchError>)
    requires NodesResolved(nodes, nodeTable) && EdgesOf(edges, nodes)
    ensures r == Refine(best, edges, nodes, nodeTable, datapoint, sqrt)
  {
    var minDist, minProjection := best.dist, best.point;
    var k := 0;
    while k < |edges|
      invariant 0 <= k <= |edges|
      invariant Refine(best, edges[..k], nodes, nodeTable, datapoint, sqrt)
                  == Success(Best(minDist, best.way, minProjection, best.index))
    {
      assert edges[..k + 1][..k] == edges[..k];
      var i := edges[k];
      var a, b := NodePoint(nodes, i, nodeTable), NodePoint(nodes, i + 1, nodeTable);
      var projection := Project(a, b, datapoint);
      if projection.Failure? {
        RefineFailurePersists(best, edges, k + 1, nodes, nodeTable, datapoint, sqrt);
        return Failure(projection.error);
      }
      var p := projection.value;
      if InBox(p, a, b) {
        var tempDistance := Distance.Dist(sqrt, p, datapoint);
        if tempDistance < minDist {
          minDist := tempDistance;
          minProjection := p;
        }
      }
      k := k + 1;
    }
    assert edges[..k] == edges;
    r := Success(Best(minDist, best.way, minProjection, best.index));
  }

  // ---------------------------------------------------------------------
  // The whole matcher

  /** Node `c.index` of possible way `c.way`, at its coordinates. */
  predicate CandidateOf(c: Candidate, order: seq<int>, wayTable: WayTable, nodeTable: NodeTable)
    requires WaysResolved(wayTable, nodeTable)
  {
    && c.way in order && c.way in wayTable
    && 0 <= c.index < |wayTable[c.way]|
    && c.point == PointOf(nodeTable[wayTable[c.way][c.index]])
  }

  /** The coarse pass visits nodes of possible ways only, and has nothing
      to visit exactly when no possible way has a node. */
  lemma CandidatesMeaning(order: seq<int>, wayTable: WayTable, nodeTable: NodeTable)
    requires WaysKnown(order, wayTable) && WaysResolved(wayTable, nodeTable)
    ensures var cs := Candidates(order, wayTable, nodeTable);
      && (forall k :: 0 <= k < |cs| ==> CandidateOf(cs[k], order, wayTable, nodeTable))
      && (cs == [] <==> forall w :: w in order ==> wayTable[w] == [])
  {
    CandidatesOfOrder(order, wayTable, nodeTable);
    CandidatesEmpty(order, wayTable, nodeTable);
  }

  lemma {:induction false} CandidatesOfOrder(order: seq<int>, wayTable: WayTable, nodeTable: NodeTable)
    requires WaysKnown(order, wayTable) && WaysResolved(wayTable, nodeTable)
    ensures forall k :: 0 <= k < |Candidates(order, wayTable, nodeTable)| ==>
              CandidateOf(Candidates(order, wayTable, nodeTable)[k], order, wayTable, nodeTable)
  {
    if order != [] {
      var prefix := order[..|order| - 1];
      var way := order[|order| - 1];
      CandidatesOfOrder(prefix, wayTable, nodeTable);
      var before := Candidates(prefix, wayTable, nodeTable);
      var cs := Candidates(order, wayTable, nodeTable);
      assert order == prefix + [way];
      forall k | 0 <= k < |cs|
        ensures CandidateOf(cs[k], order, wayTable, nodeTable)
      {
        var added := WayCandidates(way, wayTable[way], nodeTable);
        assert cs == before + added;
        if k < |before| {
          assert cs[k] == before[k];
          assert CandidateOf(before[k], prefix, wayTable, nodeTable);
          assert before[k].way in prefix;
        } else {
          assert cs[k] == added[k - |before|];
        }
      }
    }
  }

  lemma {:induction false} CandidatesEmpty(order: seq<int>, wayTable: WayTable, nodeTable: NodeTable)
    requires WaysKnown(order, wayTable) && WaysResolved(wayTable, nodeTable)
    ensures Candidates(order, wayTable, nodeTable) == [] <==> forall w :: w in order ==> wayTable[w] == []
  {
    if order != [] {
      var prefix := order[..|order| - 1];
      var way := order[|order| - 1];
      CandidatesEmpty(prefix, wayTable, nodeTable);
      assert order == prefix + [way];
      if Candidates(order, wayTable, nodeTable) == [] {
        forall w | w in order
          ensures wayTable[w] == []
        {
          if w != way {
            assert w in prefix;
          }
        }
      }
    }
  }

  /** Every possible way is in the way table. */
  lemma PossibleWaysKnown(routes: seq<OsmTables.RouteInfo>, wayTable: WayTable, nodeTable: NodeTable,
                          datapoint: Point, margin: real)
    requires WaysResolved(wayTable, nodeTable)
    ensures WaysKnown(PossibleWayOrder(routes, wayTable, nodeTable, datapoint, margin), wayTable)
  {
    PossibleWaysAreRouteWays(routes, wayTable, nodeTable, datapoint, margin);
    var order := PossibleWayOrder(routes, wayTable, nodeTable, datapoint, margin);
    assert forall w :: w in order ==> w in wayTable;
    forall k | 0 <= k < |order|
      ensures order[k] in wayTable
    {
      assert order[k] in order;
    }
  }

  /** The coarse result is a candidate node, with its own distance. */
  lemma BestIsCandidate(order: seq<int>, wayTable: WayTable, nodeTable: NodeTable, sqrt: real -> real, datapoint: Point)
    requires WaysKnown(order, wayTable) && WaysResolved(wayTable, nodeTable)
    ensures var cs := Candidates(order, wayTable, nodeTable);
      var best := RunningMin(None, cs, sqrt, datapoint);
      && (best.None? <==> cs == [])
      && (best.Some? ==>
            && CandidateOf(Candidate(best.value.way, best.value.index, best.value.point), order, wayTable, nodeTable)
            && best.value.dist == Distance.Dist(sqrt, best.value.point, datapoint)
            && forall k :: 0 <= k < |cs| ==> best.value.dist <= Distance.Dist(sqrt, cs[k].point, datapoint))
  {
    var cs := Candidates(order, wayTable, nodeTable);
    RunningMinIsFirstClosest(cs, sqrt, datapoint);
    CandidatesMeaning(order, wayTable, nodeTable);
    var best := RunningMin(None, cs, sqrt, datapoint);
    if best.Some? {
      var j :| FirstClosestAt(cs, j, sqrt, datapoint) && best.value == BestOf(cs[j], sqrt, datapoint);
      assert Candidate(best.value.way, best.value.index, best.value.point) == cs[j];
    }
  }

  /** `relations`: the routes of the given relation ids, in order. */
  function Routes(relationTable: map<int, OsmTables.RouteInfo>, ids: seq<int>): (routes: seq<OsmTables.RouteInfo>)
    requires forall k :: 0 <= k < |ids| ==> ids[k] in relationTable
    ensures |routes| == |ids|
    ensures forall k :: 0 <= k < |ids| ==> routes[k] == relationTable[ids[k]]
  {
    seq(|ids|, k requires 0 <= k < |ids| => relationTable[ids[k]])
  }

  /** What `find_nearest_road` does: returns a point and a way id, or
      raises. */
  datatype MatchOutcome =
    | Returned(projection: Point, way: int)
    | Raised(error: MatchError)

  /** The possible ways of the given relation ids. */
  function PossibleOf(relationTable: map<int, OsmTables.RouteInfo>, ids: seq<int>, wayTable: WayTable,
                      nodeTable: NodeTable, datapoint: Point, margin: real): (order: seq<int>)
    requires WaysResolved(wayTable, nodeTable)
    requires forall k :: 0 <= k < |ids| ==> ids[k] in relationTable
    ensures WaysKnown(order, wayTable)
  {
    PossibleWaysKnown(Routes(relationTable, ids), wayTable, nodeTable, datapoint, margin);
    PossibleWayOrder(Routes(relationTable, ids), wayTable, nodeTable, datapoint, margin)
  }

  /** The coarse result over the possible ways: `None` when no possible way
      has a node. */
  function Coarse(order: seq<int>, wayTable: WayTable, nodeTable: NodeTable, datapoint: Point,
                  sqrt: real -> real): (best: Option<Best>)
    requires WaysKnown(order, wayTable) && WaysResolved(wayTable, nodeTable)
    ensures best.Some? ==> best.value.way in wayTable && 0 <= best.value.index < |wayTable[best.value.way]|
  {
    BestIsCandidate(order, wayTable, nodeTable, sqrt, datapoint);
    RunningMin(None, Candidates(order, wayTable, nodeTable), sqrt, datapoint)
  }

  /** The fine pass over the edge window of the closest node's way. */
  function Fine(b: Best, wayTable: WayTable, nodeTable: NodeTable, datapoint: Point,
                sqrt: real -> real): Result<Best, MatchError>
    requires WaysResolved(wayTable, nodeTable)
    requires b.way in wayTable && 0 <= b.index < |wayTable[b.way]|
  {
    var nodes := wayTable[b.way];
    Refine(b, EdgeWindow(|nodes|, b.index), nodes, nodeTable, datapoint, sqrt)
  }

  /** The matcher as a whole: `([0, 0], -1)` for no routes; otherwise the
      coarse pass over the possible ways, then the fine pass over the edge
      window of the closest node's way. */
  function NearestRoad(relationTable: map<int, OsmTables.RouteInfo>, ids: seq<int>, wayTable: WayTable,
                       nodeTable: NodeTable, datapoint: Point, margin: real, sqrt: real -> real): (r: MatchOutcome)
    requires WaysResolved(wayTable, nodeTable)
    requires forall k :: 0 <= k < |ids| ==> ids[k] in relationTable
    ensures ids == [] ==> r == Returned(Distance.Point(0.0, 0.0), -1)
  {
    if ids == [] then Returned(Distance.Point(0.0, 0.0), -1)
    else
      var order := PossibleOf(relationTable, ids, wayTable, nodeTable, datapoint, margin);
      var best := Coarse(order, wayTable, nodeTable, datapoint, sqrt);
      if best.None? then Raised(NoCandidateWay)
      else
        var fine := Fine(best.value, wayTable, nodeTable, datapoint, sqrt);
        if fine.Failure? then Raised(fine.error) else Returned(fine.value.point, fine.value.way)
  }

  /** For a non-empty route list, the matcher raises the missing-way
      error exactly when no possible way has a node, and otherwise raises
      only for a zero-length edge. */
  lemma NearestRoadRaises(relationTable: map<int, OsmTables.RouteInfo>, ids: seq<int>, wayTable: WayTable,
                          nodeTable: NodeTable, datapoint: Point, margin: real, sqrt: real -> real)
    requires WaysResolved(wayTable, nodeTable)
    requires forall k :: 0 <= k < |ids| ==> ids[k] in relationTable
    requires ids != []
    ensures var order := PossibleOf(relationTable, ids, wayTable, nodeTable, datapoint, margin);
      var r := NearestRoad(relationTable, ids, wayTable, nodeTable, datapoint, margin, sqrt);
      && (r == Raised(NoCandidateWay) <==> forall w :: w in order ==> wayTable[w] == [])
      && (r.Raised? ==> r.error == NoCandidateWay || r.error == ZeroLengthEdge)
  {
    var order := PossibleOf(relationTable, ids, wayTable, nodeTable, datapoint, margin);
    BestIsCandidate(order, wayTable, nodeTable, sqrt, datapoint);
    CandidatesMeaning(order, wayTable, nodeTable);
    var best := Coarse(order, wayTable, nodeTable, datapoint, sqrt);
    if best.Some? {
      var b := best.value;
      var nodes := wayTable[b.way];
      RefineKeepsWay(b, EdgeWindow(|nodes|, b.index), nodes, nodeTable, datapoint, sqrt);
    }
  }

  /** The fine pass from the closest node of a way returns that node or a
      projection landing on an edge of the way, never farther away, with
      its own distance. */
  lemma FineResult(b: Best, wayTable: WayTable, nodeTable: NodeTable, datapoint: Point, sqrt: real -> real)
    requires WaysResolved(wayTable, nodeTable)
    requires b.way in wayTable && 0 <= b.index < |wayTable[b.way]|
    requires b.point == NodePoint(wayTable[b.way], b.index, nodeTable)
    requires b.dist == Distance.Dist(sqrt, b.point, datapoint)
    ensures var nodes, fine := wayTable[b.way], Fine(b, wayTable, nodeTable, datapoint, sqrt);
      fine.Success? ==>
        && fine.value.way == b.way
        && fine.value.dist == Distance.Dist(sqrt, fine.value.point, datapoint) <= b.dist
        && (|| fine.value.point == NodePoint(nodes, b.index, nodeTable)
            || exists i :: 0 <= i < |nodes| - 1 && LandsOnEdge(nodes, i, nodeTable, datapoint, fine.value.point))
  {
    var nodes := wayTable[b.way];
    var window := EdgeWindow(|nodes|, b.index);
    RefineKeepsWay(b, window, nodes, nodeTable, datapoint, sqrt);
    var fine := Refine(b, window, nodes, nodeTable, datapoint, sqrt);
    if fine.Success? && fine.value != b {
      var e :| 0 <= e < |window| && LandsOnEdge(nodes, window[e], nodeTable, datapoint, fine.value.point);
      assert 0 <= window[e] < |nodes| - 1;
    }
  }

  /** For a non-empty route list, a returned way is a possible way and the
      returned point is no farther from the datapoint than any node of any
      possible way: it is the closest node itself, or its projection onto
      an edge of the way. */
  lemma NearestRoadIsClosest(relationTable: map<int, OsmTables.RouteInfo>, ids: seq<int>, wayTable: WayTable,
                             nodeTable: NodeTable, datapoint: Point, margin: real, sqrt: real -> real)
    requires WaysResolved(wayTable, nodeTable)
    requires forall k :: 0 <= k < |ids| ==> ids[k] in relationTable
    requires ids != []
    ensures var order := PossibleOf(relationTable, ids, wayTable, nodeTable, datapoint, margin);
      var r := NearestRoad(relationTable, ids, wayTable, nodeTable, datapoint, margin, sqrt);
      r.Returned? ==>
        && r.way in order
        && (forall w, k :: w in order && 0 <= k < |wayTable[w]| ==>
              Distance.Dist(sqrt, r.projection, datapoint) <= Distance.Dist(sqrt, PointOf(nodeTable[wayTable[w][k]]), datapoint))
        && (|| (exists k :: 0 <= k < |wayTable[r.way]| && r.projection == NodePoint(wayTable[r.way], k, nodeTable))
            || (exists i :: 0 <= i < |wayTable[r.way]| - 1 && LandsOnEdge(wayTable[r.way], i, nodeTable, datapoint, r.projection)))
  {
    var order := PossibleOf(relationTable, ids, wayTable, nodeTable, datapoint, margin);
    var cs := Candidates(order, wayTable, nodeTable);
    BestIsCandidate(order, wayTable, nodeTable, sqrt, datapoint);
    var best := Coarse(order, wayTable, nodeTable, datapoint, sqrt);
    if best.Some? {
      var b := best.value;
      FineResult(b, wayTable, nodeTable, datapoint, sqrt);
      var fine := Fine(b, wayTable, nodeTable, datapoint, sqrt);
      if fine.Success? {
        var p := fine.value.point;
        forall w, k | w in order && 0 <= k < |wayTable[w]|
          ensures Distance.Dist(sqrt, p, datapoint) <= Distance.Dist(sqrt, PointOf(nodeTable[wayTable[w][k]]), datapoint)
        {
          CandidateIsVisited(order, wayTable, nodeTable, w, k);
        }
      }
    }
  }

  /** The coarse pass visits point p at step j. */
  predicate VisitedAt(cs: seq<Candidate>, j: int, p: Point)
  {
    0 <= j < |cs| && cs[j].point == p
  }

  /** Every node of every possible way is visited by the coarse pass. */
  lemma {:induction false} CandidateIsVisited(order: seq<int>, wayTable: WayTable, nodeTable: NodeTable, w: int, k: int)
    requires WaysKnown(order, wayTable) && WaysResolved(wayTable, nodeTable)
    requires w in order && 0 <= k < |wayTable[w]|
    ensures exists j :: VisitedAt(Candidates(order, wayTable, nodeTable), j, PointOf(nodeTable[wayTable[w][k]]))
  {
    var prefix := order[..|order| - 1];
    var way := order[|order| - 1];
    var before := Candidates(prefix, wayTable, nodeTable);
    var cs := Candidates(order, wayTable, nodeTable);
    if w == way {
      var mine := WayCandidates(way, wayTable[way], nodeTable);
      assert cs == before + mine;
      assert cs[|before| + k] == mine[k];
      assert mine[k].point == PointOf(nodeTable[wayTable[w][k]]);
      var j := |before| + k;
      assert VisitedAt(cs, j, PointOf(nodeTable[wayTable[w][k]]));
    } else {
      assert order == prefix + [way];
      assert w in prefix;
      CandidateIsVisited(prefix, wayTable, nodeTable, w, k);
      var j :| VisitedAt(before, j, PointOf(nodeTable[wayTable[w][k]]));
      assert cs[j] == before[j];
      assert VisitedAt(cs, j, PointOf(nodeTable[wayTable[w][k]]));
    }
  }

  /** `relations.append(final_relation_table[id])` for each id. */
  method LookupRoutes(relationTable: map<int, OsmTables.RouteInfo>, ids: seq<int>) returns (routes: seq<OsmTables.RouteInfo>)
    requires forall k :: 0 <= k < |ids| ==> ids[k] in relationTable
    ensures routes == Routes(relationTable, ids)
  {
    routes := [];
    var k := 0;
    while k < |ids|
      invariant 0 <= k <= |ids|
      invariant routes == Routes(relationTable, ids[..k])
    {
      routes := routes + [relationTable[ids[k]]];
      k := k + 1;
    }
    assert ids[..k] == ids;
  }

  /** `find_nearest_road`. */
  method FindNearestRoad(relationTable: map<int, OsmTables.RouteInfo>, ids: seq<int>, wayTable: WayTable,
                         nodeTable: NodeTable, datapoint: Point, margin: real, sqrt: real -> real)
    returns (r: MatchOutcome)
    requires WaysResolved(wayTable, nodeTable)
    requires forall k :: 0 <= k < |ids| ==> ids[k] in relationTable
    ensures r == NearestRoad(relationTable, ids, wayTable, nodeTable, datapoint, margin, sqrt)
  {
    var routes := LookupRoutes(relationTable, ids);
    if |routes| == 0 {
      return Returned(Distance.Point(0.0, 0.0), -1);
    }
    var order := PossibleWays(routes, wayTable, nodeTable, datapoint, margin);
    PossibleWaysKnown(routes, wayTable, nodeTable, datapoint, margin);
    var best := CoarsePass(order, wayTable, nodeTable, datapoint, sqrt);
    if best.None? {
      return Raised(NoCandidateWay);
    }
    BestIsCandidate(order, wayTable, nodeTable, sqrt, datapoint);
    var nodes := wayTable[best.value.way];
    var window := EdgeWindow(|nodes|, best.value.index);
    var fine := FinePass(best.value, window, nodes, nodeTable, datapoint, sqrt);
    if fine.Failure? {
      return Raised(fine.error);
    }
    r := Returned(fine.value.point, fine.value.way);
  }
}
