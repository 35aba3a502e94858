/** Speed derivation and binning, `find_traffic_speed` (find_traffic_speed.py):
    consecutive GPS pings of one bus are paired, each accepted pair is
    matched to roads, its speed is appended to the sample lists of the
    matched ways in the pair's time bin, and every bin is finally averaged.
    The nearest-road matcher and the distance are parameters; the pings of
    each data file are given as a sequence. */
module SpeedDerivation {
  import opened Wrappers
  import Distance
  import opened Dicts
  import OsmTables
  import Matcher
  import SpeedMap
  import Strings

  type Point = Distance.Point

  /** Why `find_traffic_speed` stops without a result: the two interval
      checks, a relation without a `ref` tag, an exception of the matcher,
      or a sample list that does not exist (KeyError / IndexError). */
  datatype SpeedError =
    | IntervalOutOfRange
    | IntervalNotDivisor
    | MissingRef
    | MatcherRaised(cause: Matcher.MatchError)
    | UnknownWay(way: int)
    | BinOutOfRange(bin: int)

  const MinutesPerDay: int := 1440

  /** The interval checks: in (0, 1440] and a divisor of 1440; the result
      is the number of bins of a day. */
  function ValidateInterval(interval: int): (r: Result<nat, SpeedError>)
    ensures r == Failure(IntervalOutOfRange) <==> interval <= 0 || interval > MinutesPerDay
    ensures r == Failure(IntervalNotDivisor) <==> 0 < interval <= MinutesPerDay && MinutesPerDay % interval != 0
    ensures r.Success? ==> r.value >= 1 && r.value * interval == MinutesPerDay
  {
    if interval <= 0 || interval > MinutesPerDay then Failure(IntervalOutOfRange)
    else if MinutesPerDay % interval != 0 then Failure(IntervalNotDivisor)
    else
      BinsPerDay(interval);
      Success(MinutesPerDay / interval)
  }

  lemma BinsPerDay(interval: int)
    requires 0 < interval <= MinutesPerDay && MinutesPerDay % interval == 0
    ensures MinutesPerDay / interval >= 1 && (MinutesPerDay / interval) * interval == MinutesPerDay
  {
  }

  // ---------------------------------------------------------------------
  // Route numbers: `re.match(r"[0-9]+", ref)` and `str(route_id) in ref`.

  predicate IsDigit(c: char)
  {
    '0' <= c <= '9'
  }

  predicate AllDigits(s: string)
  {
    forall k :: 0 <= k < |s| ==> IsDigit(s[k])
  }

  function DigitChar(d: nat): (c: char)
    requires d < 10
    ensures IsDigit(c) && c as int - '0' as int == d
  {
    ('0' as int + d) as char
  }

  /** The value of a string of decimal digits, as `int` reads it. */
  function DigitsValue(s: string): nat
    requires AllDigits(s)
  {
    if s == [] then 0 else DigitsValue(s[..|s| - 1]) * 10 + (s[|s| - 1] as int - '0' as int)
  }

  /** `str(n)` for n >= 0. */
  function NatString(n: nat): (s: string)
    ensures |s| >= 1 && AllDigits(s)
    ensures n >= 10 ==> s[0] != '0'
  {
    if n < 10 then [DigitChar(n)] else NatString(n / 10) + [DigitChar(n % 10)]
  }

  /** `str(i)` for any integer: a minus sign before the digits of -i. */
  function IntString(i: int): (s: string)
    ensures i >= 0 ==> s == NatString(i)
    ensures i < 0 ==> s == "-" + NatString(-i)
  {
    if i < 0 then "-" + NatString(-i) else NatString(i)
  }

  /** The longest prefix made of digits: what `re.match(r"[0-9]+", s)`
      matches, empty when it does not match. */
  function LeadingDigits(s: string): (d: string)
    ensures |d| <= |s| && d == s[..|d|] && AllDigits(d)
    ensures |d| == |s| || !IsDigit(s[|d|])
  {
    if s == [] || !IsDigit(s[0]) then [] else [s[0]] + LeadingDigits(s[1..])
  }

  /** The route number a relation's `ref` starts with, if it starts with a
      digit. */
  function LeadingNumber(ref: string): (r: Option<nat>)
    ensures r.Some? <==> ref != [] && IsDigit(ref[0])
  {
    var d := LeadingDigits(ref);
    if d == [] then None else Some(DigitsValue(d))
  }

  /** Reading back the digits of a number gives the number. */
  lemma {:induction false} NatStringValue(n: nat)
    ensures DigitsValue(NatString(n)) == n
    decreases n
  {
    if n >= 10 {
      NatStringValue(n / 10);
      var s := NatString(n);
      assert s[..|s| - 1] == NatString(n / 10);
    }
  }

  lemma {:induction false} LeadingDigitsOfDigits(d: string, rest: string)
    requires AllDigits(d)
    requires rest == [] || !IsDigit(rest[0])
    ensures LeadingDigits(d + rest) == d
    decreases |d|
  {
    if d != [] {
      LeadingDigitsOfDigits(d[1..], rest);
      assert (d + rest)[1..] == d[1..] + rest;
    } else {
      assert d + rest == rest;
    }
  }

  /** A `ref` that starts with the decimal number n and then something
      other than a digit is indexed under n. */
  lemma LeadingNumberOfNatString(n: nat, rest: string)
    requires rest == [] || !IsDigit(rest[0])
    ensures LeadingNumber(NatString(n) + rest) == Some(n)
  {
    LeadingDigitsOfDigits(NatString(n), rest);
    NatStringValue(n);
  }

  /** The `ref` tag of every relation is present. */
  predicate RefsPresent(relations: map<int, OsmTables.RouteInfo>)
  {
    forall r :: r in relations ==> "ref" in relations[r].tags
  }

  /** Every relation of the order exists and has its `ref` tag. */
  predicate RefsAt(relations: map<int, OsmTables.RouteInfo>, order: seq<int>)
  {
    forall k :: 0 <= k < |order| ==> order[k] in relations && "ref" in relations[order[k]].tags
  }

  /** With every `ref` present, every relation of an order of them has
      its `ref`. */
  lemma RefsEverywhere(relations: map<int, OsmTables.RouteInfo>, order: seq<int>)
    requires RefsPresent(relations)
    requires forall k :: 0 <= k < |order| ==> order[k] in relations
    ensures RefsAt(relations, order)
  {
    forall k | 0 <= k < |order|
      ensures order[k] in relations && "ref" in relations[order[k]].tags
    {
      var x := order[k];
      assert x in relations;
    }
  }

  function RefOf(relations: map<int, OsmTables.RouteInfo>, r: int): string
    requires r in relations && "ref" in relations[r].tags
  {
    relations[r].tags["ref"]
  }

  /** `bus_route_to_relation_index` after visiting the relations in order:
      each leading route number maps to the set of relations with it. */
  function IndexOf(relations: map<int, OsmTables.RouteInfo>, order: seq<int>): map<int, set<int>>
    requires RefsAt(relations, order)
  {
    if order == [] then map[]
    else
      var index := IndexOf(relations, order[..|order| - 1]);
      var r := order[|order| - 1];
      var number := LeadingNumber(RefOf(relations, r));
      if number.None? then index
      else index[number.value := Members(index, number.value) + {r}]
  }

  /** The relations recorded so far for a route number. */
  function Members(index: map<int, set<int>>, n: int): set<int>
  {
    if n in index then index[n] else {}
  }

  /** Relation order[k]'s `ref` starts with route number n. */
  predicate NumberedAt(relations: map<int, OsmTables.RouteInfo>, order: seq<int>, k: int, n: int)
    requires RefsAt(relations, order)
  {
    0 <= k < |order| && LeadingNumber(RefOf(relations, order[k])) == Some(n)
  }

  /** A route number is indexed exactly when a visited relation's `ref`
      starts with it. */
  lemma {:induction false} IndexOfKeys(relations: map<int, OsmTables.RouteInfo>, order: seq<int>, n: int)
    requires RefsAt(relations, order)
    ensures n in IndexOf(relations, order) <==> exists k :: NumberedAt(relations, order, k, n)
  {
    if order != [] {
      var prefix := order[..|order| - 1];
      var last := |order| - 1;
      IndexOfKeys(relations, prefix, n);
      if exists k :: NumberedAt(relations, order, k, n) {
        var k :| NumberedAt(relations, order, k, n);
        if k < last {
          assert prefix[k] == order[k];
          assert NumberedAt(relations, prefix, k, n);
        } else {
          assert LeadingNumber(RefOf(relations, order[last])) == Some(n);
        }
      }
      if n in IndexOf(relations, order) {
        if n in IndexOf(relations, prefix) {
          var k :| NumberedAt(relations, prefix, k, n);
          assert prefix[k] == order[k];
          assert NumberedAt(relations, order, k, n);
        } else {
          assert NumberedAt(relations, order, last, n);
        }
      }
    }
  }

  /** The set of an indexed route number holds exactly the visited
      relations whose `ref` starts with it. */
  lemma {:induction false} IndexOfSets(relations: map<int, OsmTables.RouteInfo>, order: seq<int>, n: int, r: int)
    requires RefsAt(relations, order)
    requires n in IndexOf(relations, order)
    ensures r in IndexOf(relations, order)[n] <==> r in order && LeadingNumber(RefOf(relations, r)) == Some(n)
  {
    var prefix := order[..|order| - 1];
    assert order == prefix + [order[|order| - 1]];
    if n in IndexOf(relations, prefix) {
      IndexOfSets(relations, prefix, n, r);
    } else if r in prefix && LeadingNumber(RefOf(relations, r)) == Some(n) {
      IndexOfKeys(relations, prefix, n);
      var j :| 0 <= j < |prefix| && prefix[j] == r;
      assert NumberedAt(relations, prefix, j, n);
    }
  }

  /** Builds the route index, raising on a relation without a `ref`. */
  method BuildRouteIndex(relations: map<int, OsmTables.RouteInfo>, order: seq<int>)
    returns (r: Result<map<int, set<int>>, SpeedError>)
    requires forall k :: 0 <= k < |order| ==> order[k] in relations
    requires forall x :: x in relations ==> x in order
    ensures r.Failure? <==> !RefsPresent(relations)
    ensures r.Failure? ==> r.error == MissingRef
    ensures r.Success? ==> RefsAt(relations, order) && r.value == IndexOf(relations, order)
  {
    var index: map<int, set<int>> := map[];
    var k := 0;
    while k < |order|
      invariant 0 <= k <= |order|
      invariant RefsAt(relations, order[..k])
      invariant index == IndexOf(relations, order[..k])
    {
      var tags := relations[order[k]].tags;
      if "ref" !in tags {
        assert !RefsPresent(relations) by {
          var x := order[k];
          assert x in relations && "ref" !in relations[x].tags;
        }
        return Failure(MissingRef);
      }
      var number := LeadingNumber(tags["ref"]);
      ghost var before := index;
      if number.Some? {
        if number.value !in index {
          index := index[number.value := {}];
        }
        index := index[number.value := index[number.value] + {order[k]}];
      }
      assert number.Some? ==> index == before[number.value := Members(before, number.value) + {order[k]}];
      assert order[..k + 1][..k] == order[..k] && order[..k + 1][k] == order[k];
      k := k + 1;
    }
    assert order[..k] == order;
    assert RefsPresent(relations) by {
      forall x | x in relations
        ensures "ref" in relations[x].tags
      {
        var j :| 0 <= j < |order| && order[j] == x;
      }
    }
    return Success(index);
  }

  // ---------------------------------------------------------------------
  // The pings of one data file.

  /** A GPS ping as the pair loop reads it: route id, position, and the
      second of the day of its timestamp. */
  datatype Ping = Ping(route: int, lat: real, lng: real, seconds: nat)

  /** The pings kept from one data file: with `recent_data_time > 0` only
      those at or after the threshold second of the day, in file order. */
  function RecentPings(lines: seq<Ping>, recent: int, threshold: int): (kept: seq<Ping>)
    ensures recent <= 0 ==> kept == lines
    ensures forall k :: 0 <= k < |kept| ==> kept[k] in lines && (recent > 0 ==> kept[k].seconds >= threshold)
    ensures forall k :: 0 <= k < |lines| && lines[k].seconds >= threshold ==> lines[k] in kept
  {
    if lines == [] then []
    else
      var kept := RecentPings(lines[..|lines| - 1], recent, threshold);
      var p := lines[|lines| - 1];
      assert forall k :: 0 <= k < |lines| - 1 ==> lines[k] == lines[..|lines| - 1][k];
      if recent > 0 && p.seconds < threshold then kept else kept + [p]
  }

  /** The read loop over the lines of a data file. */
  method ReadPings(lines: seq<Ping>, recent: int, threshold: int) returns (kept: seq<Ping>)
    ensures kept == RecentPings(lines, recent, threshold)
  {
    kept := [];
    var k := 0;
    while k < |lines|
      invariant 0 <= k <= |lines|
      invariant kept == RecentPings(lines[..k], recent, threshold)
    {
      assert lines[..k + 1][..k] == lines[..k];
      if !(recent > 0 && lines[k].seconds < threshold) {
        kept := kept + [lines[k]];
      }
      k := k + 1;
    }
    assert lines[..k] == lines;
  }

  // ---------------------------------------------------------------------
  // One pair of consecutive pings.

  /** The bin of a second of the day: `floor(seconds / (interval * 60))`. */
  function Bin(seconds: nat, interval: int): nat
    requires interval > 0
  {
    var width: int := interval * 60;
    assert width > 0;
    DivNonNegative(seconds, width);
    seconds / width
  }

  lemma DivNonNegative(x: nat, y: int)
    requires y > 0
    ensures x / y >= 0
  {
  }

  const SecondsPerDay: int := 86400

  /** A clock time of the day falls in one of the day's bins. */
  lemma BinBelowBinsPerDay(seconds: nat, interval: int, n: nat)
    requires interval > 0 && n * interval == MinutesPerDay
    requires seconds < SecondsPerDay
    ensures Bin(seconds, interval) < n
  {
    var width := interval * 60;
    var q := seconds / width;
    assert n * width == (n * interval) * 60;
    assert q * width <= seconds;
    if q >= n {
      MulMonotone(q, n, width);
    }
  }

  lemma MulMonotone(a: int, b: int, c: int)
    requires a >= b && c > 0
    ensures a * c >= b * c
  {
  }

  /** What the pair loop works with: the interval, the route index, the
      relation table, the matcher and the distance. */
  datatype Context = Context(
    interval: int,
    index: map<int, set<int>>,
    relations: map<int, OsmTables.RouteInfo>,
    nearest: (set<int>, Point) -> Matcher.MatchOutcome,
    dist: (Point, Point) -> real)

  /** The candidate relations of a route id: its index entry, or else every
      relation whose `ref` contains the id's decimal string. */
  function PossibleRelations(ctx: Context, route: int): set<int>
  {
    if route in ctx.index then ctx.index[route]
    else set r | r in ctx.relations && "ref" in ctx.relations[r].tags && Strings.Occurs(IntString(route), ctx.relations[r].tags["ref"])
  }

  /** With the index built from every relation: a route id whose number
      starts some `ref` gets exactly those relations, any other id gets
      the relations whose `ref` contains its decimal string. */
  lemma PossibleRelationsMeaning(ctx: Context, order: seq<int>, route: int, r: int)
    requires RefsPresent(ctx.relations)
    requires RefsAt(ctx.relations, order)
    requires forall x :: x in ctx.relations ==> x in order
    requires ctx.index == IndexOf(ctx.relations, order)
    ensures (exists k :: NumberedAt(ctx.relations, order, k, route)) ==>
              (r in PossibleRelations(ctx, route) <==> r in ctx.relations && LeadingNumber(RefOf(ctx.relations, r)) == Some(route))
    ensures (forall k :: !NumberedAt(ctx.relations, order, k, route)) ==>
              (r in PossibleRelations(ctx, route) <==> r in ctx.relations && Strings.Occurs(IntString(route), RefOf(ctx.relations, r)))
  {
    IndexOfKeys(ctx.relations, order, route);
    if route in ctx.index {
      IndexOfSets(ctx.relations, order, route, r);
    }
  }

  /** What the loop body does with one pair: skip it, record a speed for
      the matched ways and bins, or raise. */
  datatype PairOutcome =
    | Skipped
    | Sample(way1: int, way2: int, bin1: nat, bin2: nat, speed: real)
    | Aborted(error: SpeedError)

  const KmPerMile: real := 1.60934
  const SecondsPerHour: real := 3600.0

  /** The loop body for the pair (p1, p2), its checks in the source's
      order. */
  function PairStep(ctx: Context, p1: Ping, p2: Ping): PairOutcome
    requires ctx.interval > 0
  {
    var bin1 := Bin(p1.seconds, ctx.interval);
    var bin2 := Bin(p2.seconds, ctx.interval);
    if bin1 != bin2 && !(2 < bin1 - bin2 < 2) then Skipped
    else if p1.seconds == p2.seconds then Skipped
    else if p1.lat == p2.lat && p1.lng == p2.lng then Skipped
    else if p1.lat >= 99.0 && p1.lng >= 999.0 then Skipped
    else if p2.lat >= 99.0 && p1.lng >= 999.0 then Skipped
    else if p1.route != p2.route then Skipped
    else
      var relations1 := PossibleRelations(ctx, p1.route);
      if |relations1| == 0 then Skipped
      else
        match ctx.nearest(relations1, Distance.Point(p1.lat, p1.lng))
        case Raised(e) => Aborted(MatcherRaised(e))
        case Returned(projection1, way1) =>
          if way1 < 0 then Skipped
          else
            var relations2 := PossibleRelations(ctx, p2.route);
            if |relations2| == 0 then Skipped
            else
              match ctx.nearest(relations2, Distance.Point(p2.lat, p2.lng))
              case Raised(e) => Aborted(MatcherRaised(e))
              case Returned(projection2, way2) =>
                // the source tests way1 a second time here, not way2
                if way1 < 0 then Skipped
                else
                  var kmPerSecond := ctx.dist(projection1, projection2) / ((p2.seconds - p1.seconds) as real);
                  if kmPerSecond == 0.0 then Skipped
                  else Sample(way1, way2, bin1, bin2, kmPerSecond / KmPerMile * SecondsPerHour)
  }

  /** A pair in two different bins is always skipped: the test
      `2 < d < 2` never holds. */
  lemma DifferentBinsSkipped(ctx: Context, p1: Ping, p2: Ping)
    requires ctx.interval > 0
    requires Bin(p1.seconds, ctx.interval) != Bin(p2.seconds, ctx.interval)
    ensures PairStep(ctx, p1, p2) == Skipped
  {
    var d := Bin(p1.seconds, ctx.interval) - Bin(p2.seconds, ctx.interval);
    assert !(2 < d < 2);
  }

  /** The disqualifying checks: equal times, equal positions, either
      sentinel test (the second pairs p2's latitude with p1's longitude),
      or different routes. */
  lemma DisqualifiedPairsSkipped(ctx: Context, p1: Ping, p2: Ping)
    requires ctx.interval > 0
    requires || p1.seconds == p2.seconds
             || (p1.lat == p2.lat && p1.lng == p2.lng)
             || (p1.lat >= 99.0 && p1.lng >= 999.0)
             || (p2.lat >= 99.0 && p1.lng >= 999.0)
             || p1.route != p2.route
    ensures PairStep(ctx, p1, p2) == Skipped
  {
  }

  /** A recorded pair passed every check: one bin, distinct times and
      positions, no sentinel, one route with candidate relations, a first
      match with a non-negative way, and a non-zero speed in miles per
      hour computed from the two projections. */
  lemma SampleMeaning(ctx: Context, p1: Ping, p2: Ping)
    requires ctx.interval > 0
    ensures var o := PairStep(ctx, p1, p2);
      o.Sample? ==>
        && o.bin1 == o.bin2 == Bin(p1.seconds, ctx.interval) == Bin(p2.seconds, ctx.interval)
        && p1.seconds != p2.seconds
        && (p1.lat != p2.lat || p1.lng != p2.lng)
        && !(p1.lat >= 99.0 && p1.lng >= 999.0)
        && !(p2.lat >= 99.0 && p1.lng >= 999.0)
        && p1.route == p2.route
        && |PossibleRelations(ctx, p1.route)| > 0
        && o.way1 >= 0
        && var m1 := ctx.nearest(PossibleRelations(ctx, p1.route), Distance.Point(p1.lat, p1.lng));
           var m2 := ctx.nearest(PossibleRelations(ctx, p2.route), Distance.Point(p2.lat, p2.lng));
           && m1 == Matcher.Returned(m1.projection, o.way1)
           && m2 == Matcher.Returned(m2.projection, o.way2)
           && o.speed != 0.0
           && o.speed == ctx.dist(m1.projection, m2.projection) / ((p2.seconds - p1.seconds) as real)
                         / KmPerMile * SecondsPerHour
  {
    var o := PairStep(ctx, p1, p2);
    if o.Sample? {
      var bin1 := Bin(p1.seconds, ctx.interval);
      var bin2 := Bin(p2.seconds, ctx.interval);
      if bin1 != bin2 {
        DifferentBinsSkipped(ctx, p1, p2);
      }
      var v := o.speed / SecondsPerHour * KmPerMile;
      assert o.speed == v / KmPerMile * SecondsPerHour;
    }
  }

  /** The second match is not checked: when it returns a negative way the
      pair is still recorded, with that way. */
  lemma SecondMatchUnchecked(ctx: Context, p1: Ping, p2: Ping, projection1: Point, way1: int,
                             projection2: Point, way2: int)
    requires ctx.interval > 0
    requires Bin(p1.seconds, ctx.interval) == Bin(p2.seconds, ctx.interval)
    requires p1.seconds != p2.seconds && (p1.lat != p2.lat || p1.lng != p2.lng)
    requires p1.lng < 999.0 && p1.route == p2.route
    requires |PossibleRelations(ctx, p1.route)| > 0
    requires ctx.nearest(PossibleRelations(ctx, p1.route), Distance.Point(p1.lat, p1.lng)) == Matcher.Returned(projection1, way1)
    requires ctx.nearest(PossibleRelations(ctx, p2.route), Distance.Point(p2.lat, p2.lng)) == Matcher.Returned(projection2, way2)
    requires way1 >= 0 && way2 < 0
    requires ctx.dist(projection1, projection2) != 0.0
    ensures PairStep(ctx, p1, p2).Sample? && PairStep(ctx, p1, p2).way2 == way2
  {
    var t := (p2.seconds - p1.seconds) as real;
    assert t != 0.0;
    NonZeroQuotient(ctx.dist(projection1, projection2), t);
  }

  lemma NonZeroQuotient(x: real, t: real)
    requires x != 0.0 && t != 0.0
    ensures x / t != 0.0
  {
    if x / t == 0.0 {
      assert x == (x / t) * t;
    }
  }

  // ---------------------------------------------------------------------
  // The sample lists `meta_speeds`: per way, one list of speeds per bin.

  type Meta = map<int, seq<seq<real>>>

  /** Two tables with the same ways and the same number of bins per way. */
  predicate SameShape(a: Meta, b: Meta)
  {
    && a.Keys == b.Keys
    && (forall w :: w in a ==> |a[w]| == |b[w]|)
  }

  /** `meta_speeds[way][bin].append(speed)`. */
  function Append(meta: Meta, way: int, bin: nat, speed: real): (r: Result<Meta, SpeedError>)
    ensures r.Success? <==> way in meta && bin < |meta[way]|
    ensures r.Failure? ==> r.error == if way in meta then BinOutOfRange(bin) else UnknownWay(way)
    ensures r.Success? ==> SameShape(meta, r.value)
    ensures r.Success? ==> forall w, b :: w in meta && 0 <= b < |meta[w]| ==>
              r.value[w][b] == if w == way && b == bin then meta[w][b] + [speed] else meta[w][b]
  {
    if way !in meta then Failure(UnknownWay(way))
    else if bin >= |meta[way]| then Failure(BinOutOfRange(bin))
    else Success(meta[way := meta[way][bin := meta[way][bin] + [speed]]])
  }

  /** The cells a sample touches: each of its ways in each of its bins. */
  predicate Touched(s: PairOutcome, w: int, b: int)
    requires s.Sample?
  {
    (w == s.way1 || w == s.way2) && (b == s.bin1 || b == s.bin2)
  }

  /** The appends of an accepted pair, by whether the ways and the bins
      coincide. */
  function Accumulate(meta: Meta, s: PairOutcome): (r: Result<Meta, SpeedError>)
    requires s.Sample?
    ensures r.Success? <==>
              && s.way1 in meta && s.way2 in meta
              && s.bin1 < |meta[s.way1]| && s.bin2 < |meta[s.way1]|
              && s.bin1 < |meta[s.way2]| && s.bin2 < |meta[s.way2]|
    ensures r.Failure? ==>
              || (r.error.UnknownWay? && r.error.way in {s.way1, s.way2} && r.error.way !in meta)
              || (r.error.BinOutOfRange? && r.error.bin in {s.bin1, s.bin2} &&
                  ((s.way1 in meta && r.error.bin >= |meta[s.way1]|) || (s.way2 in meta && r.error.bin >= |meta[s.way2]|)))
    ensures r.Success? ==> SameShape(meta, r.value)
  {
    var speed := s.speed;
    if s.way1 == s.way2 then
      if s.bin1 == s.bin2 then Append(meta, s.way1, s.bin1, speed)
      else
        var m1 := Append(meta, s.way1, s.bin1, speed);
        if m1.Failure? then m1 else Append(m1.value, s.way1, s.bin2, speed)
    else
      if s.bin1 == s.bin2 then
        var m1 := Append(meta, s.way1, s.bin1, speed);
        if m1.Failure? then m1 else Append(m1.value, s.way2, s.bin1, speed)
      else
        var m1 := Append(meta, s.way1, s.bin1, speed);
        if m1.Failure? then m1
        else
          var m2 := Append(m1.value, s.way2, s.bin1, speed);
          if m2.Failure? then m2
          else
            var m3 := Append(m2.value, s.way1, s.bin2, speed);
            if m3.Failure? then m3 else Append(m3.value, s.way2, s.bin2, speed)
  }

  /** An accepted pair adds its speed once to each cell it touches and
      leaves the other cells alone. */
  lemma AccumulateCell(meta: Meta, s: PairOutcome, w: int, b: int)
    requires s.Sample? && Accumulate(meta, s).Success?
    requires w in meta && 0 <= b < |meta[w]|
    ensures var r := Accumulate(meta, s).value;
            w in r && b < |r[w]| && r[w][b] == if Touched(s, w, b) then meta[w][b] + [s.speed] else meta[w][b]
  {
  }

  /** Every recorded speed is non-zero. */
  predicate NonzeroSamples(meta: Meta)
  {
    forall w, b, j :: w in meta && 0 <= b < |meta[w]| && 0 <= j < |meta[w][b]| ==> meta[w][b][j] != 0.0
  }

  /** One pass of the loop body over the table. */
  function Step(ctx: Context, meta: Meta, p1: Ping, p2: Ping): Result<Meta, SpeedError>
    requires ctx.interval > 0
  {
    var o := PairStep(ctx, p1, p2);
    match o
    case Skipped => Success(meta)
    case Aborted(e) => Failure(e)
    case Sample(_, _, _, _, _) => Accumulate(meta, o)
  }

  /** The pair loop of one file: pairs (lines[i], lines[i + 1]) in order,
      stopping at the first exception. */
  function Pairs(ctx: Context, meta: Meta, lines: seq<Ping>): Result<Meta, SpeedError>
    requires ctx.interval > 0
  {
    if |lines| < 2 then Success(meta)
    else
      var before := Pairs(ctx, meta, lines[..|lines| - 1]);
      if before.Failure? then before else Step(ctx, before.value, lines[|lines| - 2], lines[|lines| - 1])
  }

  /** The files in order, each filtered by the recent-data threshold and
      then run through the pair loop. */
  function Files(ctx: Context, meta: Meta, files: seq<seq<Ping>>, recent: int, threshold: int): Result<Meta, SpeedError>
    requires ctx.interval > 0
  {
    if files == [] then Success(meta)
    else
      var before := Files(ctx, meta, files[..|files| - 1], recent, threshold);
      if before.Failure? then before else Pairs(ctx, before.value, RecentPings(files[|files| - 1], recent, threshold))
  }

  /** A step keeps the ways and bins and records only non-zero speeds. */
  lemma StepPreserves(ctx: Context, meta: Meta, p1: Ping, p2: Ping)
    requires ctx.interval > 0
    ensures var r := Step(ctx, meta, p1, p2);
      r.Success? ==> SameShape(meta, r.value) && (NonzeroSamples(meta) ==> NonzeroSamples(r.value))
  {
    var o := PairStep(ctx, p1, p2);
    if o.Sample? {
      SampleMeaning(ctx, p1, p2);
      var r := Accumulate(meta, o);
      if r.Success? && NonzeroSamples(meta) {
        forall w, b, j | w in r.value && 0 <= b < |r.value[w]| && 0 <= j < |r.value[w][b]|
          ensures r.value[w][b][j] != 0.0
        {
          AccumulateCell(meta, o, w, b);
          if Touched(o, w, b) {
            assert r.value[w][b] == meta[w][b] + [o.speed];
          }
        }
      }
    }
  }

  lemma {:induction false} PairsPreserve(ctx: Context, meta: Meta, lines: seq<Ping>)
    requires ctx.interval > 0
    ensures var r := Pairs(ctx, meta, lines);
      r.Success? ==> SameShape(meta, r.value) && (NonzeroSamples(meta) ==> NonzeroSamples(r.value))
    decreases |lines|
  {
    if |lines| >= 2 {
      PairsPreserve(ctx, meta, lines[..|lines| - 1]);
      var before := Pairs(ctx, meta, lines[..|lines| - 1]);
      if before.Success? {
        StepPreserves(ctx, before.value, lines[|lines| - 2], lines[|lines| - 1]);
      }
    }
  }

  /** The whole run keeps the ways and bins it started with and records
      only non-zero speeds. */
  lemma {:induction false} FilesPreserve(ctx: Context, meta: Meta, files: seq<seq<Ping>>, recent: int, threshold: int)
    requires ctx.interval > 0
    ensures var r := Files(ctx, meta, files, recent, threshold);
      r.Success? ==> SameShape(meta, r.value) && (NonzeroSamples(meta) ==> NonzeroSamples(r.value))
    decreases |files|
  {
    if files != [] {
      FilesPreserve(ctx, meta, files[..|files| - 1], recent, threshold);
      var before := Files(ctx, meta, files[..|files| - 1], recent, threshold);
      if before.Success? {
        PairsPreserve(ctx, before.value, RecentPings(files[|files| - 1], recent, threshold));
      }
    }
  }

  /** An exception in the first k pings ends the file's pair loop with it. */
  lemma {:induction false} PairsFailurePersists(ctx: Context, meta: Meta, lines: seq<Ping>, k: int)
    requires ctx.interval > 0
    requires 0 <= k <= |lines|
    requires Pairs(ctx, meta, lines[..k]).Failure?
    ensures Pairs(ctx, meta, lines) == Pairs(ctx, meta, lines[..k])
    decreases |lines| - k
  {
    if k == |lines| {
      assert lines[..k] == lines;
    } else {
      assert lines[..k + 1][..k] == lines[..k];
      PairsFailurePersists(ctx, meta, lines, k + 1);
    }
  }

  /** An exception in the first k files ends the run with it. */
  lemma {:induction false} FilesFailurePersists(ctx: Context, meta: Meta, files: seq<seq<Ping>>, k: int,
                                                recent: int, threshold: int)
    requires ctx.interval > 0
    requires 0 <= k <= |files|
    requires Files(ctx, meta, files[..k], recent, threshold).Failure?
    ensures Files(ctx, meta, files, recent, threshold) == Files(ctx, meta, files[..k], recent, threshold)
    decreases |files| - k
  {
    if k == |files| {
      assert files[..k] == files;
    } else {
      assert files[..k + 1][..k] == files[..k];
      FilesFailurePersists(ctx, meta, files, k + 1, recent, threshold);
    }
  }

  /** The pair loop over the pings of one file. */
  method RunPairs(ctx: Context, meta: Meta, lines: seq<Ping>) returns (r: Result<Meta, SpeedError>)
    requires ctx.interval > 0
    ensures r == Pairs(ctx, meta, lines)
  {
    if |lines| == 0 {
      return Success(meta);
    }
    var current := meta;
    var i := 0;
    while i < |lines| - 1
      invariant 0 <= i < |lines|
      invariant Pairs(ctx, meta, lines[..i + 1]) == Success(current)
    {
      var next := lines[..i + 2];
      assert next[..|next| - 1] == lines[..i + 1];
      assert next[|next| - 2] == lines[i] && next[|next| - 1] == lines[i + 1];
      var o := PairStep(ctx, lines[i], lines[i + 1]);
      match o {
        case Skipped =>
        case Aborted(e) =>
          PairsFailurePersists(ctx, meta, lines, i + 2);
          return Failure(e);
        case Sample(_, _, _, _, _) =>
          var added := Accumulate(current, o);
          if added.Failure? {
            PairsFailurePersists(ctx, meta, lines, i + 2);
            return added;
          }
          current := added.value;
      }
      i := i + 1;
    }
    assert lines[..i + 1] == lines;
    return Success(current);
  }

  /** Every way has n bins. */
  predicate BinsEach(meta: Meta, n: nat)
  {
    forall w :: w in meta ==> |meta[w]| == n
  }

  /** Every ping of every file is a clock time of the day. */
  predicate WithinDay(files: seq<seq<Ping>>)
  {
    forall f, k :: 0 <= f < |files| && 0 <= k < |files[f]| ==> files[f][k].seconds < SecondsPerDay
  }

  /** With a day's worth of bins per way, a pair of clock times never
      indexes past the end of a sample list. */
  lemma StepBinsInRange(ctx: Context, meta: Meta, p1: Ping, p2: Ping, n: nat)
    requires ctx.interval > 0 && n * ctx.interval == MinutesPerDay && BinsEach(meta, n)
    requires p1.seconds < SecondsPerDay && p2.seconds < SecondsPerDay
    ensures var r := Step(ctx, meta, p1, p2);
      (r.Failure? ==> !r.error.BinOutOfRange?) && (r.Success? ==> BinsEach(r.value, n))
  {
    var o := PairStep(ctx, p1, p2);
    if o.Sample? {
      SampleMeaning(ctx, p1, p2);
      BinBelowBinsPerDay(p1.seconds, ctx.interval, n);
    }
  }

  lemma {:induction false} PairsBinsInRange(ctx: Context, meta: Meta, lines: seq<Ping>, n: nat)
    requires ctx.interval > 0 && n * ctx.interval == MinutesPerDay && BinsEach(meta, n)
    requires forall k :: 0 <= k < |lines| ==> lines[k].seconds < SecondsPerDay
    ensures var r := Pairs(ctx, meta, lines);
      (r.Failure? ==> !r.error.BinOutOfRange?) && (r.Success? ==> BinsEach(r.value, n))
    decreases |lines|
  {
    if |lines| >= 2 {
      PairsBinsInRange(ctx, meta, lines[..|lines| - 1], n);
      var before := Pairs(ctx, meta, lines[..|lines| - 1]);
      if before.Success? {
        StepBinsInRange(ctx, before.value, lines[|lines| - 2], lines[|lines| - 1], n);
      }
    }
  }

  /** When every ping is a clock time of the day, the run never fails with
      an index past the end of a sample list. */
  lemma {:induction false} FilesBinsInRange(ctx: Context, meta: Meta, files: seq<seq<Ping>>, recent: int, threshold: int, n: nat)
    requires ctx.interval > 0 && n * ctx.interval == MinutesPerDay && BinsEach(meta, n)
    requires WithinDay(files)
    ensures var r := Files(ctx, meta, files, recent, threshold);
      (r.Failure? ==> !r.error.BinOutOfRange?) && (r.Success? ==> BinsEach(r.value, n))
    decreases |files|
  {
    if files != [] {
      var prefix := files[..|files| - 1];
      assert forall f :: 0 <= f < |prefix| ==> prefix[f] == files[f];
      FilesBinsInRange(ctx, meta, prefix, recent, threshold, n);
      var before := Files(ctx, meta, prefix, recent, threshold);
      if before.Success? {
        var lines := RecentPings(files[|files| - 1], recent, threshold);
        assert forall k :: 0 <= k < |lines| ==> lines[k].seconds < SecondsPerDay;
        PairsBinsInRange(ctx, before.value, lines, n);
      }
    }
  }

  // ---------------------------------------------------------------------
  // The tables before and after the run.

  function EmptyBins(n: nat): (bins: seq<seq<real>>)
    ensures |bins| == n && forall i :: 0 <= i < n ==> bins[i] == []
  {
    seq(n, _ => [])
  }

  function Zeros(n: nat): (row: seq<real>)
    ensures |row| == n && forall i :: 0 <= i < n ==> row[i] == 0.0
  {
    seq(n, _ => 0.0)
  }

  /** `meta_speeds` before the run: every way with n empty lists. */
  function InitialSamples(wayTable: map<int, seq<int>>, n: nat): Meta
  {
    map w | w in wayTable :: EmptyBins(n)
  }

  /** `road_speeds` before the run: every way with n zeros. */
  function InitialSpeeds(wayTable: map<int, seq<int>>, n: nat): map<int, seq<real>>
  {
    map w | w in wayTable :: Zeros(n)
  }

  /** The loop that gives every way of the table its sample lists and its
      speed row. */
  method InitTables(wayTable: map<int, seq<int>>, order: seq<int>, n: nat) returns (meta: Meta, road: map<int, seq<real>>)
    requires IsKeyOrder(order, wayTable)
    ensures meta == InitialSamples(wayTable, n)
    ensures road == InitialSpeeds(wayTable, n)
  {
    meta, road := map[], map[];
    var k := 0;
    while k < |order|
      invariant 0 <= k <= |order|
      invariant forall w :: w in meta <==> w in order[..k]
      invariant forall w :: w in road <==> w in order[..k]
      invariant forall w :: w in meta ==> meta[w] == EmptyBins(n)
      invariant forall w :: w in road ==> road[w] == Zeros(n)
    {
      assert order[..k + 1] == order[..k] + [order[k]];
      meta := meta[order[k] := EmptyBins(n)];
      road := road[order[k] := Zeros(n)];
      k := k + 1;
    }
    assert order[..k] == order;
    forall w | w in meta || w in road
      ensures w in wayTable
    {
      var j :| 0 <= j < |order| && order[j] == w;
    }
    forall w | w in wayTable
      ensures w in meta && w in road
    {
      assert w in order;
    }
    assert meta.Keys == wayTable.Keys && road.Keys == wayTable.Keys;
    assert forall w :: w in meta ==> meta[w] == InitialSamples(wayTable, n)[w];
    assert forall w :: w in road ==> road[w] == InitialSpeeds(wayTable, n)[w];
  }

  /** The bin averages of one way: the mean of each bin's samples, 0 for
      an empty bin. */
  function Means(samples: seq<seq<real>>): (row: seq<real>)
    ensures |row| == |samples|
  {
    seq(|samples|, i requires 0 <= i < |samples| => SpeedMap.Mean(samples[i]))
  }

  /** `road_speeds` after the averaging loop. */
  function Averages(meta: Meta): map<int, seq<real>>
  {
    map w | w in meta :: Means(meta[w])
  }

  /** The averaging of one way: `road_speeds[way][i] = sum / len` for each
      bin that has a sample. */
  method AverageRow(samples: seq<seq<real>>, row: seq<real>) returns (averaged: seq<real>)
    requires |row| == |samples|
    requires forall i :: 0 <= i < |row| ==> row[i] == 0.0
    ensures averaged == Means(samples)
  {
    averaged := row;
    var i := 0;
    while i < |samples|
      invariant 0 <= i <= |samples| && |averaged| == |samples|
      invariant forall j :: 0 <= j < i ==> averaged[j] == SpeedMap.Mean(samples[j])
      invariant forall j :: i <= j < |samples| ==> averaged[j] == 0.0
    {
      if |samples[i]| >= 1 {
        averaged := averaged[i := SpeedMap.Sum(samples[i]) / (|samples[i]| as real)];
      }
      i := i + 1;
    }
  }

  /** The averaging loop over the ways. */
  method AverageSpeeds(meta: Meta, road: map<int, seq<real>>, order: seq<int>) returns (averaged: map<int, seq<real>>)
    requires IsKeyOrder(order, meta)
    requires road.Keys == meta.Keys
    requires forall w :: w in meta ==> |road[w]| == |meta[w]|
    requires forall w, i :: w in road && 0 <= i < |road[w]| ==> road[w][i] == 0.0
    ensures averaged == Averages(meta)
  {
    averaged := road;
    var k := 0;
    while k < |order|
      invariant 0 <= k <= |order|
      invariant averaged.Keys == meta.Keys
      invariant forall j :: 0 <= j < k ==> averaged[order[j]] == Means(meta[order[j]])
      invariant forall w :: w in meta && w !in order[..k] ==> averaged[w] == road[w]
    {
      var way := order[k];
      assert way !in order[..k];
      var row := AverageRow(meta[way], averaged[way]);
      averaged := averaged[way := row];
      assert order[..k + 1] == order[..k] + [way];
      k := k + 1;
    }
    forall w | w in meta
      ensures averaged[w] == Averages(meta)[w]
    {
      var j :| 0 <= j < |order| && order[j] == w;
    }
  }

  // ---------------------------------------------------------------------
  // The whole computation.

  /** `meta_speeds` at the end of the run, or the exception that ended
      it: the interval checks come first, then the route index, then the
      files in order. */
  function SampleLists(interval: int, wayTable: map<int, seq<int>>, relations: map<int, OsmTables.RouteInfo>,
                       relOrder: seq<int>, files: seq<seq<Ping>>, recent: int, threshold: int,
                       nearest: (set<int>, Point) -> Matcher.MatchOutcome, dist: (Point, Point) -> real)
    : Result<Meta, SpeedError>
    requires forall k :: 0 <= k < |relOrder| ==> relOrder[k] in relations
  {
    match ValidateInterval(interval)
    case Failure(e) => Failure(e)
    case Success(n) =>
      if !RefsPresent(relations) then Failure(MissingRef)
      else
        RefsEverywhere(relations, relOrder);
        var ctx := Context(interval, IndexOf(relations, relOrder), relations, nearest, dist);
        Files(ctx, InitialSamples(wayTable, n), files, recent, threshold)
  }

  /** `road_speeds` as `find_traffic_speed` returns it. */
  function TrafficSpeed(interval: int, wayTable: map<int, seq<int>>, relations: map<int, OsmTables.RouteInfo>,
                        relOrder: seq<int>, files: seq<seq<Ping>>, recent: int, threshold: int,
                        nearest: (set<int>, Point) -> Matcher.MatchOutcome, dist: (Point, Point) -> real)
    : Result<map<int, seq<real>>, SpeedError>
    requires forall k :: 0 <= k < |relOrder| ==> relOrder[k] in relations
  {
    var samples := SampleLists(interval, wayTable, relations, relOrder, files, recent, threshold, nearest, dist);
    if samples.Failure? then Failure(samples.error) else Success(Averages(samples.value))
  }

  /** An invalid interval raises before any work, whatever the data; on
      success every way of the table has 1440 / interval bins, each the
      mean of its recorded speeds (0 when it has none), and every recorded
      speed is non-zero. */
  lemma TrafficSpeedMeaning(interval: int, wayTable: map<int, seq<int>>, relations: map<int, OsmTables.RouteInfo>,
                            relOrder: seq<int>, files: seq<seq<Ping>>, recent: int, threshold: int,
                            nearest: (set<int>, Point) -> Matcher.MatchOutcome, dist: (Point, Point) -> real)
    requires forall k :: 0 <= k < |relOrder| ==> relOrder[k] in relations
    ensures var r := TrafficSpeed(interval, wayTable, relations, relOrder, files, recent, threshold, nearest, dist);
      var s := SampleLists(interval, wayTable, relations, relOrder, files, recent, threshold, nearest, dist);
      && (interval <= 0 || interval > MinutesPerDay ==> r == Failure(IntervalOutOfRange))
      && (0 < interval <= MinutesPerDay && MinutesPerDay % interval != 0 ==> r == Failure(IntervalNotDivisor))
      && (r.Success? <==> s.Success?)
      && (r.Success? ==>
            && 0 < interval <= MinutesPerDay
            && r.value.Keys == s.value.Keys == wayTable.Keys
            && NonzeroSamples(s.value)
            && forall w :: w in wayTable ==>
                 && |s.value[w]| == |r.value[w]| == MinutesPerDay / interval
                 && forall i :: 0 <= i < |r.value[w]| ==> r.value[w][i] == SpeedMap.Mean(s.value[w][i]))
  {
    var v := ValidateInterval(interval);
    if v.Success? && RefsPresent(relations) {
      RefsEverywhere(relations, relOrder);
      var ctx := Context(interval, IndexOf(relations, relOrder), relations, nearest, dist);
      var start := InitialSamples(wayTable, v.value);
      FilesPreserve(ctx, start, files, recent, threshold);
    }
  }

  /** `find_traffic_speed` without its file I/O. */
  method FindTrafficSpeed(interval: int, wayTable: map<int, seq<int>>, wayOrder: seq<int>,
                          relations: map<int, OsmTables.RouteInfo>, relOrder: seq<int>,
                          files: seq<seq<Ping>>, recent: int, threshold: int,
                          nearest: (set<int>, Point) -> Matcher.MatchOutcome, dist: (Point, Point) -> real)
    returns (r: Result<map<int, seq<real>>, SpeedError>)
    requires IsKeyOrder(wayOrder, wayTable)
    requires forall k :: 0 <= k < |relOrder| ==> relOrder[k] in relations
    requires forall x :: x in relations ==> x in relOrder
    ensures r == TrafficSpeed(interval, wayTable, relations, relOrder, files, recent, threshold, nearest, dist)
  {
    var valid := ValidateInterval(interval);
    if valid.Failure? {
      return Failure(valid.error);
    }
    var maxIndex := valid.value;
    var meta, road := InitTables(wayTable, wayOrder, maxIndex);
    ghost var start := meta;
    var built := BuildRouteIndex(relations, relOrder);
    if built.Failure? {
      return Failure(built.error);
    }
    var ctx := Context(interval, built.value, relations, nearest, dist);
    var run := RunFiles(ctx, meta, files, recent, threshold);
    if run.Failure? {
      return Failure(run.error);
    }
    meta := run.value;
    FilesPreserve(ctx, start, files, recent, threshold);
    assert IsKeyOrder(wayOrder, meta);
    road := AverageSpeeds(meta, road, wayOrder);
    return Success(road);
  }

  /** The loop over the data files: read each, then run its pairs. */
  method RunFiles(ctx: Context, meta: Meta, files: seq<seq<Ping>>, recent: int, threshold: int)
    returns (r: Result<Meta, SpeedError>)
    requires ctx.interval > 0
    ensures r == Files(ctx, meta, files, recent, threshold)
  {
    var current := meta;
    var f := 0;
    while f < |files|
      invariant 0 <= f <= |files|
      invariant Files(ctx, meta, files[..f], recent, threshold) == Success(current)
    {
      assert files[..f + 1][..f] == files[..f];
      var lines := ReadPings(files[f], recent, threshold);
      var step := RunPairs(ctx, current, lines);
      if step.Failure? {
        FilesFailurePersists(ctx, meta, files, f + 1, recent, threshold);
        return step;
      }
      current := step.value;
      f := f + 1;
    }
    assert files[..f] == files;
    return Success(current);
  }
}
