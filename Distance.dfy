/** The flat-earth distance of helper/distance.py (the identical `distance` of
    find_nearest_road.py is the same function).  A longitude difference is
    scaled by a cubic in the average latitude that stands in for the cosine,
    and the result is the Euclidean length of the scaled (east, north) vector
    in kilometres.  The square root is a parameter: `IsSqrt` says what the
    model assumes of it. */
module Distance {

  /** A position as [latitude, longitude] in degrees. */
  datatype Point = Point(lat: real, lng: real)

  /** `math.pi` as a double. */
  const Pi: real := 3.141592653589793

  /** Earth radius at latitude 42.89 plus the elevation of Buffalo, in km. */
  const Radius: real := 6368.276 + 0.183

  /** Coefficients of the cubic that approximates the longitude scale. */
  const Cos3: real := 0.0000000066645511
  const Cos2: real := -0.000152313017
  const Cos1: real := 0.00000000123684191
  const Cos0: real := 1.0

  /** What the model assumes of `math.sqrt`: on non-negative arguments it
      gives the non-negative square root. */
  ghost predicate IsSqrt(sqrt: real -> real)
  {
    forall x {:trigger sqrt(x)} :: x >= 0.0 ==> sqrt(x) >= 0.0 && sqrt(x) * sqrt(x) == x
  }

  function Abs(x: real): real
  {
    if x < 0.0 then -x else x
  }

  /** `math.radians`. */
  function Radians(degrees: real): real
  {
    degrees * Pi / 180.0
  }

  /** The `cos_poly` list, highest degree first. */
  const CosCoeffs: seq<real> := [Cos3, Cos2, Cos1, Cos0]

  /** x raised to the n-th power. */
  function Power(x: real, n: nat): real
  {
    if n == 0 then 1.0 else x * Power(x, n - 1)
  }

  /** The polynomial whose coefficients, highest degree first, are `coeffs`,
      evaluated at x. */
  function Poly(coeffs: seq<real>, x: real): real
  {
    if |coeffs| == 0 then 0.0 else coeffs[0] * Power(x, |coeffs| - 1) + Poly(coeffs[1..], x)
  }

  /** The longitude scale: `cos_poly` evaluated at the average latitude. */
  function CosPoly(avgLat: real): real
  {
    Poly(CosCoeffs, avgLat)
  }

  /** The scale is the cubic written out term by term in `distance`. */
  lemma CosPolyIsCubic(avgLat: real)
    ensures CosPoly(avgLat) == Cos3 * avgLat * avgLat * avgLat + Cos2 * avgLat * avgLat + Cos1 * avgLat + Cos0
  {
    var c, x := CosCoeffs, avgLat;
    assert c[1..][1..][1..][1..] == [];
    assert Poly(c[1..][1..][1..], x) == Cos0;
    assert Poly(c[1..][1..], x) == Cos1 * x + Cos0;
    assert Poly(c[1..], x) == Cos2 * x * x + Cos1 * x + Cos0;
  }

  /** The east-west length, in km, of a longitude difference `dLng` at
      average latitude `avgLat`. */
  function East(avgLat: real, dLng: real): real
  {
    CosPoly(avgLat) * Radians(dLng) * Radius
  }

  /** The north-south length, in km, of a latitude difference `dLat`. */
  function North(dLat: real): real
  {
    Radians(dLat) * Radius
  }

  /** The east-west component of the displacement from p to q, in km. */
  function EastKm(p: Point, q: Point): real
  {
    East((p.lat + q.lat) / 2.0, q.lng - p.lng)
  }

  /** The north-south component of the displacement from p to q, in km. */
  function NorthKm(p: Point, q: Point): real
  {
    North(q.lat - p.lat)
  }

  /** The length of the vector (x, y). */
  function Norm(sqrt: real -> real, x: real, y: real): real
  {
    sqrt(x * x + y * y)
  }

  /** `distance(point1, point2)`. */
  function Dist(sqrt: real -> real, p: Point, q: Point): real
  {
    Norm(sqrt, EastKm(p, q), NorthKm(p, q))
  }

  lemma SquareNonNegative(x: real)
    ensures x * x >= 0.0
  {
    if x < 0.0 {
      assert x * x == (-x) * (-x);
    }
  }

  lemma ProductPositive(a: real, b: real)
    requires a > 0.0 && b > 0.0
    ensures a * b > 0.0
  {
  }

  lemma DifferenceOfSquares(u: real, v: real)
    ensures v * v - u * u == (v - u) * (v + u)
  {
  }

  lemma SquareStrictlyMonotone(u: real, v: real)
    requires 0.0 <= u < v
    ensures u * u < v * v
  {
    ProductPositive(v - u, v + u);
    DifferenceOfSquares(u, v);
  }

  /** A non-negative number whose square is y*y is |y|. */
  lemma RootOfSquare(s: real, y: real)
    requires s >= 0.0 && s * s == y * y
    ensures s == Abs(y)
  {
    var a := Abs(y);
    assert a * a == y * y by {
      if y < 0.0 {
        assert a * a == (-y) * (-y);
      }
    }
    if s < a {
      SquareStrictlyMonotone(s, a);
    } else if a < s {
      SquareStrictlyMonotone(a, s);
    }
  }

  lemma EastOddInLongitude(avgLat: real, dLng: real)
    ensures East(avgLat, -dLng) == -East(avgLat, dLng)
  {
    var c := CosPoly(avgLat);
    assert Radians(-dLng) == -Radians(dLng);
    assert c * (-Radians(dLng)) == -(c * Radians(dLng));
  }

  lemma NormOfNegated(sqrt: real -> real, x: real, y: real)
    ensures Norm(sqrt, -x, -y) == Norm(sqrt, x, y)
  {
    assert (-x) * (-x) == x * x;
    assert (-y) * (-y) == y * y;
  }

  lemma NormOfVertical(sqrt: real -> real, x: real, y: real)
    requires x == 0.0
    ensures Norm(sqrt, x, y) == sqrt(y * y)
  {
    assert x * x == 0.0;
    assert x * x + y * y == y * y;
  }

  /** The distance is never negative. */
  lemma DistNonNegative(sqrt: real -> real, p: Point, q: Point)
    requires IsSqrt(sqrt)
    ensures Dist(sqrt, p, q) >= 0.0
  {
    var x, y := EastKm(p, q), NorthKm(p, q);
    SquareNonNegative(x);
    SquareNonNegative(y);
    assert sqrt(x * x + y * y) >= 0.0;
  }

  /** A point is at distance zero from itself. */
  lemma DistSelfIsZero(sqrt: real -> real, p: Point)
    requires IsSqrt(sqrt)
    ensures Dist(sqrt, p, p) == 0.0
  {
    assert EastKm(p, p) == 0.0;
    assert NorthKm(p, p) == 0.0;
    RootOfSquare(sqrt(0.0), 0.0);
  }

  /** Swapping the points negates both components and keeps the average
      latitude, so the distance is symmetric. */
  lemma DistSymmetric(sqrt: real -> real, p: Point, q: Point)
    ensures Dist(sqrt, p, q) == Dist(sqrt, q, p)
  {
    var m := (p.lat + q.lat) / 2.0;
    assert (q.lat + p.lat) / 2.0 == m;
    assert p.lng - q.lng == -(q.lng - p.lng);
    EastOddInLongitude(m, q.lng - p.lng);
    assert EastKm(q, p) == -EastKm(p, q);
    assert NorthKm(q, p) == -NorthKm(p, q);
    NormOfNegated(sqrt, EastKm(p, q), NorthKm(p, q));
  }

  /** Along a meridian the distance is the latitude difference in radians
      times the radius. */
  lemma DistAlongMeridian(sqrt: real -> real, p: Point, q: Point)
    requires IsSqrt(sqrt)
    requires p.lng == q.lng
    ensures Dist(sqrt, p, q) == Abs(Radians(q.lat - p.lat)) * Radius
  {
    var y := NorthKm(p, q);
    assert EastKm(p, q) == 0.0;
    NormOfVertical(sqrt, EastKm(p, q), y);
    SquareNonNegative(y);
    RootOfSquare(sqrt(y * y), y);
  }

  /** Only the longitude difference enters the formula: moving both points
      by the same longitude leaves the distance unchanged. */
  lemma DistLongitudeShift(sqrt: real -> real, p: Point, q: Point, shift: real)
    ensures Dist(sqrt, Point(p.lat, p.lng + shift), Point(q.lat, q.lng + shift)) == Dist(sqrt, p, q)
  {
    var p', q' := Point(p.lat, p.lng + shift), Point(q.lat, q.lng + shift);
    assert q'.lng - p'.lng == q.lng - p.lng;
    assert EastKm(p', q') == EastKm(p, q);
    assert NorthKm(p', q') == NorthKm(p, q);
  }
}
