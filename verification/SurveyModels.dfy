/** What the survey reads from the receiver, and distances between readings. */
module SurveyModels {

  import opened Common

  /** An ECEF position in metres. */
  datatype Xyz = Xyz(x: real, y: real, z: real) {
    /** The coordinate on one of the three axes. */
    function Axis(axis: nat): real
      requires axis < 3
    {
      if axis == 0 then x else if axis == 1 then y else z
    }
  }

  datatype RtkStatus = NoRtk | Float | Fixed

  datatype Position = Position(
    at: Xyz,
    accuracyM: real,
    rtk: RtkStatus,
    fixOk: bool,
    correctionAgeS: Option<real>)

  /** Corrections older than this never back an Observation. */
  const MAX_CORRECTION_AGE_S: real := 10.0

  /** Whether the corrections behind `p` are fresh enough to count. */
  predicate Fresh(p: Position) {
    p.correctionAgeS.Some? && p.correctionAgeS.value <= MAX_CORRECTION_AGE_S
  }

  predicate IsFixed(p: Position) {
    p.fixOk && p.rtk == Fixed
  }

  /** The squared 3D distance: `math.dist(a, b) > d` is `DistSq(a, b) > d * d` for d >= 0. */
  function DistSq(a: Xyz, b: Xyz): real {
    (a.x - b.x) * (a.x - b.x) + (a.y - b.y) * (a.y - b.y) + (a.z - b.z) * (a.z - b.z)
  }

  /** Within a distance `d` of each other. */
  predicate Within(a: Xyz, b: Xyz, d: real) {
    0.0 <= d && DistSq(a, b) <= d * d
  }

  lemma SquareNonNegative(x: real)
    ensures x * x >= 0.0
  {
  }

  lemma MulPositive(x: real, y: real)
    requires x > 0.0 && y > 0.0
    ensures x * y > 0.0
  {
  }

  lemma DifferenceOfSquares(x: real, y: real)
    ensures x * x - y * y == (x - y) * (x + y) == (y - x) * (-x - y)
  {
  }

  lemma SquareMonotone(x: real, y: real)
    requires 0.0 <= y && x * x <= y * y
    ensures -y <= x <= y
  {
    DifferenceOfSquares(x, y);
    if x > y {
      MulPositive(x - y, x + y);
    }
    if x < -y {
      MulPositive(y - x, -x - y);
    }
  }

  /** Lagrange's identity: |u|^2 |v|^2 is the square of u.v plus that of u x v. */
  lemma Lagrange(a: real, b: real, c: real, d: real, e: real, f: real)
    ensures (a * d + b * e + c * f) * (a * d + b * e + c * f)
          + ((b * f - c * e) * (b * f - c * e) + (c * d - a * f) * (c * d - a * f) + (a * e - b * d) * (a * e - b * d))
         == (a * a + b * b + c * c) * (d * d + e * e + f * f)
  {
  }

  lemma ProductBound(u: real, v: real, p: real, q: real)
    requires u <= p && 0.0 <= v <= q && 0.0 <= p
    ensures u * v <= p * q
  {
    assert u * v <= p * v;
    assert p * v <= p * q;
  }

  /** Cauchy-Schwarz: u.v is at most the product of bounds on the lengths of u and v. */
  lemma DotBound(a: real, b: real, c: real, d: real, e: real, f: real, u: real, v: real)
    requires 0.0 <= u && 0.0 <= v
    requires a * a + b * b + c * c <= u * u
    requires d * d + e * e + f * f <= v * v
    ensures a * d + b * e + c * f <= u * v
  {
    var dot := a * d + b * e + c * f;
    Lagrange(a, b, c, d, e, f);
    SquareNonNegative(b * f - c * e);
    SquareNonNegative(c * d - a * f);
    SquareNonNegative(a * e - b * d);
    SquareNonNegative(d);
    SquareNonNegative(e);
    SquareNonNegative(f);
    ProductBound(a * a + b * b + c * c, d * d + e * e + f * f, u * u, v * v);
    SquareOfProduct(u, v);
    assert dot * dot <= (u * v) * (u * v);
    SquareMonotone(dot, u * v);
  }

  lemma SquareOfProduct(u: real, v: real)
    ensures (u * u) * (v * v) == (u * v) * (u * v)
  {
  }

  lemma SquareOfSum(a: real, b: real, c: real, d: real, e: real, f: real)
    ensures (a + d) * (a + d) + (b + e) * (b + e) + (c + f) * (c + f)
         == (a * a + b * b + c * c) + 2.0 * (a * d + b * e + c * f) + (d * d + e * e + f * f)
  {
  }

  /** The triangle inequality, without a square root. */
  lemma Triangle(p: Xyz, q: Xyz, r: Xyz, u: real, v: real)
    requires Within(p, q, u) && Within(q, r, v)
    ensures Within(p, r, u + v)
  {
    DotBound(p.x - q.x, p.y - q.y, p.z - q.z, q.x - r.x, q.y - r.y, q.z - r.z, u, v);
    SquareOfSum(p.x - q.x, p.y - q.y, p.z - q.z, q.x - r.x, q.y - r.y, q.z - r.z);
    SquareOfSum(u, 0.0, 0.0, v, 0.0, 0.0);
  }

  lemma WithinAnyAxis(a: Xyz, b: Xyz, d: real, axis: nat)
    requires axis < 3 && Within(a, b, d)
    ensures -d <= a.Axis(axis) - b.Axis(axis) <= d
  {
    SquareNonNegative(a.x - b.x);
    SquareNonNegative(a.y - b.y);
    SquareNonNegative(a.z - b.z);
    SquareMonotone(a.Axis(axis) - b.Axis(axis), d);
  }
}
