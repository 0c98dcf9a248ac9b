/** The station's running mean of Observations, and its accuracy. */
module SurveyAveraging {
  import opened SurveyModels

  // ---------------------------------------------------------------------
  // The batch formulas
  // ---------------------------------------------------------------------

  function Sum(xs: seq<real>): real {
    if xs == [] then 0.0 else Sum(xs[..|xs| - 1]) + xs[|xs| - 1]
  }

  function Mean(xs: seq<real>): real
    requires xs != []
  {
    Sum(xs) / |xs| as real
  }

  /** The sum of squared deviations from `c`. */
  function Deviations(xs: seq<real>, c: real): real {
    if xs == [] then 0.0
    else Deviations(xs[..|xs| - 1], c) + Square(xs[|xs| - 1] - c)
  }

  function Square(x: real): real {
    x * x
  }

  function Column(ps: seq<Position>, axis: nat): (c: seq<real>)
    requires axis < 3
    ensures |c| == |ps|
  {
    seq(|ps|, i requires 0 <= i < |ps| => ps[i].at.Axis(axis))
  }

  function Accuracies(ps: seq<Position>): (c: seq<real>)
    ensures |c| == |ps|
  {
    seq(|ps|, i requires 0 <= i < |ps| => ps[i].accuracyM)
  }

  /** The mean position of a non-empty set of Observations. */
  function MeanPosition(ps: seq<Position>): Xyz
    requires ps != []
  {
    Xyz(Mean(Column(ps, 0)), Mean(Column(ps, 1)), Mean(Column(ps, 2)))
  }

  /** The variance about the mean, summed over the three axes. */
  function Spread(ps: seq<Position>): real
    requires ps != []
  {
    (Deviations(Column(ps, 0), Mean(Column(ps, 0)))
     + Deviations(Column(ps, 1), Mean(Column(ps, 1)))
     + Deviations(Column(ps, 2), Mean(Column(ps, 2)))) / |ps| as real
  }

  /** Both the mean 3D accuracy and the 3D standard deviation are at most `limitM`. */
  predicate AccurateTo(ps: seq<Position>, limitM: real)
    requires ps != []
  {
    Mean(Accuracies(ps)) <= limitM && 0.0 <= limitM && Spread(ps) <= limitM * limitM
  }

  /** The squared 3D distances from `c`, added up. */
  function SquaredDistances(ps: seq<Position>, c: Xyz): real {
    if ps == [] then 0.0
    else
      var p := ps[|ps| - 1].at;
      SquaredDistances(ps[..|ps| - 1], c) + (Square(p.x - c.x) + Square(p.y - c.y) + Square(p.z - c.z))
  }

  /** Squared distances from a point are the three axes' squared deviations from it. */
  lemma {:induction false} DistancesByAxis(ps: seq<Position>, c: Xyz)
    ensures SquaredDistances(ps, c)
         == Deviations(Column(ps, 0), c.x) + Deviations(Column(ps, 1), c.y) + Deviations(Column(ps, 2), c.z)
  {
    if ps != [] {
      var init, p := ps[..|ps| - 1], ps[|ps| - 1];
      DistancesByAxis(init, c);
      LastDeviation(ps, 0, c.x);
      LastDeviation(ps, 1, c.y);
      LastDeviation(ps, 2, c.z);
      Add(Deviations(Column(init, 0), c.x), Deviations(Column(init, 1), c.y), Deviations(Column(init, 2), c.z),
          Square(p.at.x - c.x), Square(p.at.y - c.y), Square(p.at.z - c.z));
    }
  }

  lemma Add(a: real, b: real, c: real, x: real, y: real, z: real)
    ensures (a + b + c) + (x + y + z) == (a + x) + (b + y) + (c + z)
  {
  }

  lemma LastDeviation(ps: seq<Position>, axis: nat, c: real)
    requires axis < 3 && ps != []
    ensures Deviations(Column(ps, axis), c)
         == Deviations(Column(ps[..|ps| - 1], axis), c) + Square(ps[|ps| - 1].at.Axis(axis) - c)
  {
    assert Column(ps, axis)[..|ps| - 1] == Column(ps[..|ps| - 1], axis);
  }

  /**
   Accurate to a limit: the accuracies come to at most n times it (`most`), and the squared 3D
   distances from the mean position to at most n times its square (`mostSquared`).
   */
  lemma AccurateToMeans(ps: seq<Position>, limitM: real, n: real, most: real, mostSquared: real)
    requires ps != [] && n == |ps| as real && most == n * limitM && mostSquared == n * (limitM * limitM)
    ensures AccurateTo(ps, limitM) <==>
      limitM >= 0.0 && Sum(Accuracies(ps)) <= most && SquaredDistances(ps, MeanPosition(ps)) <= mostSquared
  {
    MeanAtMost(Accuracies(ps), n, limitM, most);
    SpreadAtMost(ps, n, limitM * limitM, mostSquared);
    AccurateAs(ps, limitM, Sum(Accuracies(ps)) <= most, SquaredDistances(ps, MeanPosition(ps)) <= mostSquared);
  }

  lemma AccurateAs(ps: seq<Position>, limitM: real, mean: bool, spread: bool)
    requires ps != [] && (mean <==> Mean(Accuracies(ps)) <= limitM) && (spread <==> Spread(ps) <= limitM * limitM)
    ensures AccurateTo(ps, limitM) <==> limitM >= 0.0 && mean && spread
  {
  }

  lemma MeanAtMost(xs: seq<real>, n: real, bound: real, most: real)
    requires xs != [] && n == |xs| as real && most == n * bound
    ensures Mean(xs) <= bound <==> Sum(xs) <= most
  {
    AtMostQuotient(Sum(xs), n, bound);
  }

  lemma SpreadAtMost(ps: seq<Position>, n: real, bound: real, most: real)
    requires ps != [] && n == |ps| as real && most == n * bound
    ensures Spread(ps) <= bound <==> SquaredDistances(ps, MeanPosition(ps)) <= most
  {
    DistancesByAxis(ps, MeanPosition(ps));
    AtMostQuotient(SquaredDistances(ps, MeanPosition(ps)), n, bound);
  }

  lemma AtMostQuotient(a: real, n: real, b: real)
    requires n > 0.0
    ensures a / n <= b <==> a <= n * b
  {
    var q := a / n;
    assert q * n == a;
    if q <= b {
      assert (b - q) * n >= 0.0;
    } else {
      assert (q - b) * n > 0.0;
    }
  }

  // ---------------------------------------------------------------------
  // Welford's update
  // ---------------------------------------------------------------------

  /** How far the squared deviations from `c` exceed those from `m`, for n values with sum `s`. */
  function Shift(n: real, s: real, m: real, c: real): real {
    2.0 * ((m - c) * (s - n * m)) + n * Square(m - c)
  }

  lemma ShiftAlgebra(n: real, s: real, x: real, m: real, c: real)
    ensures Shift(n + 1.0, s + x, m, c) == Shift(n, s, m, c) + Square(x - c) - Square(x - m)
  {
    var d, w, z := m - c, x - m, s - n * m;
    assert x - c == w + d && Square(w + d) == Square(w) + 2.0 * (d * w) + Square(d);
    assert s + x - (n + 1.0) * m == z + w && d * (z + w) == d * z + d * w;
  }

  /** Moving the centre away from the mean by m - c adds n (m - c)^2. */
  lemma {:induction false} DeviationsShift(xs: seq<real>, n: real, m: real, c: real)
    requires n == |xs| as real
    ensures Deviations(xs, c) == Deviations(xs, m) + Shift(n, Sum(xs), m, c)
  {
    if xs != [] {
      var init, x := xs[..|xs| - 1], xs[|xs| - 1];
      DeviationsShift(init, n - 1.0, m, c);
      ShiftAlgebra(n - 1.0, Sum(init), x, m, c);
    }
  }

  lemma WelfordAlgebra(n: real, s: real, m: real, v: real, e: real, m': real)
    requires s == n * m && m' == m + e && e * (n + 1.0) == v - m
    ensures s + v == (n + 1.0) * m'
    ensures Shift(n, s, m, m') + Square(v - m') == (v - m) * (v - m')
  {
    assert v == m + n * e + e;
    assert (n + 1.0) * m' == n * m + m + n * e + e;
    assert m - m' == -e;
    var k := n * e;
    assert v - m' == k && v - m == k + e;
    assert n * (e * e) == k * e;
    assert k * e + k * k == (k + e) * k;
  }

  /** The running mean of some values, and their squared deviations from it. */
  predicate Running(xs: seq<real>, mean: real, m2: real) {
    mean == (if xs == [] then 0.0 else Mean(xs)) && m2 == Deviations(xs, mean)
  }

  lemma RunningSum(xs: seq<real>, n: real, mean: real, m2: real)
    requires Running(xs, mean, m2) && n == |xs| as real
    ensures Sum(xs) == n * mean
  {
  }

  lemma OneMore(xs: seq<real>, v: real, c: real)
    ensures Sum(xs + [v]) == Sum(xs) + v
    ensures Deviations(xs + [v], c) == Deviations(xs, c) + Square(v - c)
  {
    var ys := xs + [v];
    assert ys[..|ys| - 1] == xs && ys[|ys| - 1] == v;
  }

  /** The update of the mean and of the squared deviations by one value is exact. */
  lemma WelfordStep(xs: seq<real>, v: real, m: real, m2: real, m': real, m2': real)
    requires Running(xs, m, m2)
    requires m' == m + (v - m) / (|xs| + 1) as real
    requires m2' == m2 + (v - m) * (v - m')
    ensures Running(xs + [v], m', m2')
  {
    MeanStep(xs, v, m, m2, m');
    DeviationsStep(xs, v, m, m2, m');
  }

  lemma MeanStep(xs: seq<real>, v: real, m: real, m2: real, m': real)
    requires Running(xs, m, m2) && m' == m + (v - m) / (|xs| + 1) as real
    ensures Mean(xs + [v]) == m'
  {
    var n := |xs| as real;
    RunningSum(xs, n, m, m2);
    MeanAlgebra(n, Sum(xs), m, v, m');
    OneMore(xs, v, m');
    MeanFromSum(xs + [v], n + 1.0, m');
  }

  lemma DeviationsStep(xs: seq<real>, v: real, m: real, m2: real, m': real)
    requires Running(xs, m, m2) && m' == m + (v - m) / (|xs| + 1) as real
    ensures Deviations(xs + [v], m') == m2 + (v - m) * (v - m')
  {
    var n := |xs| as real;
    RunningSum(xs, n, m, m2);
    DeviationAlgebra(n, Sum(xs), m, v, m');
    OneMore(xs, v, m');
    DeviationsShift(xs, n, m, m');
    Combine(m2, Deviations(xs, m'), Deviations(xs + [v], m'),
            Shift(n, Sum(xs), m, m'), Square(v - m'), (v - m) * (v - m'));
  }

  lemma MeanAlgebra(n: real, s: real, m: real, v: real, m': real)
    requires n >= 0.0 && s == n * m && m' == m + (v - m) / (n + 1.0)
    ensures s + v == (n + 1.0) * m'
  {
    Quotient(v - m, n + 1.0, m' - m);
    WelfordAlgebra(n, s, m, v, m' - m, m');
  }

  lemma DeviationAlgebra(n: real, s: real, m: real, v: real, m': real)
    requires n >= 0.0 && s == n * m && m' == m + (v - m) / (n + 1.0)
    ensures Shift(n, s, m, m') + Square(v - m') == (v - m) * (v - m')
  {
    Quotient(v - m, n + 1.0, m' - m);
    WelfordAlgebra(n, s, m, v, m' - m, m');
  }

  lemma MeanFromSum(xs: seq<real>, n: real, mean: real)
    requires xs != [] && n == |xs| as real && Sum(xs) == n * mean
    ensures Mean(xs) == mean
  {
  }

  lemma Combine(d: real, shifted: real, d': real, shift: real, square: real, update: real)
    requires shifted == d + shift && d' == shifted + square && shift + square == update
    ensures d' == d + update
  {
  }

  lemma Quotient(a: real, b: real, q: real)
    requires b > 0.0 && q == a / b
    ensures q * b == a
  {
  }

  lemma ColumnAppend(ps: seq<Position>, p: Position)
    ensures forall axis: nat | axis < 3 :: Column(ps + [p], axis) == Column(ps, axis) + [p.at.Axis(axis)]
    ensures Accuracies(ps + [p]) == Accuracies(ps) + [p.accuracyM]
  {
  }

  /** The running mean: every field updated in place, one Observation at a time. */
  class Averaging {
    var count: nat
    var meanXyz: seq<real>
    var m2Xyz: seq<real>
    var sumAccuracyM: real
    /** The Observations added so far. */
    ghost var added: seq<Position>

    ghost predicate Valid()
      reads this
    {
      && count == |added| && |meanXyz| == |m2Xyz| == 3
      && sumAccuracyM == Sum(Accuracies(added))
      && forall axis: nat | axis < 3 :: Running(Column(added, axis), meanXyz[axis], m2Xyz[axis])
    }

    constructor ()
      ensures Valid() && added == []
    {
      count, meanXyz, m2Xyz, sumAccuracyM := 0, [0.0, 0.0, 0.0], [0.0, 0.0, 0.0], 0.0;
      added := [];
    }

    method Add(p: Position)
      requires Valid()
      modifies this
      ensures Valid() && added == old(added) + [p]
    {
      ghost var before := added;
      count := count + 1;
      ColumnAppend(before, p);
      for axis := 0 to 3
        modifies `meanXyz, `m2Xyz
        invariant |meanXyz| == |m2Xyz| == 3
        invariant forall a: nat | a < axis :: Running(Column(before + [p], a), meanXyz[a], m2Xyz[a])
        invariant forall a: nat | axis <= a < 3 :: Running(Column(before, a), meanXyz[a], m2Xyz[a])
      {
        AddToAxis(axis, p.at.Axis(axis), Column(before, axis));
      }
      sumAccuracyM := sumAccuracyM + p.accuracyM;
      added := added + [p];
      assert Accuracies(added)[..|before|] == Accuracies(before);
    }

    /** One axis's mean and squared deviations, updated in place. */
    method AddToAxis(axis: nat, value: real, ghost xs: seq<real>)
      requires axis < 3 && |meanXyz| == |m2Xyz| == 3 && count == |xs| + 1
      requires Running(xs, meanXyz[axis], m2Xyz[axis])
      modifies `meanXyz, `m2Xyz
      ensures |meanXyz| == |m2Xyz| == 3 && Running(xs + [value], meanXyz[axis], m2Xyz[axis])
      ensures forall a :: 0 <= a < 3 && a != axis ==> meanXyz[a] == old(meanXyz[a]) && m2Xyz[a] == old(m2Xyz[a])
    {
      var delta := value - meanXyz[axis];
      ghost var m, m2 := meanXyz[axis], m2Xyz[axis];
      meanXyz := meanXyz[axis := meanXyz[axis] + delta / count as real];
      m2Xyz := m2Xyz[axis := m2Xyz[axis] + delta * (value - meanXyz[axis])];
      WelfordStep(xs, value, m, m2, meanXyz[axis], m2Xyz[axis]);
    }

    /** The mean position: the mean of exactly the Observations added. */
    method MeanXyz() returns (mean: Xyz)
      requires Valid() && count > 0
      ensures mean == MeanPosition(added)
    {
      mean := Xyz(meanXyz[0], meanXyz[1], meanXyz[2]);
    }

    /** `max(mean accuracy, spread) <= limitM`, the square root taken to the other side. */
    method IsAccurateTo(limitM: real) returns (ok: bool)
      requires Valid() && count > 0 && 0.0 <= limitM
      ensures ok == AccurateTo(added, limitM)
    {
      var meanAccuracy := sumAccuracyM / count as real;
      var variance := (m2Xyz[0] + m2Xyz[1] + m2Xyz[2]) / count as real;
      ok := meanAccuracy <= limitM && variance <= limitM * limitM;
    }
  }
}
