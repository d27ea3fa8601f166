/** Single and double exponential smoothing of vectors, over the reals. */
module Smoothing {

  type Vec = seq<real>

  function Zeroes(dim: nat): Vec { seq(dim, _ => 0.0) }

  /** a * x + b * y, coordinate by coordinate. */
  function Combined(a: real, x: Vec, b: real, y: Vec): (r: Vec)
    requires |x| == |y|
    ensures |r| == |x|
  {
    seq(|x|, i requires 0 <= i < |x| => a * x[i] + b * y[i])
  }

  function SquaredNorm(x: Vec): real {
    if x == [] then 0.0 else SquaredNorm(x[..|x| - 1]) + x[|x| - 1] * x[|x| - 1]
  }

  /** norm(x) < tolerance, without the square root: a norm is never below a tolerance that is not positive. */
  predicate Below(x: Vec, tolerance: real) {
    tolerance > 0.0 && SquaredNorm(x) < tolerance * tolerance
  }

  /** The squared norm adds up the squares of the coordinates. */
  lemma {:induction false} SquaredNormMeans(x: Vec, y: Vec, v: real)
    ensures SquaredNorm([]) == 0.0 && SquaredNorm([v]) == v * v && SquaredNorm(x + y) == SquaredNorm(x) + SquaredNorm(y)
  {
    assert [v][..0] == [];
    if y == [] {
      assert x + y == x;
    } else {
      assert (x + y)[..|x + y| - 1] == x + y[..|y| - 1];
      SquaredNormMeans(x, y[..|y| - 1], v);
    }
  }

  /** For one coordinate the test compares the size of the change with the tolerance. */
  lemma BelowOnALine(v: real, tolerance: real)
    ensures Below([v], tolerance) <==> -tolerance < v < tolerance
  {
    SquaredNormMeans([], [], v);
    assert SquaredNorm([v]) == v * v;
    if tolerance > 0.0 {
      SquaresCompare(if v < 0.0 then -v else v, tolerance);
    }
  }

  lemma SquaresCompare(a: real, b: real)
    requires a >= 0.0 && b > 0.0
    ensures a * a < b * b <==> a < b
  {
    SameSign(a - b, a + b);
    assert (a - b) * (a + b) == a * a - b * b;
  }

  lemma SameSign(a: real, b: real)
    requires b > 0.0
    ensures a * b < 0.0 <==> a < 0.0
  {
    if a > 0.0 { assert a * b > 0.0; }
    if a < 0.0 { assert -a * b > 0.0; }
  }

  method Combine(a: real, x: Vec, b: real, y: Vec) returns (r: Vec)
    requires |x| == |y|
    ensures r == Combined(a, x, b, y)
  {
    r := [];
    for i := 0 to |x|
      invariant |r| == i && forall k :: 0 <= k < i ==> r[k] == Combined(a, x, b, y)[k]
    {
      r := r + [a * x[i] + b * y[i]];
    }
    assert r == Combined(a, x, b, y);
  }

  method IsBelow(x: Vec, tolerance: real) returns (b: bool)
    ensures b == Below(x, tolerance)
  {
    var norm := 0.0;
    for i := 0 to |x|
      invariant norm == SquaredNorm(x[..i])
    {
      assert x[..i + 1][..i] == x[..i];
      norm := norm + x[i] * x[i];
    }
    assert x[..|x|] == x;
    return tolerance > 0.0 && norm < tolerance * tolerance;
  }

  // ---------------------------------------------------------------- single smoothing

  datatype Single = Single(curr: Vec, alpha: real, counter: nat, tolerance: real)

  function PushSingle(s: Single, x: Vec): (r: Single)
    requires |x| == |s.curr|
    ensures |r.curr| == |x| && r.alpha == s.alpha && r.tolerance == s.tolerance
  {
    if s.counter == 0 then s.(curr := x, counter := 1)
    else
      var next := Combined(s.alpha, x, 1.0 - s.alpha, s.curr);
      var kept := Below(Combined(1.0, next, -1.0, s.curr), s.tolerance);
      s.(curr := if kept then s.curr else next, counter := s.counter + 1)
  }

  /** One coordinate, one push: a change smaller than the tolerance is not taken. */
  lemma SingleOnALine(s: Single, x: real)
    requires |s.curr| == 1 && s.counter > 0
    ensures var next := s.alpha * x + (1.0 - s.alpha) * s.curr[0];
            PushSingle(s, [x]).curr[0] ==
              if -s.tolerance < next - s.curr[0] < s.tolerance then s.curr[0] else next
  {
    var next := Combined(s.alpha, [x], 1.0 - s.alpha, s.curr);
    var change := Combined(1.0, next, -1.0, s.curr);
    assert change == [next[0] - s.curr[0]];
    BelowOnALine(change[0], s.tolerance);
  }

  class SingleSmoother {
    var curr: Vec
    var alpha: real
    var counter: nat
    var tolerance: real

    ghost function View(): Single
      reads this
    {
      Single(curr, alpha, counter, tolerance)
    }

    constructor (dim: nat)
      ensures View() == Single(Zeroes(dim), 0.5, 0, 0.0)
    {
      curr, alpha, counter, tolerance := Zeroes(dim), 0.5, 0, 0.0;
    }

    method PushToPop(x: Vec) returns (smoothed: Vec)
      requires |x| == |curr|
      modifies this
      ensures View() == PushSingle(old(View()), x) && smoothed == curr
    {
      if 0 < counter {
        var last := curr;
        curr := Combine(alpha, x, 1.0 - alpha, curr);
        var diff := Combine(1.0, curr, -1.0, last);
        var kept := IsBelow(diff, tolerance);
        if kept {
          curr := last;
        }
      } else {
        curr := x;
      }
      counter := counter + 1;
      return curr;
    }
  }

  ghost predicate Series(xs: seq<Vec>, dim: nat) {
    forall k :: 0 <= k < |xs| ==> |xs[k]| == dim
  }

  /** The smoother after a series of observations. */
  ghost function RunSingle(xs: seq<Vec>, dim: nat, alpha: real, tolerance: real): (s: Single)
    requires Series(xs, dim)
    ensures |s.curr| == dim && s.counter == |xs| && s.alpha == alpha && s.tolerance == tolerance
  {
    if xs == [] then Single(Zeroes(dim), alpha, 0, tolerance)
    else PushSingle(RunSingle(xs[..|xs| - 1], dim, alpha, tolerance), xs[|xs| - 1])
  }

  lemma NonNegative(a: real, b: real)
    requires a >= 0.0 && b >= 0.0
    ensures a * b >= 0.0
  {
  }

  lemma MixIsBetween(a: real, x: real, y: real, lo: real, hi: real)
    requires 0.0 < a < 1.0 && lo <= x <= hi && lo <= y <= hi
    ensures lo <= a * x + (1.0 - a) * y <= hi
  {
    NonNegative(a, x - lo);
    NonNegative(1.0 - a, y - lo);
    NonNegative(a, hi - x);
    NonNegative(1.0 - a, hi - y);
  }

  lemma PushIsBetween(s: Single, x: Vec, i: nat, lo: real, hi: real)
    requires |x| == |s.curr| && i < |x| && s.counter > 0 && 0.0 < s.alpha < 1.0
    requires lo <= x[i] <= hi && lo <= s.curr[i] <= hi
    ensures lo <= PushSingle(s, x).curr[i] <= hi
  {
    MixIsBetween(s.alpha, x[i], s.curr[i], lo, hi);
    var next := Combined(s.alpha, x, 1.0 - s.alpha, s.curr);
    assert lo <= next[i] <= hi;
    var r := PushSingle(s, x).curr;
    assert r == s.curr || r == next;
  }

  /** The smoothed value never leaves the range observed, whatever the tolerance. */
  lemma {:induction false} SingleStaysInRange(xs: seq<Vec>, dim: nat, alpha: real, tolerance: real, i: nat, lo: real,
                                              hi: real)
    requires Series(xs, dim) && xs != [] && i < dim && 0.0 < alpha < 1.0
    requires forall k :: 0 <= k < |xs| ==> lo <= xs[k][i] <= hi
    ensures lo <= RunSingle(xs, dim, alpha, tolerance).curr[i] <= hi
  {
    var front, x := xs[..|xs| - 1], xs[|xs| - 1];
    if |xs| > 1 {
      SingleStaysInRange(front, dim, alpha, tolerance, i, lo, hi);
      PushIsBetween(RunSingle(front, dim, alpha, tolerance), x, i, lo, hi);
    }
  }

  function Pow(b: real, n: nat): real { if n == 0 then 1.0 else b * Pow(b, n - 1) }

  /** The weight of observation k after n of them: the first keeps what the others leave. */
  function Weight(alpha: real, n: nat, k: nat): real
    requires k < n
  {
    if k == 0 then Pow(1.0 - alpha, n - 1) else alpha * Pow(1.0 - alpha, n - 1 - k)
  }

  function Weights(alpha: real, n: nat): (w: seq<real>)
    ensures |w| == n
  {
    seq(n, k requires 0 <= k < n => Weight(alpha, n, k))
  }

  function Total(x: seq<real>): real {
    if x == [] then 0.0 else Total(x[..|x| - 1]) + x[|x| - 1]
  }

  function Products(w: seq<real>, x: seq<real>): (r: seq<real>)
    requires |w| == |x|
    ensures |r| == |w|
  {
    seq(|w|, k requires 0 <= k < |w| => w[k] * x[k])
  }

  function Dot(w: seq<real>, x: seq<real>): real
    requires |w| == |x|
  {
    Total(Products(w, x))
  }

  function Scaled(c: real, w: seq<real>): (r: seq<real>)
    ensures |r| == |w|
  {
    seq(|w|, k requires 0 <= k < |w| => c * w[k])
  }

  lemma Associates(c: real, a: real, b: real)
    ensures (c * a) * b == c * (a * b)
  {
  }

  lemma Distributes(c: real, a: real, b: real)
    ensures c * (a + b) == c * a + c * b
  {
  }

  lemma ScaledFront(c: real, w: seq<real>)
    requires w != []
    ensures Scaled(c, w)[..|w| - 1] == Scaled(c, w[..|w| - 1])
  {
    var a, b := Scaled(c, w)[..|w| - 1], Scaled(c, w[..|w| - 1]);
    forall k | 0 <= k < |a| ensures a[k] == b[k] {}
  }

  lemma {:induction false} TotalScales(c: real, x: seq<real>)
    ensures Total(Scaled(c, x)) == c * Total(x)
  {
    if x != [] {
      var front := x[..|x| - 1];
      TotalScales(c, front);
      Distributes(c, Total(front), x[|x| - 1]);
      ScaledFront(c, x);
    }
  }

  lemma DotScales(c: real, w: seq<real>, x: seq<real>)
    requires |w| == |x|
    ensures Dot(Scaled(c, w), x) == c * Dot(w, x)
  {
    var a, b := Products(Scaled(c, w), x), Scaled(c, Products(w, x));
    forall k | 0 <= k < |w| ensures a[k] == b[k] { Associates(c, w[k], x[k]); }
    assert a == b;
    TotalScales(c, Products(w, x));
  }

  lemma ScaleWeight(alpha: real, n: nat, k: nat)
    requires k < n
    ensures Weight(alpha, n + 1, k) == (1.0 - alpha) * Weight(alpha, n, k)
  {
    if k > 0 {
      var p := Pow(1.0 - alpha, n - 1 - k);
      assert Pow(1.0 - alpha, n - k) == (1.0 - alpha) * p;
    }
  }

  /** One more observation scales the weights so far by 1 - alpha and gets alpha itself. */
  lemma WeightsStep(alpha: real, n: nat)
    requires n > 0
    ensures Weights(alpha, n + 1) == Scaled(1.0 - alpha, Weights(alpha, n)) + [alpha]
  {
    var a, b := Weights(alpha, n + 1), Scaled(1.0 - alpha, Weights(alpha, n)) + [alpha];
    forall k | 0 <= k < |a| ensures a[k] == b[k] {
      if k < n { ScaleWeight(alpha, n, k); } else { assert Pow(1.0 - alpha, 0) == 1.0; }
    }
  }

  ghost function Column(xs: seq<Vec>, i: nat): (r: seq<real>)
    requires forall k :: 0 <= k < |xs| ==> i < |xs[k]|
    ensures |r| == |xs|
  {
    seq(|xs|, k requires 0 <= k < |xs| => xs[k][i])
  }

  lemma DotAppend(w: seq<real>, a: real, x: seq<real>, v: real)
    requires |w| == |x|
    ensures Dot(w + [a], x + [v]) == Dot(w, x) + a * v
  {
    var t, front := Products(w + [a], x + [v]), Products(w, x);
    forall k | 0 <= k < |w| ensures t[k] == front[k] {}
    assert t[..|w|] == front;
  }

  /** Pushing one value onto a weighted sum whose weights shrink by c. */
  lemma DotPush(c: real, w: seq<real>, a: real, x: seq<real>, v: real)
    requires |w| == |x|
    ensures Dot(Scaled(c, w) + [a], x + [v]) == c * Dot(w, x) + a * v
  {
    DotScales(c, w, x);
    DotAppend(Scaled(c, w), a, x, v);
  }

  /** Without a tolerance, the smoothed value is the geometric weighted sum of all observations. */
  lemma {:induction false} SingleIsWeightedSum(xs: seq<Vec>, dim: nat, alpha: real, tolerance: real, i: nat)
    requires Series(xs, dim) && xs != [] && i < dim && tolerance <= 0.0
    ensures RunSingle(xs, dim, alpha, tolerance).curr[i] == Dot(Weights(alpha, |xs|), Column(xs, i))
  {
    var n := |xs| - 1;
    var front, x := xs[..n], xs[n];
    if n == 0 {
      FirstWeight(alpha, x[i]);
      assert Column(xs, i) == [x[i]];
    } else {
      SingleIsWeightedSum(front, dim, alpha, tolerance, i);
      SinglePushAt(RunSingle(front, dim, alpha, tolerance), x, i);
      WeightsStep(alpha, n);
      DotPush(1.0 - alpha, Weights(alpha, n), alpha, Column(front, i), x[i]);
      assert Column(xs, i) == Column(front, i) + [x[i]];
    }
  }

  lemma FirstWeight(alpha: real, v: real)
    ensures Dot(Weights(alpha, 1), [v]) == v
  {
    assert Weights(alpha, 1) == [1.0];
    DotAppend([], 1.0, [], v);
    assert [] + [1.0] == [1.0] && [] + [v] == [v];
  }

  lemma SinglePushAt(s: Single, x: Vec, i: nat)
    requires |x| == |s.curr| && i < |x| && s.counter > 0 && s.tolerance <= 0.0
    ensures PushSingle(s, x).curr[i] == s.alpha * x[i] + (1.0 - s.alpha) * s.curr[i]
  {
  }

  // ---------------------------------------------------------------- double smoothing

  datatype Double = Double(curr: Vec, last: Vec, correction: Vec, alpha: real, beta: real, counter: nat,
                           tolerance: real)

  ghost predicate Sized(d: Double, dim: nat) {
    |d.curr| == |d.last| == |d.correction| == dim
  }

  /** The next smoothed value from a correction; a change below the tolerance is not taken. */
  function Corrected(d: Double, x: Vec, correction: Vec): (r: Double)
    requires |x| == |d.curr| == |correction|
    ensures |r.curr| == |r.last| == |r.correction| == |x|
  {
    var next := Combined(d.alpha, x, 1.0 - d.alpha, Combined(1.0, d.curr, 1.0, correction));
    var kept := Below(Combined(1.0, next, -1.0, d.curr), d.tolerance);
    d.(correction := correction, last := d.curr, curr := if kept then d.curr else next, counter := d.counter + 1)
  }

  function PushDouble(d: Double, x: Vec): Double
    requires |d.curr| == |d.last| == |d.correction| == |x|
  {
    if d.counter == 0 then d.(curr := x, counter := 1)
    else if d.counter == 1 then Corrected(d, x, Combined(1.0, x, -1.0, d.curr))
    else Corrected(d, x, Combined(d.beta, Combined(1.0, d.curr, -1.0, d.last), 1.0 - d.beta, d.correction))
  }

  /** One coordinate, one push with a given correction: again a change smaller than the tolerance is not taken. */
  lemma DoubleOnALine(d: Double, x: real, k: real)
    requires Sized(d, 1)
    ensures var next := d.alpha * x + (1.0 - d.alpha) * (d.curr[0] + k);
            var g := Corrected(d, [x], [k]);
            && g.curr[0] == (if -d.tolerance < next - d.curr[0] < d.tolerance then d.curr[0] else next)
            && g.last == d.curr && g.correction == [k]
  {
    var next := Combined(d.alpha, [x], 1.0 - d.alpha, Combined(1.0, d.curr, 1.0, [k]));
    var change := Combined(1.0, next, -1.0, d.curr);
    assert change == [next[0] - d.curr[0]];
    BelowOnALine(change[0], d.tolerance);
  }

  class DoubleSmoother {
    var curr: Vec
    var last: Vec
    var correction: Vec
    var alpha: real
    var beta: real
    var counter: nat
    var tolerance: real

    ghost function View(): Double
      reads this
    {
      Double(curr, last, correction, alpha, beta, counter, tolerance)
    }

    constructor (dim: nat)
      ensures View() == Double(Zeroes(dim), Zeroes(dim), Zeroes(dim), 0.5, 0.5, 0, 0.0)
    {
      curr, last, correction := Zeroes(dim), Zeroes(dim), Zeroes(dim);
      alpha, beta, counter, tolerance := 0.5, 0.5, 0, 0.0;
    }

    method PushToPop(x: Vec) returns (smoothed: Vec)
      requires Sized(View(), |x|)
      modifies this
      ensures View() == PushDouble(old(View()), x) && smoothed == curr
    {
      if counter == 0 {
        curr := x;
        counter := counter + 1;
        return curr;
      }
      if counter == 1 {
        correction := Combine(1.0, x, -1.0, curr);
      } else {
        var change := Combine(1.0, curr, -1.0, last);
        correction := Combine(beta, change, 1.0 - beta, correction);
      }
      Follow(x);
      return curr;
    }

    /** The rest of a push once the correction is known. */
    method Follow(x: Vec)
      requires |x| == |curr| == |correction|
      modifies this
      ensures View() == Corrected(old(View()), x, old(correction))
    {
      last := curr;
      var trend := Combine(1.0, curr, 1.0, correction);
      curr := Combine(alpha, x, 1.0 - alpha, trend);
      var diff := Combine(1.0, curr, -1.0, last);
      var kept := IsBelow(diff, tolerance);
      if kept {
        curr := last;
      }
      counter := counter + 1;
    }

    /** Resetting leaves the tolerance as it was. */
    method Reset()
      modifies this
      ensures View() == Double(Zeroes(|old(curr)|), Zeroes(|old(last)|), Zeroes(|old(correction)|), 0.5, 0.5, 0,
                               old(tolerance))
    {
      curr, last, correction := Zeroes(|curr|), Zeroes(|last|), Zeroes(|correction|);
      alpha, beta, counter := 0.5, 0.5, 0;
    }
  }

  ghost function RunDouble(xs: seq<Vec>, dim: nat, alpha: real, beta: real, tolerance: real): (d: Double)
    requires Series(xs, dim)
    ensures Sized(d, dim) && d.counter == |xs| && d.alpha == alpha && d.beta == beta && d.tolerance == tolerance
  {
    if xs == [] then Double(Zeroes(dim), Zeroes(dim), Zeroes(dim), alpha, beta, 0, tolerance)
    else PushDouble(RunDouble(xs[..|xs| - 1], dim, alpha, beta, tolerance), xs[|xs| - 1])
  }

  /** One coordinate of the smoother: smoothed value, the one before, and the correction. */
  datatype Point = Point(curr: real, last: real, correction: real)

  function Coordinate(d: Double, i: nat): Point
    requires i < |d.curr| && i < |d.last| && i < |d.correction|
  {
    Point(d.curr[i], d.last[i], d.correction[i])
  }

  function PushPoint(p: Point, alpha: real, beta: real, counter: nat, x: real): Point {
    if counter == 0 then p.(curr := x)
    else
      var k := if counter == 1 then x - p.curr else beta * (p.curr - p.last) + (1.0 - beta) * p.correction;
      Point(alpha * x + (1.0 - alpha) * (p.curr + k), p.curr, k)
  }

  lemma CorrectionAt(d: Double, x: Vec, k: Vec, i: nat)
    requires Sized(d, |x|) && |k| == |x| && i < |x| && d.tolerance <= 0.0
    ensures Coordinate(Corrected(d, x, k), i) == Point(d.alpha * x[i] + (1.0 - d.alpha) * (d.curr[i] + k[i]),
                                                       d.curr[i], k[i])
  {
    assert Combined(1.0, d.curr, 1.0, k)[i] == d.curr[i] + k[i];
  }

  /** Without a tolerance the coordinates do not influence each other. */
  lemma CoordinatesAreIndependent(d: Double, x: Vec, i: nat)
    requires Sized(d, |x|) && i < |x| && d.tolerance <= 0.0
    ensures Sized(PushDouble(d, x), |x|)
    ensures Coordinate(PushDouble(d, x), i) == PushPoint(Coordinate(d, i), d.alpha, d.beta, d.counter, x[i])
  {
    if d.counter == 1 {
      var k := Combined(1.0, x, -1.0, d.curr);
      assert k[i] == x[i] - d.curr[i];
      CorrectionAt(d, x, k, i);
    } else if d.counter > 1 {
      var change := Combined(1.0, d.curr, -1.0, d.last);
      assert change[i] == d.curr[i] - d.last[i];
      var k := Combined(d.beta, change, 1.0 - d.beta, d.correction);
      CorrectionAt(d, x, k, i);
    }
  }

  /** The smoother of one coordinate's series. */
  function RunPoint(xs: seq<real>, alpha: real, beta: real): Point {
    if xs == [] then Point(0.0, 0.0, 0.0)
    else PushPoint(RunPoint(xs[..|xs| - 1], alpha, beta), alpha, beta, |xs| - 1, xs[|xs| - 1])
  }

  lemma {:induction false} RunByCoordinate(xs: seq<Vec>, dim: nat, alpha: real, beta: real, tolerance: real, i: nat)
    requires Series(xs, dim) && i < dim && tolerance <= 0.0
    ensures Coordinate(RunDouble(xs, dim, alpha, beta, tolerance), i) == RunPoint(Column(xs, i), alpha, beta)
  {
    if xs != [] {
      var front := xs[..|xs| - 1];
      RunByCoordinate(front, dim, alpha, beta, tolerance, i);
      CoordinatesAreIndependent(RunDouble(front, dim, alpha, beta, tolerance), xs[|xs| - 1], i);
      assert Column(xs, i)[..|xs| - 1] == Column(front, i);
    }
  }

  // ---------------------------------------------------------------- linear series

  lemma MixIsExact(a: real, v: real)
    ensures a * v + (1.0 - a) * v == v
  {
  }

  /** After n values of a line, the last being v. */
  ghost predicate OnLine(p: Point, n: nat, v: real, slope: real) {
    && (n > 0 ==> p.curr == v)
    && (n > 1 ==> p.last == v - slope && p.correction == slope)
  }

  lemma PointFollowsLine(p: Point, alpha: real, beta: real, n: nat, v: real, slope: real)
    requires n > 0 && OnLine(p, n, v, slope)
    ensures OnLine(PushPoint(p, alpha, beta, n, v + slope), n + 1, v + slope, slope)
  {
    MixIsExact(beta, slope);
    MixIsExact(alpha, v + slope);
  }

  ghost predicate Steady(xs: seq<real>, slope: real) {
    forall k :: 0 < k < |xs| ==> xs[k] == xs[k - 1] + slope
  }

  lemma {:induction false} RunFollowsLine(xs: seq<real>, alpha: real, beta: real, slope: real)
    requires Steady(xs, slope) && xs != []
    ensures OnLine(RunPoint(xs, alpha, beta), |xs|, xs[|xs| - 1], slope)
  {
    var n := |xs| - 1;
    if n > 0 {
      RunFollowsLine(xs[..n], alpha, beta, slope);
      PointFollowsLine(RunPoint(xs[..n], alpha, beta), alpha, beta, n, xs[n - 1], slope);
    }
  }

  /** Each observation is the one before plus the slope. */
  ghost predicate Linear(xs: seq<Vec>, slope: Vec) {
    && Series(xs, |slope|)
    && forall i :: 0 <= i < |slope| ==> Steady(Column(xs, i), slope[i])
  }

  /** Without a tolerance, a linear series is reproduced exactly, and the correction is its slope. */
  lemma DoubleFollowsLines(xs: seq<Vec>, slope: Vec, alpha: real, beta: real, tolerance: real, i: nat)
    requires Linear(xs, slope) && xs != [] && i < |slope| && tolerance <= 0.0
    ensures var d := RunDouble(xs, |slope|, alpha, beta, tolerance);
            && d.curr[i] == xs[|xs| - 1][i]
            && (|xs| > 1 ==> d.last[i] == xs[|xs| - 1][i] - slope[i] && d.correction[i] == slope[i])
  {
    RunByCoordinate(xs, |slope|, alpha, beta, tolerance, i);
    RunFollowsLine(Column(xs, i), alpha, beta, slope[i]);
  }

  // ---------------------------------------------------------------- affine maps

  lemma MixIsAffine(a: real, c: real, x: real, s: real, k: real, d: real)
    ensures a * (c * x + d) + (1.0 - a) * ((c * s + d) + c * k) == c * (a * x + (1.0 - a) * (s + k)) + d
  {
  }

  lemma CorrectionIsLinear(b: real, c: real, s: real, l: real, k: real, d: real)
    ensures b * ((c * s + d) - (c * l + d)) + (1.0 - b) * (c * k) == c * (b * (s - l) + (1.0 - b) * k)
  {
  }

  lemma DifferenceIsLinear(c: real, x: real, s: real, d: real)
    ensures (c * x + d) - (c * s + d) == c * (x - s)
  {
  }

  /** After n values, q is p with its values mapped and its correction scaled. */
  ghost predicate MapsTo(p: Point, q: Point, n: nat, c: real, d: real) {
    && (n > 0 ==> q.curr == c * p.curr + d)
    && (n > 1 ==> q.last == c * p.last + d && q.correction == c * p.correction)
  }

  ghost predicate IsImage(y: real, x: real, c: real, d: real) { y == c * x + d }

  lemma PointCommutes(p: Point, q: Point, alpha: real, beta: real, n: nat, c: real, d: real, x: real, y: real)
    requires MapsTo(p, q, n, c, d) && IsImage(y, x, c, d)
    ensures MapsTo(PushPoint(p, alpha, beta, n, x), PushPoint(q, alpha, beta, n, y), n + 1, c, d)
  {
    if n > 0 {
      var k := PushPoint(p, alpha, beta, n, x).correction;
      if n == 1 {
        DifferenceIsLinear(c, x, p.curr, d);
      } else {
        CorrectionIsLinear(beta, c, p.curr, p.last, p.correction, d);
      }
      MixIsAffine(alpha, c, x, p.curr, k, d);
    }
  }

  ghost predicate AffineColumn(ys: seq<real>, xs: seq<real>, c: real, d: real) {
    |ys| == |xs| && forall k :: 0 <= k < |xs| ==> IsImage(ys[k], xs[k], c, d)
  }

  /** What every push keeps, every run keeps. */
  ghost predicate Kept(rel: (Point, Point, nat) -> bool, xs: seq<real>, ys: seq<real>, alpha: real, beta: real)
    requires |ys| == |xs|
  {
    forall p, q, n :: 0 <= n < |xs| && rel(p, q, n) ==>
      rel(PushPoint(p, alpha, beta, n, xs[n]), PushPoint(q, alpha, beta, n, ys[n]), n + 1)
  }

  lemma {:induction false} RunsRelate(rel: (Point, Point, nat) -> bool, xs: seq<real>, ys: seq<real>, alpha: real,
                                      beta: real)
    requires |ys| == |xs| && Kept(rel, xs, ys, alpha, beta)
    requires rel(Point(0.0, 0.0, 0.0), Point(0.0, 0.0, 0.0), 0)
    ensures rel(RunPoint(xs, alpha, beta), RunPoint(ys, alpha, beta), |xs|)
  {
    if xs != [] {
      var n := |xs| - 1;
      RunsRelate(rel, xs[..n], ys[..n], alpha, beta);
      assert rel(RunPoint(xs[..n], alpha, beta), RunPoint(ys[..n], alpha, beta), n);
    }
  }

  lemma RunCommutes(xs: seq<real>, ys: seq<real>, alpha: real, beta: real, c: real, d: real)
    requires AffineColumn(ys, xs, c, d)
    ensures MapsTo(RunPoint(xs, alpha, beta), RunPoint(ys, alpha, beta), |xs|, c, d)
  {
    var rel := (p: Point, q: Point, n: nat) => MapsTo(p, q, n, c, d);
    forall p, q, n | 0 <= n < |xs| && rel(p, q, n)
      ensures rel(PushPoint(p, alpha, beta, n, xs[n]), PushPoint(q, alpha, beta, n, ys[n]), n + 1)
    {
      PointCommutes(p, q, alpha, beta, n, c, d, xs[n], ys[n]);
    }
    RunsRelate(rel, xs, ys, alpha, beta);
  }

  /** Every observation scaled by c and shifted coordinate by coordinate. */
  ghost predicate AffineImage(ys: seq<Vec>, xs: seq<Vec>, c: real, shift: Vec) {
    && |ys| == |xs| && Series(xs, |shift|) && Series(ys, |shift|)
    && forall i :: 0 <= i < |shift| ==> AffineColumn(Column(ys, i), Column(xs, i), c, shift[i])
  }

  /** Without a tolerance, smoothing commutes with affine maps; corrections only scale. */
  lemma DoubleCommutesWithAffine(xs: seq<Vec>, ys: seq<Vec>, c: real, shift: Vec, alpha: real, beta: real,
                                 tolerance: real, i: nat)
    requires AffineImage(ys, xs, c, shift) && i < |shift| && tolerance <= 0.0
    ensures MapsTo(Coordinate(RunDouble(xs, |shift|, alpha, beta, tolerance), i),
                   Coordinate(RunDouble(ys, |shift|, alpha, beta, tolerance), i), |xs|, c, shift[i])
  {
    RunCommutes(Column(xs, i), Column(ys, i), alpha, beta, c, shift[i]);
    RunByCoordinate(xs, |shift|, alpha, beta, tolerance, i);
    RunByCoordinate(ys, |shift|, alpha, beta, tolerance, i);
  }
}
