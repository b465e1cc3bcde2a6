/**
 The least-squares slope of a series: which line it belongs to, and what its sign says.
 */
module TrendLine {

  // ----- sums of products

  function Dot(a: seq<real>, b: seq<real>): real
    requires |a| == |b|
  {
    if a == [] then 0.0 else a[0] * b[0] + Dot(a[1..], b[1..])
  }

  function Add(a: seq<real>, b: seq<real>): (r: seq<real>)
    requires |a| == |b|
    ensures |r| == |a| && forall i :: 0 <= i < |a| ==> r[i] == a[i] + b[i]
  {
    seq(|a|, i requires 0 <= i < |a| => a[i] + b[i])
  }

  function Scale(k: real, a: seq<real>): (r: seq<real>)
    ensures |r| == |a| && forall i :: 0 <= i < |a| ==> r[i] == k * a[i]
  {
    seq(|a|, i requires 0 <= i < |a| => k * a[i])
  }

  /** The same value at every sample. */
  function Flat(k: real, n: nat): (r: seq<real>)
    ensures |r| == n && forall i :: 0 <= i < n ==> r[i] == k
  {
    seq(n, _ => k)
  }

  lemma {:induction false} DotSymmetric(a: seq<real>, b: seq<real>)
    requires |a| == |b|
    ensures Dot(a, b) == Dot(b, a)
    decreases |a|
  {
    if a != [] {
      DotSymmetric(a[1..], b[1..]);
    }
  }

  lemma {:induction false} DotAdd(c: seq<real>, a: seq<real>, b: seq<real>)
    requires |a| == |b| == |c|
    ensures Dot(c, Add(a, b)) == Dot(c, a) + Dot(c, b)
    decreases |a|
  {
    if a != [] {
      DotAdd(c[1..], a[1..], b[1..]);
      assert Add(a, b)[1..] == Add(a[1..], b[1..]);
      Distribute(c[0], a[0], b[0]);
    }
  }

  lemma Distribute(c: real, a: real, b: real)
    ensures c * (a + b) == c * a + c * b
  {
  }

  lemma {:induction false} DotScale(c: seq<real>, k: real, a: seq<real>)
    requires |a| == |c|
    ensures Dot(c, Scale(k, a)) == k * Dot(c, a)
    decreases |a|
  {
    if a != [] {
      DotScale(c[1..], k, a[1..]);
      ScaleTail(k, a);
      ScaleStep(c[0], k, a[0], Dot(c[1..], a[1..]));
    }
  }

  lemma ScaleTail(k: real, a: seq<real>)
    requires a != []
    ensures Scale(k, a)[1..] == Scale(k, a[1..])
  {
    forall i | 0 <= i < |a| - 1
      ensures Scale(k, a)[1..][i] == Scale(k, a[1..])[i]
    {
      assert a[1..][i] == a[i + 1];
    }
  }

  lemma ScaleStep(c: real, k: real, a: real, rest: real)
    ensures c * (k * a) + k * rest == k * (c * a + rest)
  {
  }

  /** A constant counts as often as there are samples: its product is the constant times the sum. */
  lemma {:induction false} DotFlat(c: seq<real>, k: real)
    ensures Dot(c, Flat(k, |c|)) == k * Total(c)
    decreases |c|
  {
    if c != [] {
      DotFlat(c[1..], k);
      assert Flat(k, |c|)[1..] == Flat(k, |c| - 1);
      Distribute(k, c[0], Total(c[1..]));
    }
  }

  function Total(a: seq<real>): real {
    if a == [] then 0.0 else a[0] + Total(a[1..])
  }

  lemma {:induction false} TotalFlat(k: real, n: nat)
    ensures Total(Flat(k, n)) == k * n as real
    decreases n
  {
    if n > 0 {
      TotalFlat(k, n - 1);
      assert Flat(k, n)[1..] == Flat(k, n - 1);
      Distribute(k, 1.0, (n - 1) as real);
    }
  }

  lemma {:induction false} TotalAdd(a: seq<real>, b: seq<real>)
    requires |a| == |b|
    ensures Total(Add(a, b)) == Total(a) + Total(b)
    decreases |a|
  {
    if a != [] {
      TotalAdd(a[1..], b[1..]);
      assert Add(a, b)[1..] == Add(a[1..], b[1..]);
    }
  }

  lemma Square(x: real)
    ensures x * x >= 0.0
  {
  }

  lemma StrictSquare(x: real, square: real)
    requires x != 0.0 && square == x * x
    ensures square > 0.0
  {
    if x > 0.0 {
      BothPositive(x, x, square);
    } else {
      BothNegative(x, x, square);
    }
  }

  lemma BothPositive(x: real, y: real, product: real)
    requires x > 0.0 && y > 0.0 && product == x * y
    ensures product > 0.0
  {
  }

  lemma BothNegative(x: real, y: real, product: real)
    requires x < 0.0 && y < 0.0 && product == x * y
    ensures product > 0.0
  {
  }

  lemma SquareAndMore(x: real, rest: real, sum: real)
    requires x != 0.0 && rest >= 0.0 && sum == x * x + rest
    ensures sum > 0.0
  {
    var square := x * x;
    StrictSquare(x, square);
    assert sum == square + rest;
  }

  lemma {:induction false} SquareIsNonnegative(a: seq<real>)
    ensures Dot(a, a) >= 0.0
    decreases |a|
  {
    if a != [] {
      SquareIsNonnegative(a[1..]);
      Square(a[0]);
    }
  }

  lemma {:induction false} PositiveSquare(a: seq<real>)
    requires a != [] && a[0] != 0.0
    ensures Dot(a, a) > 0.0
  {
    SquareIsNonnegative(a[1..]);
    SquareAndMore(a[0], Dot(a[1..], a[1..]), Dot(a, a));
  }

  // ----- the fit

  predicate Increasing(times: seq<real>) {
    forall i, j :: 0 <= i < j < |times| ==> times[i] < times[j]
  }

  function Mean(a: seq<real>): real
    requires a != []
  {
    Total(a) / |a| as real
  }

  /** Distances from the mean. */
  function Centered(a: seq<real>): (r: seq<real>)
    requires a != []
    ensures |r| == |a| && forall i :: 0 <= i < |a| ==> r[i] == a[i] - Mean(a)
  {
    Add(a, Flat(-Mean(a), |a|))
  }

  lemma CenteredTotal(a: seq<real>)
    requires a != []
    ensures Total(Centered(a)) == 0.0
  {
    TotalAdd(a, Flat(-Mean(a), |a|));
    TotalFlat(-Mean(a), |a|);
  }

  function Spread(times: seq<real>): real
    requires times != []
  {
    Dot(Centered(times), Centered(times))
  }

  function Slope(times: seq<real>, values: seq<real>): real
    requires |times| == |values| && times != [] && Spread(times) != 0.0
  {
    Dot(Centered(times), values) / Spread(times)
  }

  lemma {:induction false} AllBelow(a: seq<real>)
    requires forall i :: 0 <= i < |a| ==> a[i] <= 0.0
    ensures Total(a) <= 0.0
    ensures Total(a) == 0.0 ==> forall i :: 0 <= i < |a| ==> a[i] == 0.0
    decreases |a|
  {
    if a != [] {
      AllBelow(a[1..]);
      assert forall i :: 1 <= i < |a| ==> a[i] == a[1..][i - 1];
    }
  }

  lemma {:induction false} AllAbove(a: seq<real>)
    requires forall i :: 0 <= i < |a| ==> a[i] >= 0.0
    ensures Total(a) >= 0.0
    ensures Total(a) == 0.0 ==> forall i :: 0 <= i < |a| ==> a[i] == 0.0
    decreases |a|
  {
    if a != [] {
      AllAbove(a[1..]);
      assert forall i :: 1 <= i < |a| ==> a[i] == a[1..][i - 1];
    }
  }

  /** The first time lies before the mean and the last one after it. */
  lemma EndsStraddle(times: seq<real>)
    requires Increasing(times) && |times| >= 2
    ensures Centered(times)[0] < 0.0 < Centered(times)[|times| - 1]
  {
    var d := Centered(times);
    CenteredTotal(times);
    if d[|times| - 1] <= 0.0 {
      AllBelow(d);
    }
    if d[0] >= 0.0 {
      AllAbove(d);
    }
  }

  /** Samples at different times always determine a slope. */
  lemma SpreadIsPositive(times: seq<real>)
    requires Increasing(times) && |times| >= 2
    ensures Spread(times) > 0.0
  {
    EndsStraddle(times);
    PositiveSquare(Centered(times));
  }

  // ----- the fit does not see a constant

  lemma {:induction false} DotShifted(times: seq<real>, values: seq<real>, k: real)
    requires |times| == |values| && times != []
    ensures Dot(Centered(times), Add(values, Flat(k, |values|))) == Dot(Centered(times), values)
  {
    DotAdd(Centered(times), values, Flat(k, |values|));
    DotFlat(Centered(times), k);
    CenteredTotal(times);
  }

  /** Raising the whole series leaves its slope unchanged. */
  lemma ShiftInvariant(times: seq<real>, values: seq<real>, k: real)
    requires Increasing(times) && |times| == |values| >= 2
    ensures Spread(times) > 0.0
    ensures Slope(times, Add(values, Flat(k, |values|))) == Slope(times, values)
  {
    SpreadIsPositive(times);
    DotShifted(times, values, k);
  }

  // ----- the line of least squared error

  /** How far the values lie above a line. */
  function Errors(times: seq<real>, values: seq<real>, slope: real, intercept: real): (r: seq<real>)
    requires |times| == |values|
    ensures |r| == |times| && forall i :: 0 <= i < |times| ==> r[i] == values[i] - (slope * times[i] + intercept)
  {
    seq(|times|, i requires 0 <= i < |times| => values[i] - (slope * times[i] + intercept))
  }

  function SquaredError(times: seq<real>, values: seq<real>, slope: real, intercept: real): real
    requires |times| == |values|
  {
    var e := Errors(times, values, slope, intercept);
    Dot(e, e)
  }

  function Intercept(times: seq<real>, values: seq<real>): real
    requires |times| == |values| && times != [] && Spread(times) != 0.0
  {
    Mean(values) - Slope(times, values) * Mean(times)
  }

  lemma Regroup(v: real, s: real, t: real, m: real, w: real)
    ensures v - (s * t + (w - s * m)) == v + -w + -s * (t - m)
  {
  }

  /** The fitted line's errors, written about the mean. */
  lemma FitErrors(times: seq<real>, values: seq<real>)
    requires |times| == |values| && times != [] && Spread(times) != 0.0
    ensures Errors(times, values, Slope(times, values), Intercept(times, values))
         == Add(Centered(values), Scale(-Slope(times, values), Centered(times)))
  {
    var s := Slope(times, values);
    var l := Errors(times, values, s, Intercept(times, values));
    var r := Add(Centered(values), Scale(-s, Centered(times)));
    forall i | 0 <= i < |times|
      ensures l[i] == r[i]
    {
      Regroup(values[i], s, times[i], Mean(times), Mean(values));
    }
  }

  lemma {:induction false} TotalScale(k: real, a: seq<real>)
    ensures Total(Scale(k, a)) == k * Total(a)
    decreases |a|
  {
    if a != [] {
      TotalScale(k, a[1..]);
      ScaleTail(k, a);
      Distribute(k, a[0], Total(a[1..]));
    }
  }

  /** The fitted line's errors balance out. */
  lemma FitIsLevel(times: seq<real>, values: seq<real>)
    requires |times| == |values| && times != [] && Spread(times) != 0.0
    ensures Total(Errors(times, values, Slope(times, values), Intercept(times, values))) == 0.0
  {
    var s := Slope(times, values);
    FitErrors(times, values);
    TotalAdd(Centered(values), Scale(-s, Centered(times)));
    TotalScale(-s, Centered(times));
    CenteredTotal(values);
    CenteredTotal(times);
  }

  lemma Quotient(x: real, y: real)
    requires y != 0.0
    ensures -(x / y) * y == -x
  {
  }

  /** The fitted line's errors do not trend. */
  lemma FitHasNoTrend(times: seq<real>, values: seq<real>)
    requires |times| == |values| && times != [] && Spread(times) != 0.0
    ensures Dot(Centered(times), Errors(times, values, Slope(times, values), Intercept(times, values))) == 0.0
  {
    var d, s := Centered(times), Slope(times, values);
    FitErrors(times, values);
    DotAdd(d, Centered(values), Scale(-s, d));
    DotScale(d, -s, d);
    DotShifted(times, values, -Mean(values));
    Quotient(Dot(d, values), Spread(times));
  }

  lemma Difference(v: real, s: real, b: real, slope: real, intercept: real, t: real, m: real)
    ensures v - (slope * t + intercept)
         == v - (s * t + b) + (s - slope) * (t - m) + (b - intercept + (s - slope) * m)
  {
  }

  /** Two lines differ by a slope and by a height at the mean time. */
  lemma OtherErrors(times: seq<real>, values: seq<real>, slope: real, intercept: real, s: real, b: real, a: real, k: real)
    requires |times| == |values| && times != [] && a == s - slope && k == b - intercept + a * Mean(times)
    ensures Errors(times, values, slope, intercept)
         == Add(Add(Errors(times, values, s, b), Scale(a, Centered(times))), Flat(k, |times|))
  {
    var l := Errors(times, values, slope, intercept);
    var r := Add(Add(Errors(times, values, s, b), Scale(a, Centered(times))), Flat(k, |times|));
    forall i | 0 <= i < |times|
      ensures l[i] == r[i]
    {
      Difference(values[i], s, b, slope, intercept, times[i], Mean(times));
    }
  }

  lemma {:induction false} TwoSquares(r: seq<real>, u: seq<real>)
    requires |r| == |u| && Dot(r, u) == 0.0
    ensures Dot(Add(r, u), Add(r, u)) == Dot(r, r) + Dot(u, u)
  {
    var p := Add(r, u);
    DotAdd(p, r, u);
    DotSymmetric(p, r);
    DotSymmetric(p, u);
    DotAdd(r, r, u);
    DotAdd(u, r, u);
    DotSymmetric(u, r);
  }

  /** Mutually orthogonal parts add up in squares. */
  lemma {:induction false} Pythagoras(r: seq<real>, u: seq<real>, w: seq<real>)
    requires |r| == |u| == |w| && Dot(r, u) == 0.0 && Dot(w, r) == 0.0 && Dot(w, u) == 0.0
    ensures var e := Add(Add(r, u), w); Dot(e, e) == Dot(r, r) + Dot(u, u) + Dot(w, w)
  {
    var p := Add(r, u);
    TwoSquares(r, u);
    DotAdd(w, r, u);
    DotSymmetric(p, w);
    TwoSquares(p, w);
  }

  lemma {:induction false} FlatIsOrthogonal(a: seq<real>, k: real)
    requires Total(a) == 0.0
    ensures Dot(Flat(k, |a|), a) == 0.0
  {
    DotFlat(a, k);
    DotSymmetric(Flat(k, |a|), a);
  }

  lemma {:induction false} PartsAreOrthogonal(times: seq<real>, r: seq<real>, a: real, k: real)
    requires |times| == |r| && times != [] && Total(r) == 0.0 && Dot(Centered(times), r) == 0.0
    ensures var u, w := Scale(a, Centered(times)), Flat(k, |times|);
            Dot(r, u) == 0.0 && Dot(w, r) == 0.0 && Dot(w, u) == 0.0
  {
    var d := Centered(times);
    DotSymmetric(r, d);
    DotScale(r, a, d);
    FlatIsOrthogonal(r, k);
    CenteredTotal(times);
    TotalScale(a, d);
    FlatIsOrthogonal(Scale(a, d), k);
  }

  lemma Nonzero(a: real, b: real)
    requires a != 0.0 && b != 0.0
    ensures a * b != 0.0
  {
  }

  /** What another line adds to the squared error of one whose errors are level and without trend. */
  lemma ExtraError(times: seq<real>, values: seq<real>, slope: real, intercept: real, s: real, b: real, a: real, k: real)
    requires |times| == |values| && times != [] && a == s - slope && k == b - intercept + a * Mean(times)
    requires Total(Errors(times, values, s, b)) == 0.0 && Dot(Centered(times), Errors(times, values, s, b)) == 0.0
    ensures var u, w := Scale(a, Centered(times)), Flat(k, |times|);
            SquaredError(times, values, slope, intercept) == SquaredError(times, values, s, b) + Dot(u, u) + Dot(w, w)
  {
    var r := Errors(times, values, s, b);
    PartsAreOrthogonal(times, r, a, k);
    OtherErrors(times, values, slope, intercept, s, b, a, k);
    Pythagoras(r, Scale(a, Centered(times)), Flat(k, |times|));
  }

  lemma TiltedIsPositive(times: seq<real>, a: real)
    requires Increasing(times) && |times| >= 2 && a != 0.0
    ensures Dot(Scale(a, Centered(times)), Scale(a, Centered(times))) > 0.0
  {
    EndsStraddle(times);
    Nonzero(a, Centered(times)[0]);
    PositiveSquare(Scale(a, Centered(times)));
  }

  /** No line fits better, and only this slope fits as well. */
  lemma LeastSquares(times: seq<real>, values: seq<real>, slope: real, intercept: real)
    requires Increasing(times) && |times| == |values| >= 2
    ensures Spread(times) > 0.0
    ensures var s, b := Slope(times, values), Intercept(times, values);
            && SquaredError(times, values, s, b) <= SquaredError(times, values, slope, intercept)
            && (slope != s ==> SquaredError(times, values, s, b) < SquaredError(times, values, slope, intercept))
  {
    SpreadIsPositive(times);
    var s, b := Slope(times, values), Intercept(times, values);
    var a := s - slope;
    var k := b - intercept + a * Mean(times);
    FitIsLevel(times, values);
    FitHasNoTrend(times, values);
    ExtraError(times, values, slope, intercept, s, b, a, k);
    SquareIsNonnegative(Scale(a, Centered(times)));
    SquareIsNonnegative(Flat(k, |times|));
    if a != 0.0 {
      TiltedIsPositive(times, a);
    }
  }

  // ----- the sign of the slope

  predicate Nondecreasing(v: seq<real>) {
    forall i, j :: 0 <= i < j < |v| ==> v[i] <= v[j]
  }

  predicate Nonincreasing(v: seq<real>) {
    forall i, j :: 0 <= i < j < |v| ==> v[i] >= v[j]
  }

  /** Both at most zero or both at least zero. */
  predicate Alike(d: real, v: real) {
    (d <= 0.0 && v <= 0.0) || (d >= 0.0 && v >= 0.0)
  }

  lemma AlikeProduct(d: real, v: real)
    requires Alike(d, v)
    ensures d * v >= 0.0 && (d != 0.0 && v != 0.0 ==> d * v > 0.0)
  {
  }

  lemma {:induction false} AlikeDot(d: seq<real>, v: seq<real>)
    requires |d| == |v| && forall i :: 0 <= i < |d| ==> Alike(d[i], v[i])
    ensures Dot(d, v) >= 0.0
    ensures (exists i :: 0 <= i < |d| && d[i] != 0.0 && v[i] != 0.0) ==> Dot(d, v) > 0.0
    decreases |d|
  {
    if d != [] {
      AlikeDot(d[1..], v[1..]);
      AlikeProduct(d[0], v[0]);
      assert Dot(d, v) == d[0] * v[0] + Dot(d[1..], v[1..]);
      assert forall i :: 1 <= i < |d| ==> d[i] == d[1..][i - 1] && v[i] == v[1..][i - 1];
    }
  }

  /** The first sample after the mean time; everything before it lies at or below the mean. */
  lemma Pivot(times: seq<real>) returns (p: nat)
    requires Increasing(times) && |times| >= 2
    ensures p < |times|
    ensures forall i :: 0 <= i < |times| ==> if i < p then Centered(times)[i] <= 0.0 else Centered(times)[i] > 0.0
  {
    EndsStraddle(times);
    p := |times| - 1;
    while p > 0 && Centered(times)[p - 1] > 0.0
      invariant p < |times|
      invariant forall i :: p <= i < |times| ==> Centered(times)[i] > 0.0
    {
      p := p - 1;
    }
  }

  /** A series that never falls has no negative slope, and a positive one if it rises at all. */
  lemma GrowthShows(times: seq<real>, values: seq<real>)
    requires Increasing(times) && |times| == |values| >= 2 && Nondecreasing(values)
    ensures Spread(times) > 0.0 && Slope(times, values) >= 0.0
    ensures values[0] < values[|values| - 1] ==> Slope(times, values) > 0.0
  {
    SpreadIsPositive(times);
    EndsStraddle(times);
    var n, d := |times|, Centered(times);
    var p := Pivot(times);
    var v := Add(values, Flat(-values[p], n));
    AlikeDot(d, v);
    DotShifted(times, values, -values[p]);
    if values[0] < values[n - 1] {
      assert v[0] != 0.0 || v[n - 1] != 0.0;
    }
    SignOfQuotient(Dot(d, values), Spread(times));
  }

  lemma SignOfQuotient(x: real, y: real)
    requires y > 0.0
    ensures (x >= 0.0 ==> x / y >= 0.0) && (x > 0.0 ==> x / y > 0.0) && (x <= 0.0 ==> x / y <= 0.0)
  {
  }

  /** A series that never rises has no positive slope. */
  lemma DeclineShows(times: seq<real>, values: seq<real>)
    requires Increasing(times) && |times| == |values| >= 2 && Nonincreasing(values)
    ensures Spread(times) > 0.0 && Slope(times, values) <= 0.0
  {
    var v := Scale(-1.0, values);
    GrowthShows(times, v);
    DotScale(Centered(times), -1.0, values);
    if Dot(Centered(times), v) < 0.0 {
      NegativeQuotient(Dot(Centered(times), v), Spread(times));
    }
    SignOfQuotient(Dot(Centered(times), values), Spread(times));
  }

  lemma NegativeQuotient(x: real, y: real)
    requires x < 0.0 < y
    ensures x / y < 0.0
  {
  }
}
