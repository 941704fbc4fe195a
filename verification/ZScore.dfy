/**
  The window z-score detector (grafana/anomaly-detector/detector.py), over the reals.

  The standard deviation is a parameter `sd`: the non-negative root of the population
  variance, which is what math.sqrt approximates.
*/
module ZScore {
  import opened Prelude

  function Sum(xs: seq<real>): real {
    if xs == [] then 0.0 else xs[0] + Sum(xs[1..])
  }

  /** The length, counted in the reals: products with |xs| itself send the solver off to split on integers. */
  function Count(xs: seq<real>): (n: real)
    ensures n >= 0.0 && (xs != [] ==> n >= 1.0)
  {
    if xs == [] then 0.0 else 1.0 + Count(xs[1..])
  }

  lemma {:induction false} CountIsLength(xs: seq<real>)
    ensures Count(xs) == |xs| as real
  {
    if xs != [] { CountIsLength(xs[1..]); }
  }

  function Shift(xs: seq<real>, c: real): seq<real> {
    seq(|xs|, i requires 0 <= i < |xs| => xs[i] - c)
  }

  function Scale(xs: seq<real>, d: real): seq<real>
    requires d != 0.0
  {
    seq(|xs|, i requires 0 <= i < |xs| => xs[i] / d)
  }

  function Squares(xs: seq<real>): seq<real> {
    seq(|xs|, i requires 0 <= i < |xs| => xs[i] * xs[i])
  }

  function SumSq(xs: seq<real>): real {
    Sum(Squares(xs))
  }

  function Mean(xs: seq<real>): real
    requires xs != []
  {
    Sum(xs) / Count(xs)
  }

  /** Population variance. */
  function Variance(xs: seq<real>): real
    requires xs != []
  {
    SumSq(Shift(xs, Mean(xs))) / Count(xs)
  }

  predicate IsDeviation(sd: real, xs: seq<real>) {
    xs != [] ==> sd >= 0.0 && sd * sd == Variance(xs)
  }

  function ZScores(values: seq<real>, sd: real): seq<real>
    requires IsDeviation(sd, values)
  {
    if |values| < 2 || sd == 0.0 then []
    else Scale(Shift(values, Mean(values)), sd)
  }

  function Abs(x: real): real {
    if x < 0.0 then -x else x
  }

  datatype Severity = Warn | Crit
  datatype Direction = High | Low

  /** The verdict before rounding; an empty window that passes the length check divides by zero. */
  datatype Verdict =
    | NoAnomaly
    | Anomaly(zscore: real, value: real, mean: real, stddev: real, severity: Severity, direction: Direction, n: nat)
    | ZeroDivision

  function LatestScore(values: seq<real>, sd: real): real
    requires values != [] && sd != 0.0
  {
    (values[|values| - 1] - Mean(values)) / sd
  }

  function ScoreLatest(values: seq<real>, sd: real, zWarn: real, zCrit: real, minPoints: int): Verdict
    requires IsDeviation(sd, values)
  {
    if |values| < minPoints then NoAnomaly
    else if values == [] then ZeroDivision
    else if sd == 0.0 then NoAnomaly
    else
      var z := LatestScore(values, sd);
      if Abs(z) < zWarn then NoAnomaly
      else
        var severity := if Abs(z) >= zCrit then Crit else Warn;
        Anomaly(z, values[|values| - 1], Mean(values), sd, severity, if z > 0.0 then High else Low, |values|)
  }

  // ---- sums ----

  lemma {:induction false} SumOfConcat(a: seq<real>, b: seq<real>)
    ensures Sum(a + b) == Sum(a) + Sum(b)
  {
    if a == [] {
      assert a + b == b;
    } else {
      assert (a + b)[1..] == a[1..] + b;
      SumOfConcat(a[1..], b);
    }
  }

  // Products are kept out of the inductions on purpose: each sequence of products is introduced by a lemma
  // that hands over its sum and one linear relation between entries, and nothing else.

  lemma {:induction false} SumOfTimes(k: real, a: seq<real>, c: seq<real>)
    requires IsMultiple(k, a, c)
    ensures IsProduct(Sum(c), k, Sum(a))
  {
    if c != [] {
      assert IsProduct(c[0], k, a[0]);
      SumOfTimes(k, a[1..], c[1..]);
      Distribute(k, a[0], Sum(a[1..]), Sum(a));
    }
  }

  predicate IsMultiple(k: real, a: seq<real>, c: seq<real>) {
    |a| == |c| && forall i :: 0 <= i < |c| ==> IsProduct(c[i], k, a[i])
  }

  lemma Distribute(k: real, x: real, s: real, sum: real)
    requires sum == x + s
    ensures k * sum == k * x + k * s
  {}

  lemma SameCount(xs: seq<real>, ys: seq<real>)
    requires |xs| == |ys|
    ensures Count(xs) == Count(ys)
  {
    CountIsLength(xs);
    CountIsLength(ys);
  }

  predicate IsProduct(p: real, a: real, b: real) {
    p == a * b
  }

  lemma {:induction false} SumOfEqual(xs: seq<real>, a: real)
    requires forall i :: 0 <= i < |xs| ==> xs[i] == a
    ensures IsProduct(Sum(xs), Count(xs), a)
  {
    if xs != [] {
      SumOfEqual(xs[1..], a);
      OneMore(Sum(xs[1..]), Sum(xs), Count(xs[1..]), Count(xs), a);
    }
  }

  lemma OneMore(p: real, sum: real, m: real, n: real, a: real)
    requires IsProduct(p, m, a) && n == 1.0 + m && sum == a + p
    ensures IsProduct(sum, n, a)
  {}

  lemma {:induction false} SumOfPlus(a: seq<real>, b: seq<real>, c: seq<real>)
    requires |a| == |b| == |c| && forall i :: 0 <= i < |c| ==> c[i] == a[i] + b[i]
    ensures Sum(c) == Sum(a) + Sum(b)
  {
    if c != [] {
      SumOfPlus(a[1..], b[1..], c[1..]);
    }
  }

  /** The constant window. */
  lemma Level(xs: seq<real>, c: real) returns (r: seq<real>)
    ensures |r| == |xs| && forall i :: 0 <= i < |xs| ==> r[i] == c
    ensures IsProduct(Sum(r), Count(xs), c)
  {
    r := seq(|xs|, i => c);
    SumOfEqual(r, c);
    SameCount(r, xs);
  }

  lemma SumOfShift(xs: seq<real>, c: real)
    ensures Sum(Shift(xs, c)) == Sum(xs) - Count(xs) * c
  {
    var level := Level(xs, c);
    SumOfPlus(Shift(xs, c), level, xs);
  }

  lemma SumOfScale(xs: seq<real>, d: real)
    requires d != 0.0
    ensures d * Sum(Scale(xs, d)) == Sum(xs)
  {
    forall i | 0 <= i < |xs| ensures IsProduct(xs[i], d, Scale(xs, d)[i]) {}
    SumOfTimes(d, Scale(xs, d), xs);
  }

  lemma SumSqOfScale(xs: seq<real>, d: real, e: real)
    requires d != 0.0 && e == d * d
    ensures e * SumSq(Scale(xs, d)) == SumSq(xs)
  {
    ScaledSquares(xs, d, e);
    SumOfTimes(e, Squares(Scale(xs, d)), Squares(xs));
  }

  lemma ScaledSquares(xs: seq<real>, d: real, e: real)
    requires d != 0.0 && e == d * d
    ensures IsMultiple(e, Squares(Scale(xs, d)), Squares(xs))
  {
    var a, c := Squares(Scale(xs, d)), Squares(xs);
    forall i | 0 <= i < |xs| ensures IsProduct(c[i], e, a[i]) {
      SquareOfQuotient(xs[i], d, e, xs[i] / d);
    }
  }

  lemma SquareOfQuotient(x: real, d: real, e: real, z: real)
    requires d != 0.0 && e == d * d && z == x / d
    ensures x * x == e * (z * z)
  {
    assert x == d * z;
    assert (d * z) * (d * z) == (d * d) * (z * z);
  }

  lemma SquaresOfLonger(xs: seq<real>, x: real, longer: seq<real>)
    requires longer == xs + [x]
    ensures SumSq(longer) == SumSq(xs) + x * x
  {
    var y := x * x;
    forall i | 0 <= i < |longer| ensures Squares(longer)[i] == (Squares(xs) + [y])[i] {
      if i < |xs| { assert longer[i] == xs[i]; }
    }
    assert Squares(longer) == Squares(xs) + [y];
    SumOfConcat(Squares(xs), [y]);
    SumOfOne(y);
  }

  lemma SumOfOne(y: real)
    ensures Sum([y]) == y
  {
    assert [y][1..] == [];
  }

  lemma Quotients(x: real, s: real, q: real, d: real)
    requires d != 0.0
    ensures x / d + s / d == (x + s) / d
    ensures (x / d) * (x / d) == x * x / (d * d)
    ensures x * x / (d * d) + q / (d * d) == (x * x + q) / (d * d)
  {
    var e := Squared(d);
    var u := x / d;
    assert u * d == x;
    assert (u * u) * e == (u * d) * (u * d) == x * x;
    Quotient(u * u, x * x, e);
    Quotient(x * x / e + q / e, x * x + q, e);
  }

  lemma Quotient(p: real, q: real, d: real)
    requires d != 0.0
    ensures p * d == q <==> p == q / d
    ensures (q * d) / d == q
  {
    assert (q / d) * d == q;
  }

  lemma ProductPositive(a: real, b: real, c: real)
    requires a > 0.0 && b > 0.0 && c == a * b
    ensures c > 0.0
  {}

  lemma SquarePositive(d: real, e: real)
    requires d != 0.0 && e == d * d
    ensures e > 0.0
  {
    if d > 0.0 {
      ProductPositive(d, d, e);
    } else {
      assert (-d) * (-d) == d * d;
      ProductPositive(-d, -d, e);
    }
  }

  /** The square of a non-zero number, as a number known to be positive. */
  lemma Squared(d: real) returns (e: real)
    requires d != 0.0
    ensures e == d * d
    ensures e > 0.0
  {
    e := d * d;
    SquarePositive(d, e);
  }

  lemma SquareNonNegative(x: real, y: real)
    requires y == x * x
    ensures y >= 0.0
  {
    if x == 0.0 {
    } else {
      SquarePositive(x, y);
    }
  }

  /** Cauchy-Schwarz against the constant vector: (sum of xs)^2 <= n * (sum of squares). */
  lemma {:induction false} SquareOfSum(xs: seq<real>)
    ensures Cauchy(Count(xs), Sum(xs), SumSq(xs))
  {
    if xs != [] {
      var tail := xs[1..];
      SquareOfSum(tail);
      SumSqOfTail(xs);
      OneMoreSquare(xs[0], Count(tail), Count(xs), Sum(tail), Sum(xs), SumSq(tail), SumSq(xs));
    }
  }

  lemma SumSqOfTail(xs: seq<real>)
    requires xs != []
    ensures SumSq(xs) == xs[0] * xs[0] + SumSq(xs[1..])
  {
    var rest := Squares(xs)[1..];
    assert |rest| == |Squares(xs[1..])|;
    forall i | 0 <= i < |rest| ensures rest[i] == Squares(xs[1..])[i] {
      assert xs[1..][i] == xs[i + 1];
    }
    assert rest == Squares(xs[1..]);
  }

  lemma OneMoreSquare(x: real, m: real, n: real, s: real, sum: real, q: real, sumSq: real)
    requires m >= 0.0 && n == m + 1.0 && sum == x + s && sumSq == x * x + q && (m == 0.0 ==> q >= 0.0)
    requires Cauchy(m, s, q)
    ensures Cauchy(n, sum, sumSq)
  {
    var y, r := x * x, x * s;
    assert 2.0 * r <= m * y + q by {
      if m == 0.0 {
        assert s * s <= 0.0;
        NoRoot(s);
      } else {
        var w := m * y + q - 2.0 * r;
        var root := m * x - s;
        SquareNonNegative(root, root * root);
        assert root * root == m * (m * y) - 2.0 * (m * r) + s * s;
        assert m * w == m * (m * y) + m * q - 2.0 * (m * r);
        CancelLe(m, 0.0, w);
      }
    }
    SquareOfPlus(x, s, sum);
    Distribute(n, y, q, sumSq);
  }

  lemma SquareOfPlus(x: real, s: real, sum: real)
    requires sum == x + s
    ensures sum * sum == x * x + 2.0 * (x * s) + s * s
  {}

  lemma NoRoot(s: real)
    requires s * s <= 0.0
    ensures s == 0.0
  {
    if s != 0.0 { SquarePositive(s, s * s); }
  }

  // ---- the z-scores ----

  /** Deviations from the mean sum to zero, and their squares to n times the variance. */
  lemma Deviations(xs: seq<real>, sd: real)
    requires xs != [] && IsDeviation(sd, xs)
    ensures Sum(Shift(xs, Mean(xs))) == 0.0
    ensures SumSq(Shift(xs, Mean(xs))) == Count(xs) * (sd * sd)
  {
    var c := Mean(xs);
    SumOfShift(xs, c);
    Quotient(c, Sum(xs), Count(xs));
    Quotient(sd * sd, SumSq(Shift(xs, c)), Count(xs));
  }

  /** The scores sum to zero, their squares sum to n, and there is one per value. */
  lemma ScoresAreNormalised(values: seq<real>, sd: real)
    requires IsDeviation(sd, values) && ZScores(values, sd) != []
    ensures var z := ZScores(values, sd);
            |z| == |values| && Sum(z) == 0.0 && SumSq(z) == Count(values)
  {
    var d := Shift(values, Mean(values));
    Deviations(values, sd);
    var v := Squared(sd);
    SumOfScale(d, sd);
    SumSqOfScale(d, sd, v);
    Quotient(Sum(ZScores(values, sd)), 0.0, sd);
    Quotient(SumSq(ZScores(values, sd)), Count(values) * v, v);
    Quotient(0.0, Count(values), v);
  }

  /** The scored point is the last z-score, and its verdict is read off that score alone. */
  lemma ScoresTheLastPoint(values: seq<real>, sd: real, zWarn: real, zCrit: real, minPoints: int)
    requires IsDeviation(sd, values) && ScoreLatest(values, sd, zWarn, zCrit, minPoints).Anomaly?
    ensures var v, z := ScoreLatest(values, sd, zWarn, zCrit, minPoints), ZScores(values, sd);
            && |z| == |values| >= 2 && v.zscore == z[|z| - 1] && v.value == values[|values| - 1]
            && Abs(v.zscore) >= zWarn && (v.severity.Crit? <==> Abs(v.zscore) >= zCrit)
            && (v.direction.High? <==> v.zscore > 0.0)
  {
    if |values| == 1 {
      assert values[1..] == [];
      assert Sum(values) == values[0] && Count(values) == 1.0;
      assert Shift(values, Mean(values)) == [0.0];
      assert Squares([0.0]) == [0.0];
      RootOfZero(sd);
      assert false;
    }
  }

  lemma MeanIs(values: seq<real>)
    requires values != []
    ensures IsProduct(Sum(values), Count(values), Mean(values))
  {
    Quotient(Mean(values), Sum(values), Count(values));
  }

  lemma ScoreIs(values: seq<real>, sd: real)
    requires values != [] && sd != 0.0
    ensures IsProduct(values[|values| - 1] - Mean(values), LatestScore(values, sd), sd)
  {
    Quotient(LatestScore(values, sd), values[|values| - 1] - Mean(values), sd);
  }

  /**
    The numbers reported: the mean times n is the sum, the deviation is the one scored
    with, and the score times it is how far the last value lies above the mean.
  */
  lemma ReportsTheWindow(values: seq<real>, sd: real, zWarn: real, zCrit: real, minPoints: int)
    requires IsDeviation(sd, values) && ScoreLatest(values, sd, zWarn, zCrit, minPoints).Anomaly?
    ensures var v := ScoreLatest(values, sd, zWarn, zCrit, minPoints);
            && v.n == |values| && v.stddev == sd && IsProduct(Sum(values), Count(values), v.mean)
            && v.value == values[|values| - 1] && IsProduct(v.value - v.mean, v.zscore, sd)
  {
    MeanIs(values);
    ScoreIs(values, sd);
  }

  /** When there is a verdict at all: an empty window is the one that divides by zero. */
  lemma VerdictExactly(values: seq<real>, sd: real, zWarn: real, zCrit: real, minPoints: int)
    requires IsDeviation(sd, values)
    ensures var v := ScoreLatest(values, sd, zWarn, zCrit, minPoints);
            && (v.ZeroDivision? <==> values == [] && minPoints <= 0)
            && (v.Anomaly? <==>
                  && values != [] && minPoints <= |values| && sd > 0.0
                  && (LatestScore(values, sd) >= zWarn || LatestScore(values, sd) <= -zWarn))
  {}

  lemma RootOfZero(sd: real)
    requires sd * sd == 0.0
    ensures sd == 0.0
  {
    if sd != 0.0 {
      var v := Squared(sd);
    }
  }

  // Each quadratic relation below is a named predicate, so that a caller passes it on as one fact.

  /** sum^2 <= n * sumSq. */
  predicate Cauchy(n: real, sum: real, sumSq: real) {
    sum * sum <= n * sumSq
  }

  /** The last deviation x and the squares q of the others make up the whole, n * sd^2. */
  predicate Shares(x: real, q: real, n: real, sd: real) {
    q + x * x == n * (sd * sd)
  }

  predicate SquareIs(x: real, m: real, sd: real) {
    x * x == m * (sd * sd)
  }

  /** The score z is at most sqrt(n - 1) in absolute value. */
  predicate WithinBound(z: real, n: real) {
    z * z <= n - 1.0
  }

  predicate OnBound(z: real, n: real) {
    z * z == n - 1.0
  }

  /** A window of n points has room for a score of t. */
  predicate Reaches(n: real, t: real) {
    n - 1.0 >= t * t
  }

  /** The last deviation against the others: it undoes their sum, and shares the total square with them. */
  lemma LastAgainstOthers(values: seq<real>, sd: real) returns (others: seq<real>, last: real)
    requires values != [] && IsDeviation(sd, values)
    ensures others == Shift(values, Mean(values))[..|values| - 1]
    ensures last == values[|values| - 1] - Mean(values)
    ensures Sum(others) == -last && Count(values) == Count(others) + 1.0
    ensures Shares(last, SumSq(others), Count(values), sd)
  {
    var d := Shift(values, Mean(values));
    others, last := d[..|d| - 1], d[|d| - 1];
    Deviations(values, sd);
    assert d == others + [last];
    SumOfConcat(others, [last]);
    SquaresOfLonger(others, last, d);
    CountIsLength(values);
    CountIsLength(others);
  }

  /** Samuelson's inequality: no point is further from the mean than sqrt(n - 1) deviations. */
  lemma Samuelson(values: seq<real>, sd: real)
    requires values != [] && IsDeviation(sd, values) && sd > 0.0
    ensures WithinBound(LatestScore(values, sd), Count(values))
  {
    var others, last := LastAgainstOthers(values, sd);
    SquareOfSum(others);
    Bound(Count(values), Count(others), last, Sum(others), sd, SumSq(others), LatestScore(values, sd));
  }

  lemma Bound(n: real, m: real, x: real, s: real, sd: real, q: real, z: real)
    requires m >= 0.0 && n == m + 1.0 && sd > 0.0 && z == x / sd && s == -x
    requires Shares(x, q, n, sd) && Cauchy(m, s, q)
    ensures WithinBound(z, n)
  {
    var v := Squared(sd);
    var y := x * x;
    assert s * s == y;
    assert m * q == m * (n * v) - m * y by { assert q == n * v - y; }
    assert y + m * y == n * y;
    assert n * y <= n * (m * v) by { assert m * (n * v) == n * (m * v); }
    CancelLe(n, y, m * v);
    Quotients(x, 0.0, 0.0, sd);
    Quotient(0.0, m, v);
    DivideLe(y, m * v, v);
  }

  lemma CancelLe(n: real, a: real, b: real)
    requires n > 0.0 && n * a <= n * b
    ensures a <= b
  {
    var d := a - b;
    assert n * d == n * a - n * b;
    if d > 0.0 {
      ProductPositive(n, d, n * a - n * b);
    }
  }

  lemma DivideLe(a: real, b: real, v: real)
    requires v > 0.0 && a <= b
    ensures a / v <= b / v
  {}

  /** With equality when all the other points are equal. */
  lemma SamuelsonIsSharp(values: seq<real>, sd: real, other: real)
    requires |values| >= 2 && IsDeviation(sd, values) && sd > 0.0
    requires forall i :: 0 <= i < |values| - 1 ==> values[i] == other
    ensures OnBound(LatestScore(values, sd), Count(values))
  {
    var z := SharpLatest(values, sd, other);
    assert z == LatestScore(values, sd);
  }

  lemma SharpLatest(values: seq<real>, sd: real, other: real) returns (z: real)
    requires |values| >= 2 && IsDeviation(sd, values) && sd > 0.0
    requires forall i :: 0 <= i < |values| - 1 ==> values[i] == other
    ensures z == (values[|values| - 1] - Mean(values)) / sd
    ensures OnBound(z, Count(values))
  {
    var last, m := LastAgainstEqual(values, sd, other);
    z := last / sd;
    SharpScore(last, m, Count(values), sd, z);
  }

  /** The last deviation squared is (n - 1) times the variance. */
  lemma LastAgainstEqual(values: seq<real>, sd: real, other: real) returns (last: real, m: real)
    requires |values| >= 2 && IsDeviation(sd, values) && sd > 0.0
    requires forall i :: 0 <= i < |values| - 1 ==> values[i] == other
    ensures last == values[|values| - 1] - Mean(values)
    ensures Count(values) == m + 1.0 && m >= 1.0 && SquareIs(last, m, sd)
  {
    var others;
    others, last := LastAgainstOthers(values, sd);
    m := Count(others);
    var a, aa := SumsOfEqual(others, other - Mean(values));
    SharpShare(Count(values), m, a, aa, last, Sum(others), SumSq(others), sd);
  }

  lemma SumsOfEqual(xs: seq<real>, a: real) returns (b: real, bb: real)
    requires xs != [] && forall i :: 0 <= i < |xs| ==> xs[i] == a
    ensures IsProduct(Sum(xs), Count(xs), b) && IsProduct(bb, b, b) && IsProduct(SumSq(xs), Count(xs), bb)
  {
    b, bb := a, a * a;
    SumOfEqual(xs, b);
    SumOfEqual(Squares(xs), bb);
    SameCount(Squares(xs), xs);
  }

  lemma SharpShare(n: real, m: real, a: real, aa: real, x: real, s: real, q: real, sd: real)
    requires m >= 1.0 && n == m + 1.0 && s == -x
    requires IsProduct(s, m, a) && IsProduct(aa, a, a) && IsProduct(q, m, aa)
    requires Shares(x, q, n, sd)
    ensures SquareIs(x, m, sd)
  {
    var v := sd * sd;
    assert x * x == m * q by {
      assert x * x == (m * a) * (m * a);
      assert (m * a) * (m * a) == m * (m * (a * a));
    }
    assert n * q == n * v by { assert n * q == q + m * q; }
    Quotient(q, n * v, n);
    Quotient(v, n * v, n);
  }

  lemma SharpScore(x: real, m: real, n: real, sd: real, z: real)
    requires n == m + 1.0 && sd > 0.0 && z == x / sd && SquareIs(x, m, sd)
    ensures OnBound(z, n)
  {
    var v := Squared(sd);
    Quotients(x, 0.0, 0.0, sd);
    assert z * z == x * x / v;
    Quotient(m, x * x, v);
  }

  // ---- what the thresholds can reach ----

  /** A window of n points never alarms when n - 1 < zWarn^2, and is never critical when n - 1 < zCrit^2. */
  lemma SmallWindowsStaySilent(values: seq<real>, sd: real, zWarn: real, zCrit: real, minPoints: int)
    requires values != [] && IsDeviation(sd, values) && zWarn >= 0.0 && zCrit >= 0.0
    ensures var v, n := ScoreLatest(values, sd, zWarn, zCrit, minPoints), |values| as real;
            && (v.Anomaly? ==> Reaches(n, zWarn))
            && (v.Anomaly? && v.severity.Crit? ==> Reaches(n, zCrit))
  {
    if sd > 0.0 {
      Samuelson(values, sd);
      CountIsLength(values);
      BoundReaches(LatestScore(values, sd), Count(values), zWarn);
      BoundReaches(LatestScore(values, sd), Count(values), zCrit);
    }
  }

  lemma BoundReaches(z: real, n: real, t: real)
    requires t >= 0.0 && WithinBound(z, n)
    ensures Abs(z) >= t ==> Reaches(n, t)
  {
    if Abs(z) >= t {
      var a := Abs(z);
      assert a * a == z * z;
      assert a * a >= a * t >= t * t;
    }
  }

  /** The bound is the whole story: one point away from n - 1 equal ones alarms exactly if n - 1 >= zWarn^2. */
  lemma LoneOutlierAlarms(values: seq<real>, sd: real, zWarn: real, zCrit: real, minPoints: int, other: real)
    requires 2 <= |values| && minPoints <= |values| && IsDeviation(sd, values) && sd > 0.0
    requires zWarn >= 0.0
    requires forall i :: 0 <= i < |values| - 1 ==> values[i] == other
    ensures ScoreLatest(values, sd, zWarn, zCrit, minPoints).Anomaly? <==> Reaches(|values| as real, zWarn)
  {
    SamuelsonIsSharp(values, sd, other);
    CountIsLength(values);
    SharpReaches(LatestScore(values, sd), Count(values), zWarn);
  }

  lemma SharpReaches(z: real, n: real, t: real)
    requires t >= 0.0 && OnBound(z, n)
    ensures Abs(z) >= t <==> Reaches(n, t)
  {
    BoundReaches(z, n, t);
    if Abs(z) < t {
      SquaresGrow(Abs(z), t, z * z, t * t);
    }
  }

  lemma SquaresGrow(a: real, t: real, aa: real, tt: real)
    requires 0.0 <= a < t && aa == a * a && tt == t * t
    ensures aa < tt
  {
    assert (t - a) * (t + a) == tt - aa;
    ProductPositive(t - a, t + a, tt - aa);
  }
}
