/** What the variances and weights of the allocator mean: the variance of a cluster is that of its equally
    weighted average return, and risk parity leaves only one choice of weights. */
module ClusterRisk {
  import opened Prelude
  import opened HrpAllocator

  /** Returns by day and asset. */
  type Returns = (nat, nat) -> real

  function Square(x: real): real {
    x * x
  }

  function DayTotal(r: Returns, day: nat, assets: seq<nat>): real {
    if assets == [] then 0.0 else r(day, assets[0]) + DayTotal(r, day, assets[1..])
  }

  /** The return of the equally weighted cluster on one day. */
  function Average(r: Returns, day: nat, cluster: seq<nat>): real
    requires cluster != []
  {
    DayTotal(r, day, cluster) / |cluster| as real
  }

  /** The sum over the days of the products of two assets' returns. */
  function Products(r: Returns, days: nat, i: nat, j: nat): real {
    if days == 0 then 0.0 else Products(r, days - 1, i, j) + r(days - 1, i) * r(days - 1, j)
  }

  ghost predicate IsProducts(cov: Matrix, r: Returns, days: nat, c: real) {
    forall i, j :: cov(i, j) == c * Products(r, days, i, j)
  }

  /** The sum over the days of the squared distance of the cluster's average return from m. */
  function Spread(r: Returns, days: nat, cluster: seq<nat>, m: real): real
    requires cluster != []
  {
    if days == 0 then 0.0 else Spread(r, days - 1, cluster, m) + Square(Average(r, days - 1, cluster) - m)
  }

  // ----- the quadratic form of one day

  /** The products of one day's returns, times c. */
  function DayMatrix(r: Returns, day: nat, c: real): Matrix {
    (i: nat, j: nat) => c * (r(day, i) * r(day, j))
  }

  lemma RowAlgebra(c: real, x: real, y: real, rest: real, w: real)
    ensures c * (x * y) * w + (c * x) * (w * rest) == (c * x) * (w * (y + rest))
  {
  }

  lemma {:induction false} DayRow(r: Returns, day: nat, c: real, i: nat, cols: seq<nat>, w: real)
    ensures RowDot(DayMatrix(r, day, c), i, cols, w) == Times(Times(c, r(day, i)), Times(w, DayTotal(r, day, cols)))
  {
    if cols != [] {
      DayRow(r, day, c, i, cols[1..], w);
      RowAlgebra(c, r(day, i), r(day, cols[0]), DayTotal(r, day, cols[1..]), w);
    }
  }

  /** What one day adds to a quadratic form, from the totals of the rows and of the columns. */
  function DayPart(c: real, w: real, x: real, y: real): real {
    c * ((w * x) * (w * y))
  }

  lemma DayPartAlgebra(c: real, w: real, x: real, rest: real, y: real)
    ensures Times(w, Times(Times(c, x), Times(w, y))) + DayPart(c, w, rest, y) == DayPart(c, w, x + rest, y)
    ensures DayPart(c, w, 0.0, y) == 0.0
  {
  }

  lemma FormStep(cov: Matrix, rows: seq<nat>, cols: seq<nat>, w: real)
    requires rows != []
    ensures QuadraticForm(cov, rows, cols, w)
         == Times(w, RowDot(cov, rows[0], cols, w)) + QuadraticForm(cov, rows[1..], cols, w)
  {
    hide RowDot;
  }

  lemma {:induction false} DayForm(r: Returns, day: nat, c: real, rows: seq<nat>, cols: seq<nat>, w: real)
    ensures QuadraticForm(DayMatrix(r, day, c), rows, cols, w)
         == DayPart(c, w, DayTotal(r, day, rows), DayTotal(r, day, cols))
  {
    hide RowDot, DayMatrix, DayPart, Times;
    if rows == [] {
      DayPartAlgebra(c, w, 0.0, 0.0, DayTotal(r, day, cols));
    } else {
      hide QuadraticForm;
      FormStep(DayMatrix(r, day, c), rows, cols, w);
      DayRow(r, day, c, rows[0], cols, w);
      DayForm(r, day, c, rows[1..], cols, w);
      DayPartAlgebra(c, w, r(day, rows[0]), DayTotal(r, day, rows[1..]), DayTotal(r, day, cols));
    }
  }

  ghost predicate IsSum(a: Matrix, b: Matrix, both: Matrix) {
    forall k, l :: both(k, l) == a(k, l) + b(k, l)
  }

  lemma {:induction false} RowAdds(a: Matrix, b: Matrix, both: Matrix, i: nat, cols: seq<nat>, w: real)
    requires IsSum(a, b, both)
    ensures RowDot(both, i, cols, w) == RowDot(a, i, cols, w) + RowDot(b, i, cols, w)
  {
    if cols != [] {
      RowAdds(a, b, both, i, cols[1..], w);
      TimesAdds(w, a(i, cols[0]), b(i, cols[0]));
    }
  }

  lemma {:induction false} FormAdds(a: Matrix, b: Matrix, both: Matrix, rows: seq<nat>, cols: seq<nat>, w: real)
    requires IsSum(a, b, both)
    ensures QuadraticForm(both, rows, cols, w) == QuadraticForm(a, rows, cols, w) + QuadraticForm(b, rows, cols, w)
  {
    if rows != [] {
      hide RowDot, IsSum, QuadraticForm, Times;
      FormStep(a, rows, cols, w);
      FormStep(b, rows, cols, w);
      FormStep(both, rows, cols, w);
      RowAdds(a, b, both, rows[0], cols, w);
      FormAdds(a, b, both, rows[1..], cols, w);
      TimesAdds(w, RowDot(a, rows[0], cols, w), RowDot(b, rows[0], cols, w));
    }
  }

  lemma {:induction false} NoRow(cov: Matrix, i: nat, cols: seq<nat>, w: real)
    requires forall k, l :: cov(k, l) == 0.0
    ensures RowDot(cov, i, cols, w) == 0.0
  {
    if cols != [] {
      NoRow(cov, i, cols[1..], w);
    }
  }

  lemma {:induction false} NoForm(cov: Matrix, rows: seq<nat>, cols: seq<nat>, w: real)
    requires forall k, l :: cov(k, l) == 0.0
    ensures QuadraticForm(cov, rows, cols, w) == 0.0
  {
    if rows != [] {
      NoRow(cov, rows[0], cols, w);
      NoForm(cov, rows[1..], cols, w);
    }
  }

  lemma AverageIs(r: Returns, cluster: seq<nat>, day: nat, c: real)
    requires cluster != []
    ensures DayPart(c, 1.0 / |cluster| as real, DayTotal(r, day, cluster), DayTotal(r, day, cluster))
         == Times(c, Square(Average(r, day, cluster) - 0.0))
  {
    var n, x := |cluster| as real, DayTotal(r, day, cluster);
    assert ((1.0 / n) * x) * n == x;
    QuotientIs(x, n, (1.0 / n) * x);
    assert (1.0 / n) * x == Average(r, day, cluster);
  }

  lemma LastDay(r: Returns, days: nat, c: real, cov: Matrix) returns (before: Matrix)
    requires days > 0 && IsProducts(cov, r, days, c)
    ensures IsProducts(before, r, days - 1, c) && IsSum(before, DayMatrix(r, days - 1, c), cov)
  {
    before := (i: nat, j: nat) => c * Products(r, days - 1, i, j);
    forall i, j
      ensures cov(i, j) == c * Products(r, days - 1, i, j) + DayMatrix(r, days - 1, c)(i, j)
    {
      TimesAdds(c, Products(r, days - 1, i, j), r(days - 1, i) * r(days - 1, j));
    }
  }

  lemma NoDays(cov: Matrix, r: Returns, c: real)
    requires IsProducts(cov, r, 0, c)
    ensures forall k, l :: cov(k, l) == 0.0
  {
    TimesZero(c);
    assert forall k, l :: Products(r, 0, k, l) == 0.0;
  }

  lemma {:induction false} FormIsMeanSquare(cov: Matrix, r: Returns, days: nat, c: real, cluster: seq<nat>)
    requires cluster != [] && IsProducts(cov, r, days, c)
    ensures QuadraticForm(cov, cluster, cluster, 1.0 / |cluster| as real) == Times(c, Spread(r, days, cluster, 0.0))
  {
    var w := 1.0 / |cluster| as real;
    hide IsProducts, IsSum, QuadraticForm, DayMatrix, Average, DayTotal, DayPart, Square, Times;
    if days == 0 {
      NoDays(cov, r, c);
      NoForm(cov, cluster, cluster, w);
      TimesZero(c);
    } else {
      var before := LastDay(r, days, c, cov);
      FormIsMeanSquare(before, r, days - 1, c, cluster);
      FormAdds(before, DayMatrix(r, days - 1, c), cov, cluster, cluster, w);
      DayForm(r, days - 1, c, cluster, cluster, w);
      AverageIs(r, cluster, days - 1, c);
      TimesAdds(c, Spread(r, days - 1, cluster, 0.0), Square(Average(r, days - 1, cluster) - 0.0));
    }
  }

  /** For a covariance made of products of return series, up to a factor, the variance of a cluster is, up
      to the same factor, the sum over the days of the squares of its equally weighted average return. */
  lemma VarianceIsMeanSquare(cov: Matrix, r: Returns, days: nat, c: real, cluster: seq<nat>)
    requires cluster != [] && IsProducts(cov, r, days, c)
    ensures ClusterVariance(cov, cluster) == c * Spread(r, days, cluster, 0.0)
  {
    hide QuadraticForm, Spread, IsProducts;
    FormIsMeanSquare(cov, r, days, c, cluster);
  }

  // ----- the sample covariance

  function ReturnTotal(r: Returns, days: nat, i: nat): real {
    if days == 0 then 0.0 else ReturnTotal(r, days - 1, i) + r(days - 1, i)
  }

  function MeanReturn(r: Returns, days: nat, i: nat): real
    requires days > 0
  {
    ReturnTotal(r, days, i) / days as real
  }

  function AverageTotal(r: Returns, days: nat, cluster: seq<nat>): real
    requires cluster != []
  {
    if days == 0 then 0.0 else AverageTotal(r, days - 1, cluster) + Average(r, days - 1, cluster)
  }

  /** The mean over the days of the cluster's average return. */
  function MeanAverage(r: Returns, days: nat, cluster: seq<nat>): real
    requires cluster != [] && days > 0
  {
    AverageTotal(r, days, cluster) / days as real
  }

  function Centred(r: Returns, days: nat): Returns
    requires days > 0
  {
    (day: nat, i: nat) => r(day, i) - MeanReturn(r, days, i)
  }

  /** The covariance of the returns, with the divisor for a sample. */
  ghost predicate IsSampleCovariance(cov: Matrix, r: Returns, days: nat) {
    days >= 2 && IsProducts(cov, Centred(r, days), days, 1.0 / (days - 1) as real)
  }

  /** The sum of the assets' totals over the days, taken asset by asset. */
  function TotalOfAssets(r: Returns, days: nat, assets: seq<nat>): real {
    if assets == [] then 0.0 else ReturnTotal(r, days, assets[0]) + TotalOfAssets(r, days, assets[1..])
  }

  lemma {:induction false} TotalsByDay(r: Returns, days: nat, assets: seq<nat>)
    requires days > 0
    ensures TotalOfAssets(r, days, assets) == TotalOfAssets(r, days - 1, assets) + DayTotal(r, days - 1, assets)
  {
    if assets != [] {
      TotalsByDay(r, days, assets[1..]);
    }
  }

  lemma {:induction false} NoTotals(r: Returns, assets: seq<nat>)
    ensures TotalOfAssets(r, 0, assets) == 0.0
  {
    if assets != [] {
      NoTotals(r, assets[1..]);
    }
  }

  lemma Divide(x: real, y: real, n: real)
    requires n != 0.0
    ensures (x + y) / n == x / n + y / n && (x - y) / n == x / n - y / n && (x / n) * n == x
  {
    var p, q := x / n, y / n;
    assert p * n == x && q * n == y;
    QuotientIs(x + y, n, p + q);
    QuotientIs(x - y, n, p - q);
  }

  /** Averaging over the assets and adding over the days commute. */
  lemma {:induction false} AveragesAdd(r: Returns, days: nat, cluster: seq<nat>)
    requires cluster != []
    ensures AverageTotal(r, days, cluster) == TotalOfAssets(r, days, cluster) / |cluster| as real
  {
    if days == 0 {
      NoTotals(r, cluster);
    } else {
      hide TotalOfAssets, DayTotal;
      AveragesAdd(r, days - 1, cluster);
      TotalsByDay(r, days, cluster);
      Divide(TotalOfAssets(r, days - 1, cluster), DayTotal(r, days - 1, cluster), |cluster| as real);
    }
  }

  lemma {:induction false} CentredTotal(r: Returns, days: nat, day: nat, assets: seq<nat>)
    requires days > 0
    ensures DayTotal(Centred(r, days), day, assets)
         == DayTotal(r, day, assets) - TotalOfAssets(r, days, assets) / days as real
  {
    if assets != [] {
      hide ReturnTotal;
      CentredTotal(r, days, day, assets[1..]);
      Divide(ReturnTotal(r, days, assets[0]), TotalOfAssets(r, days, assets[1..]), days as real);
    }
  }

  lemma DivideTwice(x: real, a: real, b: real)
    requires a != 0.0 && b != 0.0
    ensures (x / a) / b == (x / b) / a
  {
    var p, q := x / a, x / b;
    var u := p / b;
    assert (u * a) * b == (u * b) * a == x;
    QuotientIs(x, b, u * a);
    QuotientIs(q, a, u);
  }

  /** The average of the centred returns is the centred average. */
  lemma CentredAverage(r: Returns, days: nat, day: nat, cluster: seq<nat>)
    requires days > 0 && cluster != []
    ensures Average(Centred(r, days), day, cluster) == Average(r, day, cluster) - MeanAverage(r, days, cluster)
  {
    hide DayTotal, TotalOfAssets, AverageTotal, Centred;
    CentredTotal(r, days, day, cluster);
    AveragesAdd(r, days, cluster);
    var n, t, total := |cluster| as real, days as real, TotalOfAssets(r, days, cluster);
    Divide(DayTotal(r, day, cluster), total / t, n);
    DivideTwice(total, t, n);
  }

  lemma {:induction false} SpreadCentred(r: Returns, days: nat, upTo: nat, cluster: seq<nat>)
    requires days > 0 && cluster != []
    ensures Spread(Centred(r, days), upTo, cluster, 0.0) == Spread(r, upTo, cluster, MeanAverage(r, days, cluster))
  {
    if upTo > 0 {
      hide Average, MeanAverage, Centred;
      SpreadCentred(r, days, upTo - 1, cluster);
      CentredAverage(r, days, upTo - 1, cluster);
    }
  }

  /** The variance of the cluster's average return, with the divisor for a sample. */
  function SampleVariance(r: Returns, days: nat, cluster: seq<nat>): real
    requires cluster != [] && days >= 2
  {
    Spread(r, days, cluster, MeanAverage(r, days, cluster)) / (days - 1) as real
  }

  /** The variance of a cluster is the sample variance of its equally weighted average return, and so is
      never negative. */
  lemma ClusterVarianceIsVariance(cov: Matrix, r: Returns, days: nat, cluster: seq<nat>)
    requires cluster != [] && IsSampleCovariance(cov, r, days)
    ensures ClusterVariance(cov, cluster) == SampleVariance(r, days, cluster) >= 0.0
  {
    var c, n := 1.0 / (days - 1) as real, (days - 1) as real;
    hide ClusterVariance, MeanAverage, Centred, IsProducts, Spread;
    VarianceIsMeanSquare(cov, Centred(r, days), days, c, cluster);
    SpreadCentred(r, days, days, cluster);
    var x := Spread(r, days, cluster, MeanAverage(r, days, cluster));
    SpreadNonNegative(r, days, cluster, MeanAverage(r, days, cluster));
    PartOf(x, n);
  }

  lemma PartOf(x: real, n: real)
    requires n > 0.0 && x >= 0.0
    ensures (1.0 / n) * x == x / n >= 0.0
  {
    var c := 1.0 / n;
    assert c * n == 1.0;
    assert (c * x) * n == x;
    QuotientIs(x, n, c * x);
    assert x / n >= 0.0;
  }

  lemma {:induction false} SpreadNonNegative(r: Returns, days: nat, cluster: seq<nat>, m: real)
    requires cluster != []
    ensures Spread(r, days, cluster, m) >= 0.0
  {
    if days > 0 {
      hide Average;
      SpreadNonNegative(r, days - 1, cluster, m);
    }
  }

  /** So for the covariance of any returns, risk parity is a law about the returns: at every split whose
      weights are numbers, the halves hold weights in inverse proportion to the sample variances of their
      equally weighted average returns. */
  lemma RiskParityOfReturns(cov: Matrix, r: Returns, days: nat, weights: seq<Num>, order: seq<nat>, cluster: seq<nat>)
    requires IsSampleCovariance(cov, r, days) && RiskParity(cov, weights, order)
    requires Reaches(order, cluster) && |cluster| >= 2 && AllNumbers(weights, cluster)
    ensures Held(weights, Left(cluster)) * SampleVariance(r, days, Left(cluster))
         == Held(weights, Right(cluster)) * SampleVariance(r, days, Right(cluster))
  {
    hide ClusterVariance, SampleVariance, IsSampleCovariance, Reaches, AllNumbers;
    ClusterVarianceIsVariance(cov, r, days, Left(cluster));
    ClusterVarianceIsVariance(cov, r, days, Right(cluster));
    assert HasRisk(cov, weights, cluster);
    assert Balanced(cov, weights, cluster);
  }

  // ----- there is only one choice

  /** The risk that each split must balance: no half has a negative variance, nor do both have none. */
  ghost predicate Risky(cov: Matrix, order: seq<nat>) {
    forall cluster :: Reaches(order, cluster) && |cluster| >= 2 ==>
      && ClusterVariance(cov, Left(cluster)) >= 0.0 && ClusterVariance(cov, Right(cluster)) >= 0.0
      && ClusterVariance(cov, Left(cluster)) + ClusterVariance(cov, Right(cluster)) > 0.0
  }

  lemma {:induction false} HeldAppend(weights: seq<Num>, a: seq<nat>, b: seq<nat>)
    requires AllNumbers(weights, a) && AllNumbers(weights, b)
    ensures AllNumbers(weights, a + b) && Held(weights, a + b) == Held(weights, a) + Held(weights, b)
  {
    if a == [] {
      assert a + b == b;
    } else {
      assert (a + b)[1..] == a[1..] + b;
      HeldAppend(weights, a[1..], b);
    }
  }

  lemma OneDivision(l: real, r: real, l': real, r': real, vl: real, vr: real)
    requires l + r == l' + r' && vl + vr > 0.0
    requires Times(l, vl) == Times(r, vr) && Times(l', vl) == Times(r', vr)
    ensures l == l' && r == r'
  {
    var d := l - l';
    assert d * (vl + vr) == 0.0 by {
      assert r' - r == d;
      assert d * vl == l * vl - l' * vl && d * vr == r' * vr - r * vr;
    }
  }

  lemma {:induction false} WholeIsReached(order: seq<nat>, cluster: seq<nat>)
    ensures Reaches(order, order)
    ensures |order| >= 2 && (Reaches(Left(order), cluster) || Reaches(Right(order), cluster)) ==>
      Reaches(order, cluster)
  {
  }

  lemma HalfKeeps(cov: Matrix, weights: seq<Num>, order: seq<nat>, half: seq<nat>)
    requires |order| >= 2 && (half == Left(order) || half == Right(order))
    requires Risky(cov, order) && RiskParity(cov, weights, order) && AllNumbers(weights, order)
    ensures Risky(cov, half) && RiskParity(cov, weights, half) && AllNumbers(weights, half)
  {
    var at := if half == Left(order) then 0 else |order| / 2;
    assert forall k :: 0 <= k < |half| ==> half[k] == order[at + k];
    hide ClusterVariance, Balanced, HasRisk, Left, Right;
    forall cluster | Reaches(half, cluster)
      ensures Reaches(order, cluster)
    {
    }
  }

  lemma HalvesBalance(cov: Matrix, order: seq<nat>, w: seq<Num>)
    requires |order| >= 2 && Risky(cov, order) && RiskParity(cov, w, order) && AllNumbers(w, order)
    requires AllNumbers(w, Left(order)) && AllNumbers(w, Right(order))
    ensures ClusterVariance(cov, Left(order)) + ClusterVariance(cov, Right(order)) > 0.0
    ensures Times(Held(w, Left(order)), ClusterVariance(cov, Left(order)))
         == Times(Held(w, Right(order)), ClusterVariance(cov, Right(order)))
    ensures Held(w, order) == Held(w, Left(order)) + Held(w, Right(order))
  {
    assert order == Left(order) + Right(order);
    WholeIsReached(order, order);
    hide ClusterVariance, Held, Reaches, Left, Right, AllNumbers;
    assert HasRisk(cov, w, order);
    assert Balanced(cov, w, order);
    hide *;
    HeldAppend(w, Left(order), Right(order));
  }

  lemma HalvesAgree(cov: Matrix, order: seq<nat>, w: seq<Num>, w': seq<Num>)
    requires |order| >= 2 && Risky(cov, order) && AllNumbers(w, order) && AllNumbers(w', order)
    requires RiskParity(cov, w, order) && RiskParity(cov, w', order) && Held(w, order) == Held(w', order)
    requires AllNumbers(w, Left(order)) && AllNumbers(w, Right(order))
    requires AllNumbers(w', Left(order)) && AllNumbers(w', Right(order))
    ensures Held(w, Left(order)) == Held(w', Left(order)) && Held(w, Right(order)) == Held(w', Right(order))
  {
    HalvesBalance(cov, order, w);
    HalvesBalance(cov, order, w');
    assert |Left(order)| > 0 && |Right(order)| > 0;
    hide *;
    var l, r := Left(order), Right(order);
    OneDivision(Held(w, l), Held(w, r), Held(w', l), Held(w', r), ClusterVariance(cov, l), ClusterVariance(cov, r));
  }

  /** Whatever weights are risk parity, and hold as much altogether, are the same weights. */
  lemma {:induction false} OnlyRiskParity(cov: Matrix, order: seq<nat>, w: seq<Num>, w': seq<Num>)
    requires Risky(cov, order) && AllNumbers(w, order) && AllNumbers(w', order)
    requires RiskParity(cov, w, order) && RiskParity(cov, w', order) && Held(w, order) == Held(w', order)
    ensures forall k :: 0 <= k < |order| ==> w[order[k]] == w'[order[k]]
    decreases |order|
  {
    if |order| == 1 {
      assert order[1..] == [];
    } else if |order| >= 2 {
      var l, r := Left(order), Right(order);
      assert order == l + r && |l| < |order| && |r| < |order|;
      hide Left, Right, Risky, RiskParity, Held;
      HalfKeeps(cov, w, order, l);
      HalfKeeps(cov, w, order, r);
      HalfKeeps(cov, w', order, l);
      HalfKeeps(cov, w', order, r);
      HalvesAgree(cov, order, w, w');
      OnlyRiskParity(cov, l, w, w');
      OnlyRiskParity(cov, r, w, w');
    }
  }
}
