/** The two-pointer Kolmogorov-Smirnov statistic, proved to be the supremum over all reals of the
    distance between two empirical distribution functions. */
module TwoSampleKS {
  import opened Prelude

  function CountLe(s: seq<real>, x: real): (c: nat)
    ensures c <= |s|
  {
    if s == [] then 0 else (if s[0] <= x then 1 else 0) + CountLe(s[1..], x)
  }

  /** The empirical distribution function of a sample. */
  function Cdf(s: seq<real>, x: real): real
    requires s != []
  {
    CountLe(s, x) as real / |s| as real
  }

  function Gap(a: seq<real>, b: seq<real>, x: real): real
    requires a != [] && b != []
  {
    Abs(Cdf(a, x) - Cdf(b, x))
  }

  /** d is the largest distance between the two distribution functions, and it is attained. */
  ghost predicate IsSup(a: seq<real>, b: seq<real>, d: real)
    requires a != [] && b != []
  {
    && (forall x :: Gap(a, b, x) <= d)
    && (exists x :: Gap(a, b, x) == d)
  }

  function MaxGap(a: seq<real>, b: seq<real>, points: seq<real>): real
    requires a != [] && b != []
  {
    if points == [] then 0.0 else Max(Gap(a, b, points[0]), MaxGap(a, b, points[1..]))
  }

  /** The statistic: the largest distance at a sample point, and 0 when a sample is empty. */
  function KS(a: seq<real>, b: seq<real>): real {
    if a == [] || b == [] then 0.0 else MaxGap(a, b, a + b)
  }

  // ----- sorting, as the library provides it

  predicate Ascending(s: seq<real>) {
    s == [] || (Ascending(s[1..]) && forall v :: v in s[1..] ==> s[0] <= v)
  }

  predicate StrictlyAscending(s: seq<real>) {
    s == [] || (StrictlyAscending(s[1..]) && forall v :: v in s[1..] ==> s[0] < v)
  }

  function Insert(v: real, s: seq<real>): (r: seq<real>)
    requires Ascending(s)
    ensures Ascending(r) && forall x :: x in r <==> x == v || x in s
  {
    if s == [] || v <= s[0] then
      assert s != [] ==> s == [s[0]] + s[1..];
      assert ([v] + s)[1..] == s;
      [v] + s
    else
      var rest := Insert(v, s[1..]);
      assert s == [s[0]] + s[1..];
      assert ([s[0]] + rest)[1..] == rest;
      [s[0]] + rest
  }

  function Sorted(s: seq<real>): (r: seq<real>)
    ensures Ascending(r)
  {
    if s == [] then [] else Insert(s[0], Sorted(s[1..]))
  }

  lemma {:induction false} InsertPermutes(v: real, s: seq<real>)
    requires Ascending(s)
    ensures multiset(Insert(v, s)) == multiset(s) + multiset{v}
  {
    if s != [] && v > s[0] {
      InsertPermutes(v, s[1..]);
      assert s == [s[0]] + s[1..];
    }
  }

  lemma {:induction false} SortedPermutes(s: seq<real>)
    ensures multiset(Sorted(s)) == multiset(s) && |Sorted(s)| == |s|
  {
    if s != [] {
      SortedPermutes(s[1..]);
      InsertPermutes(s[0], Sorted(s[1..]));
      assert s == [s[0]] + s[1..];
    }
    assert |multiset(Sorted(s))| == |multiset(s)|;
  }

  lemma {:induction false} CountInsert(v: real, s: seq<real>, x: real)
    requires Ascending(s)
    ensures CountLe(Insert(v, s), x) == CountLe(s, x) + if v <= x then 1 else 0
  {
    if s == [] || v <= s[0] {
      assert ([v] + s)[1..] == s;
    } else {
      CountInsert(v, s[1..], x);
      assert Insert(v, s)[1..] == Insert(v, s[1..]);
    }
  }

  lemma {:induction false} CountSorted(s: seq<real>, x: real)
    ensures CountLe(Sorted(s), x) == CountLe(s, x)
  {
    if s != [] {
      CountSorted(s[1..], x);
      CountInsert(s[0], Sorted(s[1..]), x);
    }
  }

  function InsertNew(v: real, s: seq<real>): (r: seq<real>)
    requires StrictlyAscending(s)
    ensures StrictlyAscending(r) && forall x :: x in r <==> x == v || x in s
  {
    if s == [] || v < s[0] then
      assert s != [] ==> s == [s[0]] + s[1..];
      assert ([v] + s)[1..] == s;
      [v] + s
    else if v == s[0] then s
    else
      var rest := InsertNew(v, s[1..]);
      assert s == [s[0]] + s[1..];
      assert ([s[0]] + rest)[1..] == rest;
      [s[0]] + rest
  }

  /** sorted(set(a) | set(b)), given a + b. */
  function SortedSet(s: seq<real>): (r: seq<real>)
    ensures StrictlyAscending(r)
    ensures forall x :: x in r <==> x in s
  {
    if s == [] then [] else InsertNew(s[0], SortedSet(s[1..]))
  }

  // ----- distribution functions are step functions

  lemma CountLeOfSorted(s: seq<real>, x: real, i: nat)
    requires Ascending(s) && i <= |s|
    requires i > 0 ==> s[i - 1] <= x
    requires i < |s| ==> x < s[i]
    ensures CountLe(s, x) == i
  {
    if s != [] {
      if i == 0 {
        assert s == [s[0]] + s[1..];
        NoneLe(s, x);
      } else {
        assert i > 1 ==> s[i - 1] in s[1..];
        CountLeOfSorted(s[1..], x, i - 1);
      }
    }
  }

  lemma NoneLe(s: seq<real>, x: real)
    requires forall v :: v in s ==> x < v
    ensures CountLe(s, x) == 0
  {
    if s != [] {
      assert forall v :: v in s[1..] ==> v in s;
      assert s[0] in s;
    }
  }

  lemma {:induction false} CountLeSame(s: seq<real>, p: real, x: real)
    requires p <= x && forall v :: v in s && v <= x ==> v <= p
    ensures CountLe(s, p) == CountLe(s, x)
  {
    if s != [] {
      assert s[0] in s && forall v :: v in s[1..] ==> v in s;
      CountLeSame(s[1..], p, x);
    }
  }

  /** The distribution functions only jump at sample points. */
  lemma LastPoint(points: seq<real>, x: real) returns (p: Option<real>)
    ensures p.None? ==> forall v :: v in points ==> x < v
    ensures p.Some? ==> p.value in points && p.value <= x && forall v :: v in points && v <= x ==> v <= p.value
  {
    if points == [] {
      p := None;
    } else {
      p := LastPoint(points[1..], x);
      assert points == [points[0]] + points[1..];
      if points[0] <= x && (p.None? || p.value < points[0]) {
        p := Some(points[0]);
      }
    }
  }

  lemma GapAtSomePoint(a: seq<real>, b: seq<real>, points: seq<real>, x: real)
    requires a != [] && b != []
    requires forall v :: v in a || v in b ==> v in points
    ensures Gap(a, b, x) == 0.0 || exists p :: p in points && Gap(a, b, x) == Gap(a, b, p)
  {
    var p := LastPoint(points, x);
    if p.None? {
      NoneLe(a, x);
      NoneLe(b, x);
    } else {
      CountLeSame(a, p.value, x);
      CountLeSame(b, p.value, x);
    }
  }

  lemma FractionInUnit(c: nat, n: nat)
    requires c <= n && n > 0
    ensures 0.0 <= c as real / n as real <= 1.0
  {
  }

  lemma GapRange(a: seq<real>, b: seq<real>, x: real)
    requires a != [] && b != []
    ensures 0.0 <= Gap(a, b, x) <= 1.0
  {
    FractionInUnit(CountLe(a, x), |a|);
    FractionInUnit(CountLe(b, x), |b|);
  }

  lemma {:induction false} MaxGapBounds(a: seq<real>, b: seq<real>, points: seq<real>)
    requires a != [] && b != []
    ensures 0.0 <= MaxGap(a, b, points)
    ensures forall p :: p in points ==> Gap(a, b, p) <= MaxGap(a, b, points)
    ensures points != [] ==> exists p :: p in points && Gap(a, b, p) == MaxGap(a, b, points)
  {
    if points != [] {
      MaxGapBounds(a, b, points[1..]);
      GapRange(a, b, points[0]);
      var m := MaxGap(a, b, points);
      forall p | p in points
        ensures Gap(a, b, p) <= m
      {
        if p != points[0] {
          assert p in points[1..];
        }
      }
      assert points[0] in points;
      if m != Gap(a, b, points[0]) {
        assert points[1..] != [];
        var p :| p in points[1..] && Gap(a, b, p) == MaxGap(a, b, points[1..]);
        assert p in points && Gap(a, b, p) == m;
      }
    }
  }

  /** The largest distance over any list holding all the sample points, and only points of the line,
      is the supremum over the whole line. */
  lemma BoundAtPointsIsSup(a: seq<real>, b: seq<real>, points: seq<real>, d: real)
    requires a != [] && b != [] && 0.0 <= d
    requires forall v :: v in a || v in b ==> v in points
    requires forall p :: p in points ==> Gap(a, b, p) <= d
    requires exists p :: p in points && Gap(a, b, p) == d
    ensures IsSup(a, b, d)
  {
    forall x
      ensures Gap(a, b, x) <= d
    {
      GapAtSomePoint(a, b, points, x);
    }
  }

  /** For two nonempty samples the statistic is the supremum over all reals of |Fa(x) - Fb(x)|, and
      the only number that is. */
  lemma KSIsTheSup(a: seq<real>, b: seq<real>, d: real)
    requires a != [] && b != []
    ensures IsSup(a, b, d) <==> d == KS(a, b)
  {
    MaxGapBounds(a, b, a + b);
    BoundAtPointsIsSup(a, b, a + b, KS(a, b));
    if IsSup(a, b, d) {
      var x :| Gap(a, b, x) == d;
      var y :| Gap(a, b, y) == KS(a, b);
      assert d <= KS(a, b) <= d;
    }
  }

  lemma KSInUnitInterval(a: seq<real>, b: seq<real>)
    ensures 0.0 <= KS(a, b) <= 1.0
  {
    if a != [] && b != [] {
      KSIsTheSup(a, b, KS(a, b));
      var x :| Gap(a, b, x) == KS(a, b);
      GapRange(a, b, x);
    }
  }

  lemma KSSymmetric(a: seq<real>, b: seq<real>)
    ensures KS(a, b) == KS(b, a)
  {
    if a != [] && b != [] {
      KSIsTheSup(a, b, KS(a, b));
      var x :| Gap(a, b, x) == KS(a, b);
      assert forall y :: Gap(a, b, y) == Gap(b, a, y);
      assert Gap(b, a, x) == KS(a, b);
      KSIsTheSup(b, a, KS(a, b));
    }
  }

  // ----- when the statistic vanishes

  /** p out of m is the same share as q out of n. */
  predicate InProportion(p: int, m: int, q: int, n: int) {
    p * n == q * m
  }

  /** Every value has the same share of both samples. */
  ghost predicate SameDistribution(a: seq<real>, b: seq<real>) {
    forall v :: InProportion(multiset(a)[v], |a|, multiset(b)[v], |b|)
  }

  lemma {:induction false} CountStep(s: seq<real>, lo: real, v: real)
    requires lo < v && forall w :: w in s && w < v ==> w <= lo
    ensures CountLe(s, v) == CountLe(s, lo) + multiset(s)[v]
  {
    if s != [] {
      assert s == [s[0]] + s[1..];
      assert s[0] in s && forall w :: w in s[1..] ==> w in s;
      CountStep(s[1..], lo, v);
    }
  }

  lemma {:induction false} CountFirst(s: seq<real>, v: real)
    requires forall w :: w in s ==> v <= w
    ensures CountLe(s, v) == multiset(s)[v]
  {
    if s != [] {
      assert s == [s[0]] + s[1..];
      assert s[0] in s && forall w :: w in s[1..] ==> w in s;
      CountFirst(s[1..], v);
    }
  }

  lemma {:induction false} StrictOrder(s: seq<real>, i: nat, j: nat)
    requires StrictlyAscending(s) && i < j < |s|
    ensures s[i] < s[j]
  {
    if i == 0 {
      assert s[j] in s[1..];
    } else {
      StrictOrder(s[1..], i - 1, j - 1);
    }
  }

  /** The count at the k-th of the ordered sample points is the count at the previous one plus the
      multiplicity of the point. */
  lemma CountAtPoint(s: seq<real>, points: seq<real>, k: nat)
    requires StrictlyAscending(points) && k < |points| && forall v :: v in s ==> v in points
    ensures CountLe(s, points[k]) == multiset(s)[points[k]] + CountBefore(s, points, k)
  {
    if k == 0 {
      assert points == [points[0]] + points[1..];
      CountFirst(s, points[0]);
    } else {
      forall w | w in s && w < points[k]
        ensures w <= points[k - 1]
      {
        var i :| 0 <= i < |points| && points[i] == w;
        if k < i {
          StrictOrder(points, k, i);
        } else if i < k - 1 {
          StrictOrder(points, i, k - 1);
        }
      }
      StrictOrder(points, k - 1, k);
      CountStep(s, points[k - 1], points[k]);
    }
  }

  lemma FractionsEqual(ca: int, cb: int, na: int, nb: int)
    requires na > 0 && nb > 0
    ensures ca as real / na as real == cb as real / nb as real <==> InProportion(ca, na, cb, nb)
  {
    var x, y, m, n := ca as real / na as real, cb as real / nb as real, na as real, nb as real;
    assert x * m == ca as real && y * n == cb as real;
    assert (ca * nb) as real == x * m * n == x * (m * n);
    assert (cb * na) as real == y * n * m == y * (m * n);
    assert m * n > 0.0;
  }

  lemma CrossCounts(a: seq<real>, b: seq<real>, x: real)
    requires a != [] && b != []
    ensures Gap(a, b, x) == 0.0 <==> InProportion(CountLe(a, x), |a|, CountLe(b, x), |b|)
  {
    FractionsEqual(CountLe(a, x), CountLe(b, x), |a|, |b|);
  }

  lemma ProportionStep(p: int, q: int, c: int, d: int, m: int, n: int, sum: int, sum': int)
    requires sum == p + c && sum' == q + d && InProportion(c, m, d, n)
    ensures InProportion(sum, m, sum', n) <==> InProportion(p, m, q, n)
  {
    assert (p + c) * n == p * n + c * n && (q + d) * m == q * m + d * m;
  }

  function CountBefore(s: seq<real>, points: seq<real>, k: nat): nat
    requires k <= |points|
  {
    if k == 0 then 0 else CountLe(s, points[k - 1])
  }

  /** Given that counts are in proportion at the previous point, they are in proportion at the k-th
      ordered point exactly when that point has the same share of both samples. */
  lemma CountsFromShares(a: seq<real>, b: seq<real>, points: seq<real>, k: nat)
    requires StrictlyAscending(points) && k < |points|
    requires forall v :: v in a || v in b ==> v in points
    requires InProportion(CountBefore(a, points, k), |a|, CountBefore(b, points, k), |b|)
    ensures InProportion(CountLe(a, points[k]), |a|, CountLe(b, points[k]), |b|)
       <==> InProportion(multiset(a)[points[k]], |a|, multiset(b)[points[k]], |b|)
  {
    CountAtPoint(a, points, k);
    CountAtPoint(b, points, k);
    ProportionStep(multiset(a)[points[k]], multiset(b)[points[k]],
                   CountBefore(a, points, k), CountBefore(b, points, k), |a|, |b|,
                   CountLe(a, points[k]), CountLe(b, points[k]));
  }

  lemma {:induction false} SameCounts(a: seq<real>, b: seq<real>, points: seq<real>, k: nat)
    requires StrictlyAscending(points) && k < |points| && SameDistribution(a, b)
    requires forall v :: v in a || v in b ==> v in points
    ensures InProportion(CountLe(a, points[k]), |a|, CountLe(b, points[k]), |b|)
  {
    if k > 0 {
      SameCounts(a, b, points, k - 1);
    }
    CountsFromShares(a, b, points, k);
  }

  /** The statistic is zero exactly when every value has the same share of both samples. */
  lemma KSZeroIffSameDistribution(a: seq<real>, b: seq<real>)
    requires a != [] && b != []
    ensures KS(a, b) == 0.0 <==> SameDistribution(a, b)
  {
    KSIsTheSup(a, b, KS(a, b));
    var points := SortedSet(a + b);
    if SameDistribution(a, b) {
      var x :| Gap(a, b, x) == KS(a, b);
      GapAtSomePoint(a, b, points, x);
      if Gap(a, b, x) != 0.0 {
        var p :| p in points && Gap(a, b, x) == Gap(a, b, p);
        var k :| 0 <= k < |points| && points[k] == p;
        SameCounts(a, b, points, k);
        CrossCounts(a, b, p);
      }
    }
    if KS(a, b) == 0.0 {
      forall v
        ensures InProportion(multiset(a)[v], |a|, multiset(b)[v], |b|)
      {
        if v in points {
          var k :| 0 <= k < |points| && points[k] == v;
          SharesFromZero(a, b, points, k);
        } else {
          assert v !in a && v !in b;
        }
      }
    }
  }

  lemma SharesFromZero(a: seq<real>, b: seq<real>, points: seq<real>, k: nat)
    requires a != [] && b != [] && IsSup(a, b, 0.0)
    requires StrictlyAscending(points) && k < |points|
    requires forall v :: v in a || v in b ==> v in points
    ensures InProportion(multiset(a)[points[k]], |a|, multiset(b)[points[k]], |b|)
  {
    GapRange(a, b, points[k]);
    CrossCounts(a, b, points[k]);
    if k > 0 {
      GapRange(a, b, points[k - 1]);
      CrossCounts(a, b, points[k - 1]);
    }
    CountsFromShares(a, b, points, k);
  }

  // ----- the code

  /** With both pointers just past x, their quotients are the distribution functions at x. */
  lemma GapFromPointers(a: seq<real>, b: seq<real>, x: real, i: nat, j: nat)
    requires a != [] && b != [] && PointerAt(Sorted(a), x, i) && PointerAt(Sorted(b), x, j)
    ensures Gap(a, b, x) == Abs(i as real / |a| as real - j as real / |b| as real)
  {
    CountLeOfSorted(Sorted(a), x, i);
    CountLeOfSorted(Sorted(b), x, j);
    CountSorted(a, x);
    CountSorted(b, x);
  }

  predicate PointerAt(s: seq<real>, x: real, i: nat) {
    i <= |s| && (i > 0 ==> s[i - 1] <= x) && (i < |s| ==> x < s[i])
  }

  /** The running maximum over the first m points. */
  ghost predicate MaxOver(a: seq<real>, b: seq<real>, points: seq<real>, m: nat, d: real)
    requires a != [] && b != [] && m <= |points|
  {
    && 0.0 <= d
    && (forall t :: 0 <= t < m ==> Gap(a, b, points[t]) <= d)
    && (d == 0.0 || exists t :: 0 <= t < m && Gap(a, b, points[t]) == d)
  }

  lemma MaxOverStep(a: seq<real>, b: seq<real>, points: seq<real>, m: nat, d: real)
    requires a != [] && b != [] && m < |points| && MaxOver(a, b, points, m, d)
    ensures MaxOver(a, b, points, m + 1, Max(d, Gap(a, b, points[m])))
  {
    var e := Max(d, Gap(a, b, points[m]));
    GapRange(a, b, points[m]);
    if e != Gap(a, b, points[m]) && d != 0.0 {
      var t :| 0 <= t < m && Gap(a, b, points[t]) == d;
      assert 0 <= t < m + 1 && Gap(a, b, points[t]) == e;
    }
  }

  lemma MaxOverAllIsKS(a: seq<real>, b: seq<real>, points: seq<real>, d: real)
    requires a != [] && b != [] && MaxOver(a, b, points, |points|, d)
    requires forall v :: v in points <==> v in a || v in b
    ensures d == KS(a, b) && IsSup(a, b, d)
  {
    var v := a[0];
    assert v in a && v in points;
    GapRange(a, b, points[0]);
    assert exists p :: p in points && Gap(a, b, p) == d;
    BoundAtPointsIsSup(a, b, points, d);
    KSIsTheSup(a, b, d);
  }

  /** Advances one pointer past x. */
  method Advance(s: seq<real>, x: real, start: nat) returns (i: nat)
    requires Ascending(s) && start <= |s| && (start > 0 ==> s[start - 1] <= x)
    ensures PointerAt(s, x, i)
  {
    i := start;
    while i < |s| && s[i] <= x
      invariant i <= |s| && (i > 0 ==> s[i - 1] <= x)
    {
      i := i + 1;
    }
  }

  /** Merges the two sorted samples with one pointer each and a running maximum. */
  method TwoSampleStatistic(a: seq<real>, b: seq<real>) returns (maxDiff: real)
    ensures maxDiff == KS(a, b)
    ensures a != [] && b != [] ==> IsSup(a, b, maxDiff)
  {
    if a == [] || b == [] {
      return 0.0;
    }
    var sa, sb := Sorted(a), Sorted(b);
    var merged := SortedSet(a + b);
    SortedPermutes(a);
    SortedPermutes(b);
    var i: nat, j: nat := 0, 0;
    maxDiff := 0.0;
    hide Ascending, StrictlyAscending, Gap, KS, IsSup, Sorted, SortedSet;
    for m := 0 to |merged|
      invariant i <= |sa| && (i > 0 ==> m > 0 && sa[i - 1] <= merged[m - 1])
      invariant j <= |sb| && (j > 0 ==> m > 0 && sb[j - 1] <= merged[m - 1])
      invariant MaxOver(a, b, merged, m, maxDiff)
    {
      var x := merged[m];
      if m > 0 {
        StrictOrder(merged, m - 1, m);
      }
      i := Advance(sa, x, i);
      j := Advance(sb, x, j);
      var fa, fb := i as real / |sa| as real, j as real / |sb| as real;
      GapFromPointers(a, b, x, i, j);
      MaxOverStep(a, b, merged, m, maxDiff);
      maxDiff := Max(maxDiff, Abs(fa - fb));
    }
    MaxOverAllIsKS(a, b, merged, maxDiff);
  }
}
