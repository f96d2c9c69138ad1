/** Hierarchical risk parity: the leaf order of a linkage matrix, then an in-place recursive bisection
    of the weights. */
module HrpAllocator {
  import opened Prelude

  // ----- leaf order

  /** Row i of a linkage over n = |link| + 1 leaves merges clusters left and right into cluster n + i. */
  datatype Merge = Merge(left: nat, right: nat)

  predicate Uses(m: Merge, id: nat) {
    m.left == id || m.right == id
  }

  /** Every cluster id is merged at most once, and only after it exists. */
  ghost predicate ValidLinkage(link: seq<Merge>) {
    && (forall i :: 0 <= i < |link| ==>
          link[i].left < |link| + 1 + i && link[i].right < |link| + 1 + i && link[i].left != link[i].right)
    && (forall i, j, id :: 0 <= i < j < |link| && Uses(link[i], id) ==> !Uses(link[j], id))
  }

  /** The leaves of a cluster, in order. */
  function Leaves(link: seq<Merge>, id: nat): seq<nat>
    requires ValidLinkage(link) && id <= 2 * |link|
  {
    var n := |link| + 1;
    if id < n then [id] else Leaves(link, link[id - n].left) + Leaves(link, link[id - n].right)
  }

  function Occurrences(leaves: seq<nat>, x: nat): nat {
    multiset(leaves)[x]
  }

  predicate UsedBefore(link: seq<Merge>, i: nat, id: nat)
    requires i <= |link|
  {
    exists j :: 0 <= j < i && Uses(link[j], id)
  }

  /** Clusters that exist after i merges and are in none of them. */
  function Active(link: seq<Merge>, i: nat): set<nat>
    requires i <= |link|
  {
    set id: nat | id < |link| + 1 + i && !UsedBefore(link, i, id)
  }

  /** The active cluster that holds a leaf after i merges. */
  function Owner(link: seq<Merge>, i: nat, leaf: nat): nat
    requires i <= |link|
  {
    if i == 0 then leaf
    else if Uses(link[i - 1], Owner(link, i - 1, leaf)) then |link| + i
    else Owner(link, i - 1, leaf)
  }

  ghost predicate HoldsOwned(link: seq<Merge>, i: nat, id: nat, x: nat)
    requires ValidLinkage(link) && i <= |link| && id <= 2 * |link|
  {
    Occurrences(Leaves(link, id), x) == if x <= |link| && Owner(link, i, x) == id then 1 else 0
  }

  /** After i merges, every active cluster holds exactly the leaves it owns, once each. */
  ghost predicate Partitioned(link: seq<Merge>, i: nat)
    requires ValidLinkage(link) && i <= |link|
  {
    forall id: nat, x: nat :: id in Active(link, i) ==> HoldsOwned(link, i, id, x)
  }

  lemma ActiveStep(link: seq<Merge>, i: nat)
    requires ValidLinkage(link) && i < |link|
    ensures {link[i].left, link[i].right} <= Active(link, i)
    ensures Active(link, i + 1) == Active(link, i) - {link[i].left, link[i].right} + {|link| + 1 + i}
  {
    var m, added := link[i], |link| + 1 + i;
    assert Uses(m, m.left) && Uses(m, m.right);
    forall id: nat
      ensures UsedBefore(link, i + 1, id) <==> UsedBefore(link, i, id) || Uses(m, id)
    {
      if UsedBefore(link, i, id) {
        var j :| 0 <= j < i && Uses(link[j], id);
      }
    }
    assert !UsedBefore(link, i + 1, added);
  }

  lemma MergeCount(s: set<nat>, a: nat, b: nat, c: nat)
    requires a in s && b in s && a != b && c !in s
    ensures |s - {a, b} + {c}| == |s| - 1
  {
    assert s - {a, b} == s - {a} - {b};
  }

  lemma ActiveCountStep(link: seq<Merge>, i: nat)
    requires ValidLinkage(link) && i < |link|
    ensures |Active(link, i + 1)| == |Active(link, i)| - 1
  {
    assert |link| + 1 + i !in Active(link, i);
    ActiveStep(link, i);
    hide Active, ValidLinkage;
    MergeCount(Active(link, i), link[i].left, link[i].right, |link| + 1 + i);
  }

  lemma {:induction false} ActiveCount(link: seq<Merge>, i: nat)
    requires ValidLinkage(link) && i <= |link|
    ensures |Active(link, i)| == |link| + 1 - i
  {
    if i == 0 {
      assert forall id: nat :: !UsedBefore(link, 0, id);
      CountUpTo(|link| + 1, Active(link, 0));
    } else {
      hide Active, ValidLinkage;
      ActiveCount(link, i - 1);
      ActiveCountStep(link, i - 1);
    }
  }

  lemma {:induction false} CountUpTo(n: nat, s: set<nat>)
    requires forall id: nat :: id in s <==> id < n
    ensures |s| == n
  {
    if n == 0 {
      assert s == {};
    } else {
      CountUpTo(n - 1, s - {n - 1});
    }
  }

  lemma LeavesOfMerge(link: seq<Merge>, i: nat)
    requires ValidLinkage(link) && i < |link|
    ensures link[i].left < |link| + 1 + i && link[i].right < |link| + 1 + i
    ensures Leaves(link, |link| + 1 + i) == Leaves(link, link[i].left) + Leaves(link, link[i].right)
  {
  }

  lemma PartitionStep(link: seq<Merge>, i: nat, id: nat, x: nat)
    requires ValidLinkage(link) && i < |link| && Partitioned(link, i) && id in Active(link, i + 1)
    ensures HoldsOwned(link, i + 1, id, x)
  {
    var m, merged := link[i], |link| + 1 + i;
    ActiveStep(link, i);
    OwnerIsOlder(link, i, x);
    if id == merged {
      LeavesOfMerge(link, i);
      assert HoldsOwned(link, i, m.left, x) && HoldsOwned(link, i, m.right, x);
      hide Active, Leaves, ValidLinkage, UsedBefore;
      var a, b := Leaves(link, m.left), Leaves(link, m.right);
      assert Occurrences(a + b, x) == Occurrences(a, x) + Occurrences(b, x);
    } else {
      assert HoldsOwned(link, i, id, x) && !Uses(m, id);
      hide Active, Leaves, ValidLinkage, UsedBefore;
    }
  }

  lemma {:induction false} PartitionHolds(link: seq<Merge>, i: nat)
    requires ValidLinkage(link) && i <= |link|
    ensures Partitioned(link, i)
  {
    if i > 0 {
      PartitionHolds(link, i - 1);
      forall id: nat, x: nat | id in Active(link, i)
        ensures HoldsOwned(link, i, id, x)
      {
        hide *;
        PartitionStep(link, i - 1, id, x);
      }
    }
  }

  lemma {:induction false} OwnerIsOlder(link: seq<Merge>, i: nat, leaf: nat)
    requires i <= |link|
    ensures leaf <= |link| ==> Owner(link, i, leaf) <= |link| + i
  {
    if i > 0 {
      OwnerIsOlder(link, i - 1, leaf);
    }
  }

  lemma {:induction false} OwnerIsActive(link: seq<Merge>, i: nat, leaf: nat)
    requires ValidLinkage(link) && i <= |link| && leaf <= |link|
    ensures Owner(link, i, leaf) in Active(link, i)
  {
    if i > 0 {
      OwnerIsActive(link, i - 1, leaf);
      ActiveStep(link, i - 1);
    }
  }

  /** The order in which an allocation visits the assets 0..n-1. */
  function LeafOrder(link: seq<Merge>): seq<nat>
    requires ValidLinkage(link)
  {
    Leaves(link, 2 * |link|)
  }

  ghost predicate IsPermutation(order: seq<nat>, n: nat) {
    forall x: nat :: Occurrences(order, x) == if x < n then 1 else 0
  }

  /** For every valid linkage the extracted order is a permutation of 0..n-1. */
  lemma LeafOrderIsPermutation(link: seq<Merge>)
    requires ValidLinkage(link)
    ensures IsPermutation(LeafOrder(link), |link| + 1)
  {
    var k := |link|;
    ActiveCount(link, k);
    PartitionHolds(link, k);
    var root :| root in Active(link, k);
    assert |Active(link, k) - {root}| == 0;
    RootIsActive(link);
    assert Active(link, k) == {2 * k};
    forall x: nat
      ensures Occurrences(LeafOrder(link), x) == if x < k + 1 then 1 else 0
    {
      assert HoldsOwned(link, k, 2 * k, x);
      if x <= k {
        OwnerIsActive(link, k, x);
      }
    }
  }

  // ----- the order keeps every branch together, left before right

  /** The leaves of a cluster stand together in the order. */
  ghost predicate StandsIn(link: seq<Merge>, id: nat, pre: seq<nat>, post: seq<nat>)
    requires ValidLinkage(link) && id <= 2 * |link|
  {
    LeafOrder(link) == pre + Leaves(link, id) + post
  }

  lemma EveryClusterIsMerged(link: seq<Merge>, id: nat) returns (j: nat)
    requires ValidLinkage(link) && id < 2 * |link|
    ensures j < |link| && Uses(link[j], id) && |link| + 1 + j > id
  {
    ActiveCount(link, |link|);
    RootIsActive(link);
    if id in Active(link, |link|) {
      TwoInOne(Active(link, |link|), id, 2 * |link|);
    }
    assert UsedBefore(link, |link|, id);
    j :| 0 <= j < |link| && Uses(link[j], id);
  }

  lemma TwoInOne(s: set<nat>, a: nat, b: nat)
    requires |s| == 1 && a in s && b in s
    ensures a == b
  {
    assert |s - {a}| == 0;
  }

  lemma {:induction false} ClusterStands(link: seq<Merge>, id: nat) returns (pre: seq<nat>, post: seq<nat>)
    requires ValidLinkage(link) && id <= 2 * |link|
    ensures StandsIn(link, id, pre, post)
    decreases 2 * |link| - id
  {
    hide Active, Leaves, ValidLinkage;
    if id == 2 * |link| {
      pre, post := [], [];
      assert LeafOrder(link) == [] + Leaves(link, id) + [];
    } else {
      var j := EveryClusterIsMerged(link, id);
      LeavesOfMerge(link, j);
      var before, after := ClusterStands(link, |link| + 1 + j);
      var l, r := Leaves(link, link[j].left), Leaves(link, link[j].right);
      assert before + (l + r) + after == before + l + (r + after);
      assert before + (l + r) + after == before + l + r + after;
      if id == link[j].left {
        pre, post := before, r + after;
      } else {
        pre, post := before + l, after;
      }
    }
  }

  /** The leaves are those that the cluster holds after i merges, each once. */
  ghost predicate AreOwned(link: seq<Merge>, i: nat, id: nat, leaves: seq<nat>)
    requires i <= |link|
  {
    forall x: nat :: Occurrences(leaves, x) == if x <= |link| && Owner(link, i, x) == id then 1 else 0
  }

  /** Each merge stands in the order as one stretch: the leaves that its left cluster holds when it is made,
      then those of its right cluster. */
  lemma OrderKeepsBranches(link: seq<Merge>, i: nat) returns (pre: seq<nat>, l: seq<nat>, r: seq<nat>, post: seq<nat>)
    requires ValidLinkage(link) && i < |link|
    ensures LeafOrder(link) == pre + l + r + post
    ensures AreOwned(link, i, link[i].left, l) && AreOwned(link, i, link[i].right, r)
  {
    pre, post := ClusterStands(link, |link| + 1 + i);
    LeavesOfMerge(link, i);
    l, r := Leaves(link, link[i].left), Leaves(link, link[i].right);
    assert pre + (l + r) + post == pre + l + r + post;
    PartitionHolds(link, i);
    ActiveStep(link, i);
    assert link[i].left in Active(link, i) && link[i].right in Active(link, i);
    hide Leaves, Active, ValidLinkage, Owner;
    forall x: nat
      ensures Occurrences(l, x) == if x <= |link| && Owner(link, i, x) == link[i].left then 1 else 0
      ensures Occurrences(r, x) == if x <= |link| && Owner(link, i, x) == link[i].right then 1 else 0
    {
      assert HoldsOwned(link, i, link[i].left, x) && HoldsOwned(link, i, link[i].right, x);
    }
  }

  lemma RootIsActive(link: seq<Merge>)
    requires ValidLinkage(link)
    ensures 2 * |link| in Active(link, |link|)
  {
    forall j | 0 <= j < |link|
      ensures !Uses(link[j], 2 * |link|)
    {
    }
  }

  function Singletons(n: nat): (items: seq<seq<nat>>)
    ensures |items| == n && forall id: nat :: id < n ==> items[id] == [id]
  {
    seq(n, i requires 0 <= i < n => [i])
  }

  /** The clusters built so far are listed by id. */
  ghost predicate Built(link: seq<Merge>, items: seq<seq<nat>>)
    requires ValidLinkage(link)
  {
    |items| <= 2 * |link| + 1 && forall id: nat :: id < |items| ==> items[id] == Leaves(link, id)
  }

  lemma BuiltInitially(link: seq<Merge>)
    requires ValidLinkage(link)
    ensures Built(link, Singletons(|link| + 1))
  {
  }

  lemma BuiltStep(link: seq<Merge>, items: seq<seq<nat>>, i: nat)
    requires ValidLinkage(link) && i < |link| && Built(link, items) && |items| == |link| + 1 + i
    ensures link[i].left < |items| && link[i].right < |items|
    ensures Built(link, items + [items[link[i].left] + items[link[i].right]])
  {
    LeavesOfMerge(link, i);
    hide Leaves, ValidLinkage;
  }

  /** Builds the clusters one after the other and returns the last one. */
  method QuasiDiagonal(link: seq<Merge>) returns (order: seq<nat>)
    requires ValidLinkage(link)
    ensures order == LeafOrder(link) && IsPermutation(order, |link| + 1)
  {
    hide ValidLinkage, Leaves;
    var items := Singletons(|link| + 1);
    BuiltInitially(link);
    for i := 0 to |link|
      invariant |items| == |link| + 1 + i && Built(link, items)
    {
      hide Built, ValidLinkage;
      BuiltStep(link, items, i);
      items := items + [items[link[i].left] + items[link[i].right]];
    }
    order := items[|items| - 1];
    LeafOrderIsPermutation(link);
  }

  // ----- weights and cluster variances

  /** A float that is a real number or not a number. */
  datatype Num = NaN | Fin(v: real)

  /** A product, named so that proofs can treat it as a whole. */
  function Times(x: real, y: real): real {
    x * y
  }

  function Mul(x: Num, y: Num): Num {
    if x.Fin? && y.Fin? then Fin(Times(x.v, y.v)) else NaN
  }

  function OneMinus(x: Num): Num {
    if x.Fin? then Fin(1.0 - x.v) else NaN
  }

  type Matrix = (nat, nat) -> real

  function RowDot(cov: Matrix, i: nat, cols: seq<nat>, w: real): real {
    if cols == [] then 0.0 else cov(i, cols[0]) * w + RowDot(cov, i, cols[1..], w)
  }

  function QuadraticForm(cov: Matrix, rows: seq<nat>, cols: seq<nat>, w: real): real {
    if rows == [] then 0.0 else w * RowDot(cov, rows[0], cols, w) + QuadraticForm(cov, rows[1..], cols, w)
  }

  /** The variance of the equally weighted cluster. */
  function ClusterVariance(cov: Matrix, cluster: seq<nat>): real
    requires cluster != []
  {
    QuadraticForm(cov, cluster, cluster, 1.0 / |cluster| as real)
  }

  function Clip(x: real): real {
    Min(Max(x, 0.0), 1.0)
  }

  /** 1 - left / (left + right), clipped. With a zero denominator the quotient is not a number for a
      zero numerator and an infinity, clipped to 0 or 1, otherwise. */
  function SplitFactor(left: real, right: real): Num {
    if left + right != 0.0 then Fin(Clip(1.0 - left / (left + right)))
    else if left == 0.0 then NaN
    else if left > 0.0 then Fin(0.0)
    else Fin(1.0)
  }

  function Left(cluster: seq<nat>): seq<nat> {
    cluster[..|cluster| / 2]
  }

  function Right(cluster: seq<nat>): seq<nat> {
    cluster[|cluster| / 2..]
  }

  function Alpha(cov: Matrix, cluster: seq<nat>): Num
    requires |cluster| >= 2
  {
    SplitFactor(ClusterVariance(cov, Left(cluster)), ClusterVariance(cov, Right(cluster)))
  }

  /** The fraction of a cluster's weight that bisection gives to one of its leaves: the product of the
      factors on the path to it. */
  function Share(cov: Matrix, cluster: seq<nat>, leaf: nat): Num
    decreases |cluster|
  {
    if |cluster| < 2 then Fin(1.0)
    else if leaf in Left(cluster) then Mul(Alpha(cov, cluster), Share(cov, Left(cluster), leaf))
    else Mul(OneMinus(Alpha(cov, cluster)), Share(cov, Right(cluster), leaf))
  }

  /** Some split of the recursion meets two halves of variance zero. */
  predicate Blind(cov: Matrix, cluster: seq<nat>)
    decreases |cluster|
  {
    |cluster| >= 2 && (
      || (ClusterVariance(cov, Left(cluster)) == 0.0 && ClusterVariance(cov, Right(cluster)) == 0.0)
      || Blind(cov, Left(cluster))
      || Blind(cov, Right(cluster)))
  }

  ghost predicate Distinct(s: seq<nat>) {
    forall i, j :: 0 <= i < j < |s| ==> s[i] != s[j]
  }

  function ValueOf(x: Num): real {
    if x.Fin? then x.v else 0.0
  }

  /** The sum of some leaves' shares, as the library sums: not-a-number counts as nothing. */
  function ShareTotal(cov: Matrix, cluster: seq<nat>, leaves: seq<nat>): real {
    if leaves == [] then 0.0
    else ValueOf(Share(cov, cluster, leaves[0])) + ShareTotal(cov, cluster, leaves[1..])
  }

  lemma AlphaRange(cov: Matrix, cluster: seq<nat>)
    requires |cluster| >= 2
    ensures var alpha := Alpha(cov, cluster);
      && (alpha.NaN? <==> ClusterVariance(cov, Left(cluster)) == 0.0 && ClusterVariance(cov, Right(cluster)) == 0.0)
      && (alpha.Fin? ==> 0.0 <= alpha.v <= 1.0)
  {
    hide ClusterVariance;
  }

  lemma MulNonNegative(x: Num, y: Num)
    requires (x.Fin? ==> x.v >= 0.0) && (y.Fin? ==> y.v >= 0.0)
    ensures Mul(x, y).Fin? ==> Mul(x, y).v >= 0.0
  {
  }

  lemma {:induction false} ShareIsNumber(cov: Matrix, cluster: seq<nat>, leaf: nat)
    ensures !Blind(cov, cluster) ==> Share(cov, cluster, leaf).Fin?
    ensures Share(cov, cluster, leaf).Fin? ==> Share(cov, cluster, leaf).v >= 0.0
    decreases |cluster|
  {
    if |cluster| >= 2 {
      hide ClusterVariance, Alpha;
      AlphaRange(cov, cluster);
      ShareIsNumber(cov, Left(cluster), leaf);
      ShareIsNumber(cov, Right(cluster), leaf);
      MulNonNegative(Alpha(cov, cluster), Share(cov, Left(cluster), leaf));
      MulNonNegative(OneMinus(Alpha(cov, cluster)), Share(cov, Right(cluster), leaf));
    }
  }

  lemma {:induction false} BlindHasNaN(cov: Matrix, cluster: seq<nat>) returns (leaf: nat)
    requires Blind(cov, cluster) && Distinct(cluster)
    ensures leaf in cluster && Share(cov, cluster, leaf).NaN?
    decreases |cluster|
  {
    AlphaRange(cov, cluster);
    Halves(cluster);
    hide ClusterVariance, Alpha, Times, Left, Right;
    if Blind(cov, Left(cluster)) {
      leaf := BlindHasNaN(cov, Left(cluster));
    } else if Blind(cov, Right(cluster)) {
      leaf := BlindHasNaN(cov, Right(cluster));
    } else {
      leaf := cluster[0];
    }
  }

  lemma {:induction false} TotalAppend(cov: Matrix, cluster: seq<nat>, a: seq<nat>, b: seq<nat>)
    ensures ShareTotal(cov, cluster, a + b) == ShareTotal(cov, cluster, a) + ShareTotal(cov, cluster, b)
  {
    hide Share;
    if a == [] {
      assert a + b == b;
    } else {
      assert (a + b)[1..] == a[1..] + b;
      TotalAppend(cov, cluster, a[1..], b);
    }
  }

  lemma {:induction false} TotalScales(cov: Matrix, outer: seq<nat>, inner: seq<nat>, c: real, leaves: seq<nat>)
    requires forall j :: j in leaves ==> ValueOf(Share(cov, outer, j)) == Times(c, ValueOf(Share(cov, inner, j)))
    ensures ShareTotal(cov, outer, leaves) == Times(c, ShareTotal(cov, inner, leaves))
  {
    hide Share, ValueOf, Times;
    if leaves == [] {
      TimesZero(c);
    } else {
      assert leaves == [leaves[0]] + leaves[1..];
      TotalScales(cov, outer, inner, c, leaves[1..]);
      TimesAdds(c, ValueOf(Share(cov, inner, leaves[0])), ShareTotal(cov, inner, leaves[1..]));
    }
  }

  lemma TimesZero(c: real)
    ensures Times(c, 0.0) == 0.0
  {
  }

  lemma TimesAdds(c: real, x: real, y: real)
    ensures Times(c, x + y) == Times(c, x) + Times(c, y)
  {
  }

  lemma ShareSplits(cov: Matrix, cluster: seq<nat>, j: nat)
    requires |cluster| >= 2 && !Blind(cov, cluster)
    ensures Alpha(cov, cluster).Fin?
    ensures var alpha := Alpha(cov, cluster).v;
      ValueOf(Share(cov, cluster, j)) ==
        if j in Left(cluster) then Times(alpha, ValueOf(Share(cov, Left(cluster), j)))
        else Times(1.0 - alpha, ValueOf(Share(cov, Right(cluster), j)))
  {
    hide ClusterVariance, Alpha, Times;
    AlphaRange(cov, cluster);
    ShareIsNumber(cov, Left(cluster), j);
    ShareIsNumber(cov, Right(cluster), j);
  }

  lemma Mix(alpha: real)
    ensures Times(alpha, 1.0) + Times(1.0 - alpha, 1.0) == 1.0
  {
  }

  /** Whatever the split factors are, as long as they are numbers, the shares of a cluster's leaves sum
      to exactly 1. */
  lemma {:induction false} SharesSumToOne(cov: Matrix, cluster: seq<nat>)
    requires cluster != [] && Distinct(cluster) && !Blind(cov, cluster)
    ensures ShareTotal(cov, cluster, cluster) == 1.0
    decreases |cluster|
  {
    if |cluster| >= 2 {
      ScaledTotals(cov, cluster);
      assert !Blind(cov, Left(cluster)) && !Blind(cov, Right(cluster));
      Halves(cluster);
      hide *;
      SharesSumToOne(cov, Left(cluster));
      SharesSumToOne(cov, Right(cluster));
      TotalAppend(cov, cluster, Left(cluster), Right(cluster));
      Mix(Alpha(cov, cluster).v);
    } else {
      assert cluster[1..] == [];
    }
  }

  lemma Halves(cluster: seq<nat>)
    requires |cluster| >= 2 && Distinct(cluster)
    ensures cluster == Left(cluster) + Right(cluster)
    ensures Distinct(Left(cluster)) && Distinct(Right(cluster)) && Left(cluster) != [] && Right(cluster) != []
    ensures forall j :: j in Right(cluster) ==> j !in Left(cluster)
  {
  }

  lemma ScaledTotals(cov: Matrix, cluster: seq<nat>)
    requires |cluster| >= 2 && Distinct(cluster) && !Blind(cov, cluster)
    ensures Alpha(cov, cluster).Fin?
    ensures var l, r, alpha := Left(cluster), Right(cluster), Alpha(cov, cluster).v;
      && ShareTotal(cov, cluster, l) == Times(alpha, ShareTotal(cov, l, l))
      && ShareTotal(cov, cluster, r) == Times(1.0 - alpha, ShareTotal(cov, r, r))
  {
    hide *;
    var l, r := Left(cluster), Right(cluster);
    Halves(cluster);
    ShareSplits(cov, cluster, 0);
    var alpha := Alpha(cov, cluster).v;
    forall j: nat
      ensures j in l ==> ValueOf(Share(cov, cluster, j)) == Times(alpha, ValueOf(Share(cov, l, j)))
      ensures j !in l ==> ValueOf(Share(cov, cluster, j)) == Times(1.0 - alpha, ValueOf(Share(cov, r, j)))
    {
      ShareSplits(cov, cluster, j);
    }
    TotalScales(cov, cluster, l, alpha, l);
    TotalScales(cov, cluster, r, 1.0 - alpha, r);
  }

  // ----- scale invariance

  lemma {:induction false} RowDotScales(cov: Matrix, cov': Matrix, c: real, i: nat, cols: seq<nat>, w: real)
    requires forall i, j :: cov'(i, j) == c * cov(i, j)
    ensures RowDot(cov', i, cols, w) == Times(c, RowDot(cov, i, cols, w))
  {
    if cols != [] {
      RowDotScales(cov, cov', c, i, cols[1..], w);
      var x, rest := cov(i, cols[0]), RowDot(cov, i, cols[1..], w);
      assert c * (x * w + rest) == (c * x) * w + c * rest;
    }
  }

  lemma {:induction false} QuadraticFormScales(cov: Matrix, cov': Matrix, c: real, rows: seq<nat>, cols: seq<nat>,
                                               w: real)
    requires forall i, j :: cov'(i, j) == c * cov(i, j)
    ensures QuadraticForm(cov', rows, cols, w) == Times(c, QuadraticForm(cov, rows, cols, w))
  {
    if rows != [] {
      RowDotScales(cov, cov', c, rows[0], cols, w);
      QuadraticFormScales(cov, cov', c, rows[1..], cols, w);
      var x, rest := RowDot(cov, rows[0], cols, w), QuadraticForm(cov, rows[1..], cols, w);
      assert c * (w * x + rest) == w * (c * x) + c * rest;
    }
  }

  lemma QuotientIs(y: real, e: real, q: real)
    requires e != 0.0 && y == q * e
    ensures y / e == q
  {
    var z := y / e;
    assert (z - q) * e == 0.0;
  }

  lemma SplitFactorScales(l: real, r: real, c: real)
    requires c > 0.0
    ensures SplitFactor(Times(c, l), Times(c, r)) == SplitFactor(l, r)
  {
    assert c * l + c * r == c * (l + r);
    if l + r != 0.0 {
      var q := l / (l + r);
      assert c * (l + r) != 0.0;
      assert q * (l + r) == l;
      assert c * l == q * (c * (l + r));
      QuotientIs(c * l, c * (l + r), q);
    }
  }

  lemma AlphaIgnoresScale(cov: Matrix, cov': Matrix, c: real, cluster: seq<nat>)
    requires c > 0.0 && forall i, j :: cov'(i, j) == c * cov(i, j)
    requires |cluster| >= 2
    ensures Alpha(cov', cluster) == Alpha(cov, cluster)
  {
    hide QuadraticForm, Times;
    var l, r := Left(cluster), Right(cluster);
    QuadraticFormScales(cov, cov', c, l, l, 1.0 / |l| as real);
    QuadraticFormScales(cov, cov', c, r, r, 1.0 / |r| as real);
    assert ClusterVariance(cov', l) == Times(c, ClusterVariance(cov, l));
    assert ClusterVariance(cov', r) == Times(c, ClusterVariance(cov, r));
    hide SplitFactor, ClusterVariance;
    SplitFactorScales(ClusterVariance(cov, l), ClusterVariance(cov, r), c);
  }

  /** Scaling the covariance by c > 0 changes no weight. */
  lemma {:induction false} SharesIgnoreScale(cov: Matrix, cov': Matrix, c: real, cluster: seq<nat>, leaf: nat)
    requires c > 0.0 && forall i, j :: cov'(i, j) == c * cov(i, j)
    ensures Share(cov', cluster, leaf) == Share(cov, cluster, leaf)
    decreases |cluster|
  {
    if |cluster| >= 2 {
      var l, r := Left(cluster), Right(cluster);
      AlphaIgnoresScale(cov, cov', c, cluster);
      hide Alpha, Mul;
      SharesIgnoreScale(cov, cov', c, l, leaf);
      SharesIgnoreScale(cov, cov', c, r, leaf);
    }
  }

  // ----- sums over all assets

  function Range(n: nat): (r: seq<nat>)
    ensures |r| == n && forall i :: 0 <= i < n ==> r[i] == i
  {
    if n == 0 then [] else Range(n - 1) + [n - 1]
  }

  /** The library's sum of a column: not-a-number entries are skipped. */
  function NumTotal(ws: seq<Num>): real {
    if ws == [] then 0.0 else NumTotal(ws[..|ws| - 1]) + ValueOf(ws[|ws| - 1])
  }

  lemma {:induction false} RangeOccurrences(n: nat, x: nat)
    ensures Occurrences(Range(n), x) == if x < n then 1 else 0
  {
    if n > 0 {
      assert Range(n) == Range(n - 1) + [n - 1];
      assert Occurrences([n - 1], x) == if x == n - 1 then 1 else 0;
      hide *;
      RangeOccurrences(n - 1, x);
      OccurrencesAppend(Range(n - 1), [n - 1], x);
    }
  }

  ghost predicate SameLeaves(a: seq<nat>, b: seq<nat>) {
    forall x: nat :: Occurrences(a, x) == Occurrences(b, x)
  }

  lemma PermutationOfRange(order: seq<nat>, n: nat)
    requires IsPermutation(order, n)
    ensures SameLeaves(order, Range(n)) && Distinct(order)
    ensures forall x: nat :: x in order <==> x < n
  {
    forall x: nat
      ensures Occurrences(order, x) == Occurrences(Range(n), x)
      ensures x in order <==> x < n
    {
      RangeOccurrences(n, x);
      assert x in order <==> Occurrences(order, x) > 0;
    }
    forall i, j | 0 <= i < j < |order|
      ensures order[i] != order[j]
    {
      var x := order[i];
      assert order == order[..j] + order[j..];
      assert Occurrences(order, x) == Occurrences(order[..j], x) + Occurrences(order[j..], x);
      assert order[..j][i] == x && x in order[..j];
      assert order[j..][0] == order[j] && order[j] in order[j..];
    }
  }

  lemma OccurrencesAppend(a: seq<nat>, b: seq<nat>, x: nat)
    ensures Occurrences(a + b, x) == Occurrences(a, x) + Occurrences(b, x)
  {
  }

  lemma OnlyEmptyHasNoLeaves(b: seq<nat>)
    requires SameLeaves([], b)
    ensures b == []
  {
    assert b != [] ==> Occurrences(b, b[0]) > 0;
    assert forall x: nat :: Occurrences([], x) == 0;
  }

  /** Two orders of the same leaves: the first leaf of one is in the other, and what is left agrees. */
  lemma FirstLeaf(a: seq<nat>, b: seq<nat>) returns (k: nat)
    requires SameLeaves(a, b) && a != []
    ensures k < |b| && b[k] == a[0] && SameLeaves(a[1..], b[..k] + b[k + 1..])
    ensures a == [a[0]] + a[1..] && b == b[..k] + ([a[0]] + b[k + 1..])
  {
    assert Occurrences(a, a[0]) > 0 && Occurrences(b, a[0]) > 0;
    k :| 0 <= k < |b| && b[k] == a[0];
    var l, r := b[..k], b[k + 1..];
    assert a == [a[0]] + a[1..] && b == l + ([b[k]] + r);
    forall x: nat
      ensures Occurrences(a[1..], x) == Occurrences(l + r, x)
    {
      OccurrencesAppend([a[0]], a[1..], x);
      OccurrencesAppend(l, [b[k]] + r, x);
      OccurrencesAppend([b[k]], r, x);
      OccurrencesAppend(l, r, x);
    }
  }

  lemma {:induction false} ShareTotalPermutes(cov: Matrix, cluster: seq<nat>, a: seq<nat>, b: seq<nat>)
    requires SameLeaves(a, b)
    ensures ShareTotal(cov, cluster, a) == ShareTotal(cov, cluster, b)
  {
    hide Share, SameLeaves;
    if a == [] {
      OnlyEmptyHasNoLeaves(b);
    } else {
      var k := FirstLeaf(a, b);
      var l, r := b[..k], b[k + 1..];
      ShareTotalPermutes(cov, cluster, a[1..], l + r);
      TotalAppend(cov, cluster, l, [a[0]] + r);
      TotalAppend(cov, cluster, l, r);
      assert ([a[0]] + r)[1..] == r;
    }
  }

  lemma {:induction false} NumTotalIsShareTotal(cov: Matrix, cluster: seq<nat>, ws: seq<Num>)
    requires forall j: nat :: j < |ws| ==> ws[j] == Share(cov, cluster, j)
    ensures NumTotal(ws) == ShareTotal(cov, cluster, Range(|ws|))
  {
    hide Share;
    if ws != [] {
      var n := |ws|;
      NumTotalIsShareTotal(cov, cluster, ws[..n - 1]);
      TotalAppend(cov, cluster, Range(n - 1), [n - 1]);
      assert [n - 1][1..] == [];
    }
  }

  lemma {:induction false} ZeroTotal(ws: seq<Num>, j: nat)
    requires forall k :: 0 <= k < |ws| ==> ValueOf(ws[k]) >= 0.0
    ensures NumTotal(ws) >= 0.0
    ensures NumTotal(ws) == 0.0 && j < |ws| ==> ValueOf(ws[j]) == 0.0
  {
    if ws != [] {
      ZeroTotal(ws[..|ws| - 1], j);
    }
  }

  // ----- the two halves of a split carry the same risk

  /** The weight that some leaves hold together. */
  function Held(weights: seq<Num>, leaves: seq<nat>): real
    requires forall k :: 0 <= k < |leaves| ==> leaves[k] < |weights|
  {
    if leaves == [] then 0.0 else ValueOf(weights[leaves[0]]) + Held(weights, leaves[1..])
  }

  /** Halving the order again and again, the recursion comes to this cluster. */
  predicate Reaches(order: seq<nat>, cluster: seq<nat>)
    decreases |order|
  {
    cluster == order || (|order| >= 2 && (Reaches(Left(order), cluster) || Reaches(Right(order), cluster)))
  }

  ghost predicate AllNumbers(weights: seq<Num>, leaves: seq<nat>) {
    forall k :: 0 <= k < |leaves| ==> leaves[k] < |weights| && weights[leaves[k]].Fin?
  }

  /** The weight of the left half times its variance is the weight of the right half times its variance. */
  ghost predicate Balanced(cov: Matrix, weights: seq<Num>, cluster: seq<nat>)
    requires |cluster| >= 2 && AllNumbers(weights, cluster)
  {
    Held(weights, Left(cluster)) * ClusterVariance(cov, Left(cluster))
    == Held(weights, Right(cluster)) * ClusterVariance(cov, Right(cluster))
  }

  /** Every split of the recursion is balanced whose halves have variances that are not negative and whose
      weights are numbers. */
  ghost predicate RiskParity(cov: Matrix, weights: seq<Num>, order: seq<nat>) {
    forall cluster :: Reaches(order, cluster) && HasRisk(cov, weights, cluster) ==> Balanced(cov, weights, cluster)
  }

  ghost predicate HasRisk(cov: Matrix, weights: seq<Num>, cluster: seq<nat>) {
    && |cluster| >= 2 && AllNumbers(weights, cluster)
    && ClusterVariance(cov, Left(cluster)) >= 0.0 && ClusterVariance(cov, Right(cluster)) >= 0.0
  }

  /** Every leaf of a cluster that is reached has the same factor in front of its share of the cluster. */
  lemma {:induction false} PathFactor(cov: Matrix, order: seq<nat>, cluster: seq<nat>) returns (p: Num)
    requires Reaches(order, cluster) && Distinct(order)
    ensures Distinct(cluster)
    ensures forall j :: j in cluster ==> j in order && Share(cov, order, j) == Mul(p, Share(cov, cluster, j))
    decreases |order|
  {
    if cluster == order {
      p := Fin(1.0);
      forall j | j in cluster
        ensures Share(cov, order, j) == Mul(p, Share(cov, cluster, j))
      {
        MulOne(Share(cov, cluster, j));
      }
    } else {
      Halves(order);
      hide Alpha, Mul;
      var alpha, inLeft := Alpha(cov, order), Reaches(Left(order), cluster);
      var half, factor := if inLeft then Left(order) else Right(order), if inLeft then alpha else OneMinus(alpha);
      var rest := PathFactor(cov, half, cluster);
      p := Mul(factor, rest);
      forall j | j in cluster
        ensures j in order && Share(cov, order, j) == Mul(p, Share(cov, cluster, j))
      {
        assert j in half && half != [];
        MulAssociates(factor, rest, Share(cov, cluster, j));
      }
    }
  }

  lemma {:induction false} HeldIsShareTotal(cov: Matrix, cluster: seq<nat>, weights: seq<Num>, leaves: seq<nat>,
                                            c: real)
    requires forall k :: 0 <= k < |leaves| ==>
      leaves[k] < |weights| && ValueOf(weights[leaves[k]]) == Times(c, ValueOf(Share(cov, cluster, leaves[k])))
    ensures Held(weights, leaves) == Times(c, ShareTotal(cov, cluster, leaves))
  {
    hide Share, ValueOf, Times;
    if leaves == [] {
      TimesZero(c);
    } else {
      HeldIsShareTotal(cov, cluster, weights, leaves[1..], c);
      TimesAdds(c, ValueOf(Share(cov, cluster, leaves[0])), ShareTotal(cov, cluster, leaves[1..]));
    }
  }

  lemma Quotient(x: real, y: real, total: real)
    requires total != 0.0
    ensures Times(x, y) / total == Times(x / total, y)
  {
    var q := x / total;
    assert q * total == x;
    assert (q * y) * total == (q * total) * y;
    QuotientIs(x * y, total, q * y);
  }

  lemma OutOfRange(q: real, total: real)
    requires total > 0.0
    ensures q < 0.0 ==> q * total < 0.0
    ensures q > 1.0 ==> q * total > total
  {
    if q > 1.0 {
      assert (q - 1.0) * total > 0.0;
    }
  }

  /** The factor gives the half with the smaller variance the larger part. */
  lemma SplitBalances(left: real, right: real, c: real)
    requires left >= 0.0 && right >= 0.0 && SplitFactor(left, right).Fin?
    ensures var alpha := SplitFactor(left, right).v;
      Times(c, Times(alpha, 1.0)) * left == Times(c, Times(1.0 - alpha, 1.0)) * right
  {
    var alpha, total := SplitFactor(left, right).v, left + right;
    assert total > 0.0;
    var q := left / total;
    assert q * total == left;
    OutOfRange(q, total);
    assert alpha == 1.0 - q;
    assert alpha * left == q * right;
    assert (c * alpha) * left == c * (alpha * left) && (c * q) * right == c * (q * right);
  }

  /** What normalising a share of the leaf order makes of it. */
  ghost predicate FromShares(cov: Matrix, order: seq<nat>, weights: seq<Num>, total: real) {
    forall j: nat :: j in order && j < |weights| && weights[j].Fin? ==>
      total != 0.0 && Share(cov, order, j).Fin? && weights[j].v == Share(cov, order, j).v / total
  }

  ghost predicate ScaledShares(cov: Matrix, cluster: seq<nat>, weights: seq<Num>, c: real) {
    forall j: nat :: j in cluster ==> j < |weights| && ValueOf(weights[j]) == Times(c, ValueOf(Share(cov, cluster, j)))
  }

  /** The weights of a cluster that are all numbers are its shares times one factor. */
  lemma ClusterWeights(cov: Matrix, order: seq<nat>, cluster: seq<nat>, weights: seq<Num>, total: real)
    returns (c: real)
    requires Distinct(order) && FromShares(cov, order, weights, total)
    requires Reaches(order, cluster) && |cluster| >= 2 && AllNumbers(weights, cluster)
    ensures !Blind(cov, cluster) && Distinct(cluster) && ScaledShares(cov, cluster, weights, c)
  {
    hide Share, Times, Reaches, Blind, Distinct;
    var p := PathFactor(cov, order, cluster);
    c := if total == 0.0 then 0.0 else ValueOf(p) / total;
    forall j: nat | j in cluster
      ensures j < |weights| && Share(cov, cluster, j).Fin?
      ensures ValueOf(weights[j]) == Times(c, ValueOf(Share(cov, cluster, j)))
    {
      var k :| 0 <= k < |cluster| && cluster[k] == j;
      Quotient(p.v, Share(cov, cluster, j).v, total);
    }
    if Blind(cov, cluster) {
      var leaf := BlindHasNaN(cov, cluster);
    }
  }

  /** A half holds the cluster's factor times its split factor. */
  lemma HalvesHold(cov: Matrix, cluster: seq<nat>, weights: seq<Num>, c: real)
    requires |cluster| >= 2 && Distinct(cluster) && !Blind(cov, cluster)
    requires AllNumbers(weights, cluster) && ScaledShares(cov, cluster, weights, c)
    ensures Alpha(cov, cluster).Fin?
    ensures var alpha := Alpha(cov, cluster).v;
      && Held(weights, Left(cluster)) == Times(c, Times(alpha, 1.0))
      && Held(weights, Right(cluster)) == Times(c, Times(1.0 - alpha, 1.0))
  {
    assert !Blind(cov, Left(cluster)) && !Blind(cov, Right(cluster));
    var l, r := Left(cluster), Right(cluster);
    assert forall k :: 0 <= k < |l| ==> l[k] == cluster[k];
    assert forall k :: 0 <= k < |r| ==> r[k] == cluster[|l| + k];
    hide *;
    Halves(cluster);
    HalfHolds(cov, cluster, l, 0, weights, c);
    HalfHolds(cov, cluster, r, |l|, weights, c);
    ScaledTotals(cov, cluster);
    SharesSumToOne(cov, l);
    SharesSumToOne(cov, r);
  }

  lemma HalfHolds(cov: Matrix, cluster: seq<nat>, half: seq<nat>, at: nat, weights: seq<Num>, c: real)
    requires AllNumbers(weights, cluster) && ScaledShares(cov, cluster, weights, c)
    requires at + |half| <= |cluster| && forall k :: 0 <= k < |half| ==> half[k] == cluster[at + k]
    ensures AllNumbers(weights, half) && Held(weights, half) == Times(c, ShareTotal(cov, cluster, half))
  {
    hide Share, Times;
    HeldIsShareTotal(cov, cluster, weights, half, c);
  }

  lemma SplitIsBalanced(cov: Matrix, order: seq<nat>, cluster: seq<nat>, weights: seq<Num>, total: real)
    requires Distinct(order) && FromShares(cov, order, weights, total)
    requires Reaches(order, cluster) && HasRisk(cov, weights, cluster)
    ensures Balanced(cov, weights, cluster)
  {
    hide Share, Times, Reaches, Blind, FromShares, ClusterVariance, SplitFactor, ScaledShares, AllNumbers, Distinct;
    var c := ClusterWeights(cov, order, cluster, weights, total);
    HalvesHold(cov, cluster, weights, c);
    SplitBalances(ClusterVariance(cov, Left(cluster)), ClusterVariance(cov, Right(cluster)), c);
  }

  lemma SharesAreRiskParity(cov: Matrix, order: seq<nat>, weights: seq<Num>, total: real)
    requires Distinct(order) && FromShares(cov, order, weights, total)
    ensures RiskParity(cov, weights, order)
  {
    hide Reaches, AllNumbers, Balanced, Distinct, FromShares, ClusterVariance;
    forall cluster | Reaches(order, cluster) && HasRisk(cov, weights, cluster)
      ensures Balanced(cov, weights, cluster)
    {
      SplitIsBalanced(cov, order, cluster, weights, total);
    }
  }

  // ----- in-place bisection

  ghost predicate Multiplied(before: seq<Num>, after: seq<Num>, leaves: seq<nat>, factor: Num) {
    |after| == |before| &&
    forall j: nat :: j < |before| ==> after[j] == if j in leaves then Mul(before[j], factor) else before[j]
  }

  /** Every leaf of the cluster is multiplied by its share, and no other entry changes. */
  ghost predicate Bisected(cov: Matrix, cluster: seq<nat>, before: seq<Num>, after: seq<Num>) {
    |after| == |before| &&
    forall j: nat :: j < |before| ==>
      after[j] == if j in cluster then Mul(before[j], Share(cov, cluster, j)) else before[j]
  }

  lemma MulAssociates(x: Num, y: Num, z: Num)
    ensures Mul(Mul(x, y), z) == Mul(x, Mul(y, z))
  {
    if x.Fin? && y.Fin? && z.Fin? {
      assert x.v * y.v * z.v == x.v * (y.v * z.v);
    }
  }

  lemma MulOne(x: Num)
    ensures Mul(x, Fin(1.0)) == x == Mul(Fin(1.0), x)
  {
  }

  lemma BisectionComposes(cov: Matrix, cluster: seq<nat>, s0: seq<Num>, s1: seq<Num>, s2: seq<Num>, s3: seq<Num>,
                          s4: seq<Num>)
    requires |cluster| >= 2 && Distinct(cluster)
    requires Multiplied(s0, s1, Left(cluster), Alpha(cov, cluster))
    requires Multiplied(s1, s2, Right(cluster), OneMinus(Alpha(cov, cluster)))
    requires Bisected(cov, Left(cluster), s2, s3) && Bisected(cov, Right(cluster), s3, s4)
    ensures Bisected(cov, cluster, s0, s4)
  {
    var l, r, alpha := Left(cluster), Right(cluster), Alpha(cov, cluster);
    Halves(cluster);
    forall j: nat | j < |s0|
      ensures s4[j] == if j in cluster then Mul(s0[j], Share(cov, cluster, j)) else s0[j]
    {
      hide Alpha, Mul;
      assert j in cluster <==> j in l || j in r;
      MulAssociates(s0[j], alpha, Share(cov, l, j));
      MulAssociates(s0[j], OneMinus(alpha), Share(cov, r, j));
    }
  }

  method ScaleLeaves(w: array<Num>, leaves: seq<nat>, factor: Num)
    requires Distinct(leaves) && forall j :: j in leaves ==> j < w.Length
    modifies w
    ensures Multiplied(old(w[..]), w[..], leaves, factor)
  {
    hide Mul;
    for k := 0 to |leaves|
      invariant forall j: nat :: j < w.Length ==> w[j] == if j in leaves[..k] then Mul(old(w[j]), factor) else old(w[j])
    {
      assert leaves[k] in leaves && leaves[k] !in leaves[..k];
      w[leaves[k]] := Mul(w[leaves[k]], factor);
      assert leaves[..k + 1] == leaves[..k] + [leaves[k]];
    }
    assert leaves[..|leaves|] == leaves;
  }

  method Bisect(w: array<Num>, cov: Matrix, cluster: seq<nat>)
    requires Distinct(cluster) && forall j :: j in cluster ==> j < w.Length
    modifies w
    ensures Bisected(cov, cluster, old(w[..]), w[..])
    decreases |cluster|
  {
    if |cluster| < 2 {
      forall j: nat | j < w.Length
        ensures w[j] == if j in cluster then Mul(w[j], Share(cov, cluster, j)) else w[j]
      {
        MulOne(w[j]);
      }
      return;
    }
    ghost var s0 := w[..];
    var mid := |cluster| / 2;
    var left, right := cluster[..mid], cluster[mid..];
    Halves(cluster);
    assert forall j :: j in left || j in right ==> j in cluster;
    var varLeft, varRight := ClusterVariance(cov, left), ClusterVariance(cov, right);
    var alpha := SplitFactor(varLeft, varRight);
    assert alpha == Alpha(cov, cluster);
    hide ClusterVariance, SplitFactor, Alpha, Share, Mul;
    ScaleLeaves(w, left, alpha);
    ghost var s1 := w[..];
    ScaleLeaves(w, right, OneMinus(alpha));
    ghost var s2 := w[..];
    Bisect(w, cov, left);
    ghost var s3 := w[..];
    Bisect(w, cov, right);
    BisectionComposes(cov, cluster, s0, s1, s2, s3, w[..]);
  }

  /** Division of a weight by the total. With a total of zero every weight that is a number is 0, and
      0 / 0 is not a number. */
  function Normalized(x: Num, total: real): Num
    requires total == 0.0 ==> ValueOf(x) == 0.0
  {
    if x.NaN? || total == 0.0 then NaN else Fin(x.v / total)
  }

  /** The allocation. Unless some split meets two halves of variance zero, the weights are the shares
      of the leaf order: non-negative, summing to exactly 1, so the final division changes nothing. If
      some split does, not-a-number reaches the result. Either way every split whose weights are numbers
      gives its halves weights in inverse proportion to their variances. */
  method HrpWeights(cov: Matrix, link: seq<Merge>) returns (weights: array<Num>)
    requires ValidLinkage(link)
    ensures weights.Length == |link| + 1 && fresh(weights)
    ensures !Blind(cov, LeafOrder(link)) ==>
      && NumTotal(weights[..]) == 1.0
      && forall j: nat :: j <= |link| ==>
          weights[j].Fin? && weights[j].v >= 0.0 && weights[j] == Share(cov, LeafOrder(link), j)
    ensures Blind(cov, LeafOrder(link)) <==> exists j: nat :: j <= |link| && weights[j].NaN?
    ensures RiskParity(cov, weights[..], LeafOrder(link))
  {
    var n := |link| + 1;
    weights := new Num[n](_ => Fin(1.0));
    ghost var ones := weights[..];
    var order := QuasiDiagonal(link);
    PermutationOfRange(order, n);
    Bisect(weights, cov, order);
    forall j: nat | j < n
      ensures weights[j] == Share(cov, order, j)
    {
      assert ones[j] == Fin(1.0);
      MulOne(Share(cov, order, j));
    }
    ghost var shares := weights[..];
    hide Share, Blind;
    var total := SumOf(weights);
    TotalOfShares(cov, order, shares);
    Normalize(weights, total);
    NormalizedShares(cov, order, shares, weights[..], total);
    SharesAreRiskParity(cov, order, weights[..], total);
  }

  method Normalize(w: array<Num>, total: real)
    requires total == NumTotal(w[..]) && forall k :: 0 <= k < w.Length ==> ValueOf(w[k]) >= 0.0
    modifies w
    ensures forall k :: 0 <= k < w.Length ==>
      (total == 0.0 ==> ValueOf(old(w[k])) == 0.0) && w[k] == Normalized(old(w[k]), total)
  {
    ghost var before := w[..];
    for j := 0 to w.Length
      invariant forall k :: j <= k < w.Length ==> w[k] == before[k]
      invariant forall k :: 0 <= k < j ==>
        (total == 0.0 ==> ValueOf(before[k]) == 0.0) && w[k] == Normalized(before[k], total)
    {
      ZeroTotal(before, j);
      w[j] := Normalized(w[j], total);
    }
  }

  method SumOf(w: array<Num>) returns (total: real)
    ensures total == NumTotal(w[..])
  {
    total := 0.0;
    for i := 0 to w.Length
      invariant total == NumTotal(w[..i])
    {
      assert w[..i + 1][..i] == w[..i];
      total := total + ValueOf(w[i]);
    }
    assert w[..w.Length] == w[..];
  }

  lemma TotalOfShares(cov: Matrix, order: seq<nat>, shares: seq<Num>)
    requires shares != [] && IsPermutation(order, |shares|)
    requires forall j: nat :: j < |shares| ==> shares[j] == Share(cov, order, j)
    ensures forall j: nat :: j < |shares| ==> ValueOf(shares[j]) >= 0.0
    ensures !Blind(cov, order) ==> NumTotal(shares) == 1.0 && forall j: nat :: j < |shares| ==> shares[j].Fin?
    ensures Blind(cov, order) <==> exists j: nat :: j < |shares| && shares[j].NaN?
  {
    PermutationOfRange(order, |shares|);
    forall j: nat | j < |shares|
      ensures ValueOf(shares[j]) >= 0.0 && (!Blind(cov, order) ==> shares[j].Fin?)
    {
      ShareIsNumber(cov, order, j);
    }
    if Blind(cov, order) {
      var leaf := BlindHasNaN(cov, order);
      assert shares[leaf].NaN?;
    } else {
      assert 0 in order;
      SharesSumToOne(cov, order);
      ShareTotalPermutes(cov, order, order, Range(|shares|));
      NumTotalIsShareTotal(cov, order, shares);
    }
  }

  lemma NormalizedShares(cov: Matrix, order: seq<nat>, shares: seq<Num>, weights: seq<Num>, total: real)
    requires shares != [] && IsPermutation(order, |shares|) && |weights| == |shares| && total == NumTotal(shares)
    requires forall j: nat :: j < |shares| ==> shares[j] == Share(cov, order, j)
    requires forall k: nat :: k < |shares| ==>
      (total == 0.0 ==> ValueOf(shares[k]) == 0.0) && weights[k] == Normalized(shares[k], total)
    ensures !Blind(cov, order) ==> weights == shares
    ensures Blind(cov, order) <==> exists j: nat :: j < |weights| && weights[j].NaN?
    ensures FromShares(cov, order, weights, total)
  {
    TotalOfShares(cov, order, shares);
    if Blind(cov, order) {
      var j: nat :| j < |shares| && shares[j].NaN?;
      assert weights[j].NaN?;
    } else {
      assert weights == shares;
    }
  }
}
