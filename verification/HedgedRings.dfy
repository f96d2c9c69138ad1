/** A covariance of returns for which every single-linkage tree gives the allocator a split of zero by
    zero: two independent rings of six assets, each of which sums to nothing. */
module HedgedRings {
  import opened HrpAllocator

  const ASSETS := 12

  function Ring(i: nat): nat {
    i / 6
  }

  function Turn(i: nat, j: nat): nat {
    (i + 6 - j % 6) % 6
  }

  /** Neighbours in a ring have correlation 1/2, the next ones -1/2, opposite ones -1; assets of different
      rings have none. */
  function Rings(i: nat, j: nat): real {
    if Ring(i) != Ring(j) then 0.0
    else
      var d := Turn(i, j);
      if d == 0 then 1.0 else if d == 1 || d == 5 then 0.5 else if d == 3 then -1.0 else -0.5
  }

  // ----- single linkage

  /** The square of the distance that is clustered on. */
  function Distance2(cov: Matrix, i: nat, j: nat): real {
    2.0 * (1.0 - cov(i, j))
  }

  ghost predicate IsClosest(cov: Matrix, link: seq<Merge>, i: nat, x: nat, y: nat)
    requires i < |link|
  {
    && x <= |link| && y <= |link| && Owner(link, i, x) == link[i].left && Owner(link, i, y) == link[i].right
    && forall p: nat, q: nat :: p <= |link| && q <= |link| && Owner(link, i, p) != Owner(link, i, q) ==>
         Distance2(cov, x, y) <= Distance2(cov, p, q)
  }

  /** Every merge joins two clusters that hold a closest pair of leaves in different clusters. Which of the
      two is the left one is left open, so any reordering of a tree's branches is covered. */
  ghost predicate SingleLinkage(cov: Matrix, link: seq<Merge>) {
    ValidLinkage(link) && forall i: nat :: i < |link| ==> JoinsClosest(cov, link, i)
  }

  ghost predicate JoinsClosest(cov: Matrix, link: seq<Merge>, i: nat)
    requires i < |link|
  {
    exists x: nat, y: nat :: IsClosest(cov, link, i, x, y)
  }

  // ----- every such tree joins each ring before it joins the rings

  /** No cluster has leaves of both rings after i merges. */
  ghost predicate Pure(link: seq<Merge>, i: nat)
    requires i <= |link|
  {
    forall p: nat, q: nat :: p < ASSETS && q < ASSETS && Owner(link, i, p) == Owner(link, i, q) ==> Ring(p) == Ring(q)
  }

  function Next(p: nat): nat {
    if p % 6 == 5 then p - 5 else p + 1
  }

  lemma NextIsClose(p: nat)
    requires p < ASSETS
    ensures Next(p) < ASSETS && Ring(Next(p)) == Ring(p) && Rings(p, Next(p)) == 0.5
  {
  }

  lemma {:induction false} LeavesNotEmpty(link: seq<Merge>, id: nat)
    requires ValidLinkage(link) && id <= 2 * |link|
    ensures Leaves(link, id) != []
  {
    if id >= |link| + 1 {
      LeavesNotEmpty(link, link[id - |link| - 1].left);
    }
  }

  lemma ActiveOwns(link: seq<Merge>, i: nat, id: nat) returns (leaf: nat)
    requires ValidLinkage(link) && i <= |link| && id in Active(link, i)
    ensures leaf <= |link| && Owner(link, i, leaf) == id
  {
    PartitionHolds(link, i);
    LeavesNotEmpty(link, id);
    leaf := Leaves(link, id)[0];
    assert leaf in Leaves(link, id);
    assert HoldsOwned(link, i, id, leaf);
  }

  ghost predicate RingsTogether(link: seq<Merge>, i: nat)
    requires i <= |link|
  {
    forall q: nat :: q < ASSETS ==> Owner(link, i, q) == Owner(link, i, Next(q))
  }

  lemma {:induction false} SameOwnerRound(link: seq<Merge>, i: nat, p: nat)
    requires i <= |link| && p < ASSETS && RingsTogether(link, i)
    ensures Owner(link, i, p) == Owner(link, i, 6 * Ring(p))
  {
    if p % 6 != 0 {
      hide Owner;
      SameOwnerRound(link, i, p - 1);
      assert Next(p - 1) == p && Ring(p - 1) == Ring(p);
    }
  }

  lemma TwoClusters(link: seq<Merge>, i: nat)
    requires ValidLinkage(link) && |link| == ASSETS - 1 && i <= |link| && RingsTogether(link, i)
    ensures |Active(link, i)| <= 2
  {
    var two := {Owner(link, i, 0), Owner(link, i, 6)};
    forall id | id in Active(link, i)
      ensures id in two
    {
      var leaf := ActiveOwns(link, i, id);
      hide Owner, Active, ValidLinkage, RingsTogether;
      SameOwnerRound(link, i, leaf);
    }
    hide *;
    Subset(Active(link, i), two);
  }

  /** As long as more than two clusters are left, some neighbours are in different ones. */
  lemma SomeNeighboursApart(link: seq<Merge>, i: nat) returns (p: nat)
    requires ValidLinkage(link) && |link| == ASSETS - 1 && i < 10
    ensures p < ASSETS && Owner(link, i, p) != Owner(link, i, Next(p))
  {
    hide Owner, Active, ValidLinkage;
    ActiveCount(link, i);
    if RingsTogether(link, i) {
      TwoClusters(link, i);
    }
    p :| p < ASSETS && Owner(link, i, p) != Owner(link, i, Next(p));
  }

  lemma Subset(s: set<nat>, two: set<nat>)
    requires forall x :: x in s ==> x in two
    ensures |s| <= |two|
  {
    assert two == s + (two - s);
  }

  lemma CloseIsSameRing(x: nat, y: nat, p: nat)
    requires p < ASSETS && Distance2(Rings, x, y) <= Distance2(Rings, p, Next(p))
    ensures Ring(x) == Ring(y)
  {
    NextIsClose(p);
  }

  lemma PureStep(link: seq<Merge>, i: nat)
    requires SingleLinkage(Rings, link) && |link| == ASSETS - 1 && i < 10 && Pure(link, i)
    ensures Pure(link, i + 1)
  {
    var p := SomeNeighboursApart(link, i);
    NextIsClose(p);
    assert JoinsClosest(Rings, link, i);
    var x: nat, y: nat :| IsClosest(Rings, link, i, x, y);
    CloseIsSameRing(x, y, p);
    forall a: nat, b: nat | a < ASSETS && b < ASSETS && Owner(link, i + 1, a) == Owner(link, i + 1, b)
      ensures Ring(a) == Ring(b)
    {
      OwnerIsOlder(link, i, a);
      OwnerIsOlder(link, i, b);
      hide Rings, Ring, Distance2, ValidLinkage;
      assert Owner(link, i, a) == link[i].left ==> Ring(a) == Ring(x);
      assert Owner(link, i, a) == link[i].right ==> Ring(a) == Ring(y);
      assert Owner(link, i, b) == link[i].left ==> Ring(b) == Ring(x);
      assert Owner(link, i, b) == link[i].right ==> Ring(b) == Ring(y);
    }
  }

  lemma {:induction false} PureHolds(link: seq<Merge>, i: nat)
    requires SingleLinkage(Rings, link) && |link| == ASSETS - 1 && i <= 10
    ensures Pure(link, i)
  {
    if i > 0 {
      PureHolds(link, i - 1);
      PureStep(link, i - 1);
    }
  }

  /** The assets of a ring. */
  function RingAssets(ring: nat): seq<nat> {
    [6 * ring, 6 * ring + 1, 6 * ring + 2, 6 * ring + 3, 6 * ring + 4, 6 * ring + 5]
  }

  lemma RingOccurrences(ring: nat, x: nat)
    ensures Occurrences(RingAssets(ring), x) == if Ring(x) == ring then 1 else 0
  {
  }

  lemma PairIs(s: set<nat>, a: nat, b: nat, c: nat, d: nat)
    requires |s| == 2 && a in s && b in s && a != b && c in s && d in s && c != d
    ensures (a == c && b == d) || (a == d && b == c)
  {
    assert |s - {a} - {b}| == 0;
  }

  /** The last merge joins the two rings. */
  lemma RingsMeetLast(link: seq<Merge>) returns (r: nat)
    requires SingleLinkage(Rings, link) && |link| == ASSETS - 1
    ensures link[10].left < 22 && link[10].right < 22 && r <= 1
    ensures SameLeaves(Leaves(link, link[10].left), RingAssets(r))
    ensures SameLeaves(Leaves(link, link[10].right), RingAssets(1 - r))
  {
    PureHolds(link, 10);
    ActiveCount(link, 10);
    ActiveStep(link, 10);
    OwnerIsActive(link, 10, 0);
    OwnerIsActive(link, 10, 6);
    var left, right := link[10].left, link[10].right;
    PairIs(Active(link, 10), left, right, Owner(link, 10, 0), Owner(link, 10, 6));
    r := if left == Owner(link, 10, 0) then 0 else 1;
    hide Owner, Active, Leaves, SameLeaves, Pure;
    RingCluster(link, left, r);
    RingCluster(link, right, 1 - r);
  }

  lemma RingCluster(link: seq<Merge>, id: nat, r: nat)
    requires ValidLinkage(link) && |link| == ASSETS - 1 && Pure(link, 10) && r <= 1
    requires id in Active(link, 10) && id == Owner(link, 10, 6 * r)
    ensures SameLeaves(Leaves(link, id), RingAssets(r))
  {
    PartitionHolds(link, 10);
    forall x: nat
      ensures Occurrences(Leaves(link, id), x) == Occurrences(RingAssets(r), x)
    {
      assert HoldsOwned(link, 10, id, x);
      RingOccurrences(r, x);
      hide Active, Leaves, ValidLinkage, Owner, Partitioned, Pure, RingAssets;
      if x < ASSETS {
        OwnedByRing(link, x, r);
      }
    }
    hide *;
    LeavesAgree(Leaves(link, id), RingAssets(r));
  }

  lemma LeavesAgree(a: seq<nat>, b: seq<nat>)
    requires forall x: nat :: Occurrences(a, x) == Occurrences(b, x)
    ensures SameLeaves(a, b)
  {
  }

  lemma OwnedByRing(link: seq<Merge>, x: nat, r: nat)
    requires ValidLinkage(link) && |link| == ASSETS - 1 && Pure(link, 10) && r <= 1 && x < ASSETS
    ensures Owner(link, 10, x) == Owner(link, 10, 6 * r) <==> Ring(x) == r
  {
    hide Owner, Active, ValidLinkage;
    ActiveCount(link, 10);
    OwnerIsActive(link, 10, 0);
    OwnerIsActive(link, 10, 6);
    OwnerIsActive(link, 10, x);
    OneOfTwo(Active(link, 10), Owner(link, 10, 0), Owner(link, 10, 6), Owner(link, 10, x));
  }

  lemma OneOfTwo(s: set<nat>, a: nat, b: nat, c: nat)
    requires |s| == 2 && a in s && b in s && a != b && c in s
    ensures c == a || c == b
  {
    assert |s - {a} - {b}| == 0;
  }

  // ----- a whole ring has no variance

  lemma {:induction false} RowAppend(cov: Matrix, i: nat, a: seq<nat>, b: seq<nat>, w: real)
    ensures RowDot(cov, i, a + b, w) == RowDot(cov, i, a, w) + RowDot(cov, i, b, w)
  {
    if a == [] {
      assert a + b == b;
    } else {
      RowAppend(cov, i, a[1..], b, w);
      assert (a + b)[1..] == a[1..] + b;
    }
  }

  lemma {:induction false} RowPermutes(cov: Matrix, i: nat, a: seq<nat>, b: seq<nat>, w: real)
    requires SameLeaves(a, b)
    ensures |a| == |b| && RowDot(cov, i, a, w) == RowDot(cov, i, b, w)
  {
    hide SameLeaves;
    if a == [] {
      OnlyEmptyHasNoLeaves(b);
    } else {
      var k := FirstLeaf(a, b);
      var l, r := b[..k], b[k + 1..];
      RowPermutes(cov, i, a[1..], l + r, w);
      RowAppend(cov, i, l, [a[0]] + r, w);
      RowAppend(cov, i, l, r, w);
      assert ([a[0]] + r)[1..] == r;
    }
  }

  lemma Distribute(a: real, b: real, c: real, d: real, e: real, f: real, w: real)
    ensures a * w + b * w + c * w + (d * w + e * w + f * w) == (a + b + c + d + e + f) * w
  {
  }

  lemma RowOfSix(cov: Matrix, i: nat, a: nat, b: nat, c: nat, d: nat, e: nat, f: nat, w: real)
    ensures RowDot(cov, i, [a, b, c, d, e, f], w)
         == Times(cov(i, a) + cov(i, b) + cov(i, c) + cov(i, d) + cov(i, e) + cov(i, f), w)
  {
    hide RowDot;
    RowAppend(cov, i, [a, b, c], [d, e, f], w);
    assert [a, b, c, d, e, f] == [a, b, c] + [d, e, f];
    RowOfThree(cov, i, a, b, c, w);
    RowOfThree(cov, i, d, e, f, w);
    Distribute(cov(i, a), cov(i, b), cov(i, c), cov(i, d), cov(i, e), cov(i, f), w);
  }

  lemma RowOfThree(cov: Matrix, i: nat, a: nat, b: nat, c: nat, w: real)
    ensures RowDot(cov, i, [a, b, c], w) == cov(i, a) * w + cov(i, b) * w + cov(i, c) * w
  {
    assert [a, b, c][1..] == [b, c] && [b, c][1..] == [c] && [c][1..] == [];
    assert RowDot(cov, i, [c], w) == cov(i, c) * w + RowDot(cov, i, [], w);
    assert RowDot(cov, i, [b, c], w) == cov(i, b) * w + RowDot(cov, i, [c], w);
  }

  lemma RingsIgnorePlace(i: nat, j: nat)
    requires i < ASSETS && j < ASSETS && Ring(i) == Ring(j)
    ensures Rings(i, j) == Rings(i % 6, j % 6)
  {
  }

  lemma FirstRingAddsUp(k: nat)
    requires k < 6
    ensures Rings(k, 0) + Rings(k, 1) + Rings(k, 2) + Rings(k, 3) + Rings(k, 4) + Rings(k, 5) == 0.0
  {
    match k {
      case 0 => case 1 => case 2 => case 3 => case 4 => case _ =>
    }
  }

  /** The correlations of one asset with its whole ring add up to nothing. */
  lemma RingAddsUp(i: nat, a: nat)
    requires i < ASSETS && a == 6 * Ring(i)
    ensures Rings(i, a) + Rings(i, a + 1) + Rings(i, a + 2) + Rings(i, a + 3) + Rings(i, a + 4) + Rings(i, a + 5) == 0.0
  {
    forall d: nat | d < 6
      ensures Rings(i, a + d) == Rings(i % 6, d)
    {
      RingsIgnorePlace(i, a + d);
    }
    FirstRingAddsUp(i % 6);
    hide Rings;
    assert Rings(i, a + 0) == Rings(i % 6, 0);
  }

  lemma NothingTimes(x: real, w: real)
    requires x == 0.0
    ensures Times(x, w) == 0.0
  {
  }

  lemma RingRow(i: nat, w: real)
    requires i < ASSETS
    ensures RowDot(Rings, i, RingAssets(Ring(i)), w) == 0.0
  {
    var a := 6 * Ring(i);
    assert RingAssets(Ring(i)) == [a, a + 1, a + 2, a + 3, a + 4, a + 5];
    hide *;
    RingAddsUp(i, a);
    RowOfSix(Rings, i, a, a + 1, a + 2, a + 3, a + 4, a + 5, w);
    NothingTimes(Rings(i, a) + Rings(i, a + 1) + Rings(i, a + 2) + Rings(i, a + 3) + Rings(i, a + 4)
                 + Rings(i, a + 5), w);
  }

  lemma {:induction false} NoVariance(rows: seq<nat>, cols: seq<nat>, w: real)
    requires forall x :: x in rows ==> RowDot(Rings, x, cols, w) == 0.0
    ensures QuadraticForm(Rings, rows, cols, w) == 0.0
  {
    if rows != [] {
      NoVariance(rows[1..], cols, w);
      assert rows[0] in rows;
    }
  }

  lemma RingHasNoVariance(cluster: seq<nat>, r: nat)
    requires r <= 1 && SameLeaves(cluster, RingAssets(r))
    ensures |cluster| == 6 && ClusterVariance(Rings, cluster) == 0.0
  {
    RowPermutes(Rings, 0, cluster, RingAssets(r), 1.0);
    var w := 1.0 / |cluster| as real;
    forall x | x in cluster
      ensures RowDot(Rings, x, cluster, w) == 0.0
    {
      assert Occurrences(cluster, x) == Occurrences(RingAssets(r), x);
      RingOccurrences(r, x);
      RowPermutes(Rings, x, cluster, RingAssets(r), w);
      RingRow(x, w);
    }
    NoVariance(cluster, cluster, w);
  }

  /** Whatever single-linkage tree the rings are given, and however its branches are ordered, the first
      split of its leaf order meets two halves of variance zero, so that HrpWeights returns weights that
      are not numbers. */
  lemma HedgedRingsAreBlind(link: seq<Merge>)
    requires SingleLinkage(Rings, link) && |link| == ASSETS - 1
    ensures Blind(Rings, LeafOrder(link))
  {
    hide Leaves, SameLeaves, Rings, Blind, JoinsClosest;
    var r := RingsMeetLast(link);
    LeavesOfMerge(link, 10);
    LeafOrderIsRoot(link);
    RingHasNoVariance(Leaves(link, link[10].left), r);
    RingHasNoVariance(Leaves(link, link[10].right), 1 - r);
    BlindHalves(Rings, Leaves(link, link[10].left), Leaves(link, link[10].right));
  }

  lemma LeafOrderIsRoot(link: seq<Merge>)
    requires ValidLinkage(link) && |link| == ASSETS - 1
    ensures LeafOrder(link) == Leaves(link, 22)
  {
    hide Leaves;
  }

  lemma BlindHalves(cov: Matrix, a: seq<nat>, b: seq<nat>)
    requires |a| == |b| == 6 && ClusterVariance(cov, a) == 0.0 && ClusterVariance(cov, b) == 0.0
    ensures Blind(cov, a + b)
  {
    assert Left(a + b) == a && Right(a + b) == b;
    hide ClusterVariance;
  }

  // ----- such trees exist

  /** The first ring is chained together, then the second, then the two are joined. */
  function RingMerge(i: nat): Merge {
    if i < 5 then Merge(if i == 0 then 0 else 11 + i, i + 1)
    else if i < 10 then Merge(if i == 5 then 6 else 11 + i, i + 2)
    else Merge(16, 21)
  }

  function RingTree(): (link: seq<Merge>)
    ensures |link| == ASSETS - 1 && forall i: nat :: i < |link| ==> link[i] == RingMerge(i)
  {
    seq(ASSETS - 1, i requires 0 <= i < ASSETS - 1 => RingMerge(i))
  }

  /** The cluster of a leaf after i merges. */
  function RingOwner(i: nat, leaf: nat): nat {
    if leaf < 6 then
      if i == 0 || leaf > i then leaf else if i <= 5 then 11 + i else if i <= 10 then 16 else 22
    else
      if i <= 5 || leaf > i + 1 then leaf else if i <= 10 then 11 + i else 22
  }

  lemma {:induction false} RingOwnerIs(i: nat, leaf: nat)
    requires i <= ASSETS - 1 && leaf < ASSETS
    ensures Owner(RingTree(), i, leaf) == RingOwner(i, leaf)
  {
    if i > 0 {
      RingOwnerIs(i - 1, leaf);
      assert RingTree()[i - 1] == RingMerge(i - 1);
    }
  }

  lemma RingTreeIsValid()
    ensures ValidLinkage(RingTree())
  {
    forall i, j, id | 0 <= i < j < ASSETS - 1 && Uses(RingMerge(i), id)
      ensures !Uses(RingMerge(j), id)
    {
    }
    var link := RingTree();
    assert forall i, j, id :: 0 <= i < j < |link| && Uses(link[i], id) ==>
      link[i] == RingMerge(i) && link[j] == RingMerge(j);
  }

  lemma OthersAreFurther(p: nat, q: nat)
    requires p != q && p < ASSETS && q < ASSETS
    ensures Rings(p, q) <= 0.5
  {
  }

  lemma NoPairCloser(i: nat, x: nat, y: nat, p: nat, q: nat)
    requires i < ASSETS - 1 && p < ASSETS && q < ASSETS && RingOwner(i, p) != RingOwner(i, q)
    requires if i < 10 then Rings(x, y) == 0.5 else Ring(x) != Ring(y)
    ensures Distance2(Rings, x, y) <= Distance2(Rings, p, q)
  {
    if i < 10 {
      OthersAreFurther(p, q);
    } else {
      assert Ring(p) != Ring(q);
    }
  }

  function PairLeft(i: nat): nat {
    if i < 5 then i else if i < 10 then i + 1 else 0
  }

  function PairRight(i: nat): nat {
    if i < 5 then i + 1 else if i < 10 then i + 2 else 6
  }

  lemma PairIsClose(i: nat)
    requires i < ASSETS - 1
    ensures PairLeft(i) < ASSETS && PairRight(i) < ASSETS
    ensures if i < 10 then Rings(PairLeft(i), PairRight(i)) == 0.5 else Ring(PairLeft(i)) != Ring(PairRight(i))
  {
    if i < 10 {
      NextIsClose(PairLeft(i));
      hide Rings;
    }
  }

  lemma PairIsMerged(i: nat)
    requires i < ASSETS - 1
    ensures RingOwner(i, PairLeft(i)) == RingMerge(i).left && RingOwner(i, PairRight(i)) == RingMerge(i).right
  {
  }

  lemma RingPair(i: nat) returns (x: nat, y: nat)
    requires i < ASSETS - 1
    ensures x < ASSETS && y < ASSETS
    ensures Owner(RingTree(), i, x) == RingTree()[i].left && Owner(RingTree(), i, y) == RingTree()[i].right
    ensures if i < 10 then Rings(x, y) == 0.5 else Ring(x) != Ring(y)
  {
    hide *;
    x, y := PairLeft(i), PairRight(i);
    PairIsClose(i);
    PairIsMerged(i);
    RingOwnerIs(i, x);
    RingOwnerIs(i, y);
    assert RingTree()[i] == RingMerge(i);
  }

  lemma RingTreeJoins(i: nat)
    requires i < ASSETS - 1
    ensures JoinsClosest(Rings, RingTree(), i)
  {
    hide Owner, RingOwner, Rings, RingTree, Ring, RingMerge;
    var link := RingTree();
    var x, y := RingPair(i);
    forall p: nat, q: nat | p <= |link| && q <= |link| && Owner(link, i, p) != Owner(link, i, q)
      ensures Distance2(Rings, x, y) <= Distance2(Rings, p, q)
    {
      RingOwnerIs(i, p);
      RingOwnerIs(i, q);
      NoPairCloser(i, x, y, p, q);
    }
    assert IsClosest(Rings, link, i, x, y);
  }

  /** The chained tree is one of them. */
  lemma RingTreeIsSingleLinkage()
    ensures SingleLinkage(Rings, RingTree())
  {
    RingTreeIsValid();
    forall i: nat | i < |RingTree()|
      ensures JoinsClosest(Rings, RingTree(), i)
    {
      RingTreeJoins(i);
    }
  }

  // ----- and so do the returns

  /** The returns of one asset on the three days on which its ring moves, as whole numbers. */
  function Move(k: nat, day: nat): int {
    var up := if k <= 1 then 0 else if k <= 3 then 1 else 2;
    var down := if k == 1 || k == 2 then 2 else if k == 0 || k == 5 then 1 else 0;
    if day == up then 1 else if day == down then -1 else 0
  }

  /** Six days of returns: the first ring moves on the first three, the second on the others. */
  function Return(i: nat, day: nat): int {
    if day / 3 == Ring(i) then Move(i % 6, day % 3) else 0
  }

  function Total(i: nat): int {
    Return(i, 0) + Return(i, 1) + Return(i, 2) + Return(i, 3) + Return(i, 4) + Return(i, 5)
  }

  function Products(i: nat, j: nat): int {
    Return(i, 0) * Return(j, 0) + Return(i, 1) * Return(j, 1) + Return(i, 2) * Return(j, 2)
    + Return(i, 3) * Return(j, 3) + Return(i, 4) * Return(j, 4) + Return(i, 5) * Return(j, 5)
  }

  lemma MoveProducts(k: nat, l: nat)
    requires k < 6 && l < 6
    ensures Move(k, 0) + Move(k, 1) + Move(k, 2) == 0
    ensures (Move(k, 0) * Move(l, 0) + Move(k, 1) * Move(l, 1) + Move(k, 2) * Move(l, 2)) as real == 2.0 * Rings(k, l)
  {
    match k {
      case 0 => match l { case 0 => case 1 => case 2 => case 3 => case 4 => case _ => }
      case 1 => match l { case 0 => case 1 => case 2 => case 3 => case 4 => case _ => }
      case 2 => match l { case 0 => case 1 => case 2 => case 3 => case 4 => case _ => }
      case 3 => match l { case 0 => case 1 => case 2 => case 3 => case 4 => case _ => }
      case 4 => match l { case 0 => case 1 => case 2 => case 3 => case 4 => case _ => }
      case _ => match l { case 0 => case 1 => case 2 => case 3 => case 4 => case _ => }
    }
  }

  lemma DaysOf(i: nat)
    requires i < ASSETS
    ensures Ring(i) == 0 || Ring(i) == 1
    ensures Ring(i) == 0 ==>
      && Return(i, 3) == Return(i, 4) == Return(i, 5) == 0
      && Return(i, 0) == Move(i % 6, 0) && Return(i, 1) == Move(i % 6, 1) && Return(i, 2) == Move(i % 6, 2)
    ensures Ring(i) == 1 ==>
      && Return(i, 0) == Return(i, 1) == Return(i, 2) == 0
      && Return(i, 3) == Move(i % 6, 0) && Return(i, 4) == Move(i % 6, 1) && Return(i, 5) == Move(i % 6, 2)
  {
    hide Move;
  }

  /** The rings are, up to a factor, the covariance of these returns, each of which has mean zero. */
  lemma RingsAreACovariance(i: nat, j: nat)
    requires i < ASSETS && j < ASSETS
    ensures Total(i) == 0 && Products(i, j) as real == 2.0 * Rings(i, j)
  {
    DaysOf(i);
    DaysOf(j);
    MoveProducts(i % 6, j % 6);
    hide Move, Return;
    if Ring(i) == Ring(j) {
      RingsIgnorePlace(i, j);
    }
  }
}
