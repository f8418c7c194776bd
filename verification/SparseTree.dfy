/**
 SparseDpf.h: the partition step of the compressed trie, one party's tree, and what the two parties'
 trees have in common while its levels are worked off from the top.
 */
module SparseTree {
  import opened Numbers
  import opened Wrappers
  import opened Blocks
  import opened DpfTree

  // ------------------------------------------------------------- partition

  function Upper(v: nat, k: nat): nat
  {
    PowPositive(2, k);
    v / Pow(2, k)
  }

  ghost predicate SharesUpper(pts: seq<nat>, lo: nat, hi: nat, k: nat)
    requires lo < hi <= |pts|
  {
    forall x :: lo <= x < hi ==> Upper(pts[x], k) == Upper(pts[lo], k)
  }

  ghost predicate Increasing(pts: seq<nat>)
  {
    forall x, y :: 0 <= x < y < |pts| ==> pts[x] < pts[y]
  }

  /** A range and the place where its highest varying bit, delta - 1, turns to one. */
  ghost predicate IsSplit(pts: seq<nat>, lo: nat, mid: nat, hi: nat, delta: nat)
  {
    && lo < hi <= |pts|
    && if hi == lo + 1 then delta == 0 && mid == hi
       else
         && delta >= 1 && lo < mid < hi && SharesUpper(pts, lo, hi, delta)
         && (forall x :: lo <= x < mid ==> !Bit(pts[x], delta - 1))
         && (forall x :: mid <= x < hi ==> Bit(pts[x], delta - 1))
  }

  lemma UpperStep(v: nat, k: nat)
    ensures Upper(v, k) == 2 * Upper(v, k + 1) + Number(Bit(v, k))
  {
    PowPositive(2, k);
    assert Pow(2, k + 1) == 2 * Pow(2, k);
    DivideTwice(v, Pow(2, k), 2);
  }

  lemma UpperMonotone(v: nat, w: nat, k: nat)
    requires v <= w
    ensures Upper(v, k) <= Upper(w, k)
  {
    PowPositive(2, k);
    var m := Pow(2, k);
    assert v == v / m * m + v % m && w == w / m * m + w % m;
    assert (w / m + 1) * m == w / m * m + m;
    if v / m > w / m { MulMono(w / m + 1, v / m, m); }
  }

  /** std::upper_bound with the bit as the order: the first position whose bit is set. */
  function UpperBound(pts: seq<nat>, lo: nat, hi: nat, bit: nat): (m: nat)
    requires lo <= hi <= |pts|
    ensures lo <= m <= hi && (forall x :: lo <= x < m ==> !Bit(pts[x], bit)) && (m < hi ==> Bit(pts[m], bit))
    decreases hi - lo
  {
    if lo == hi || Bit(pts[lo], bit) then lo else UpperBound(pts, lo + 1, hi, bit)
  }

  /** In a sorted range with equal upper bits the bit only turns on once. */
  lemma BitMonotone(pts: seq<nat>, lo: nat, hi: nat, bit: nat, x: nat, y: nat)
    requires lo <= x <= y < hi <= |pts| && Increasing(pts) && SharesUpper(pts, lo, hi, bit + 1) && Bit(pts[x], bit)
    ensures Bit(pts[y], bit)
  {
    hide Upper, Bit;
    UpperStep(pts[x], bit);
    UpperStep(pts[y], bit);
    UpperMonotone(pts[x], pts[y], bit);
  }

  /** The level and the middle that the search from `upper` downwards finds. */
  function PartitionOf(pts: seq<nat>, lo: nat, hi: nat, upper: nat): (r: (nat, nat))
    requires lo < hi <= |pts|
    ensures r.0 <= upper
  {
    if hi == lo + 1 || upper == 0 then (0, hi)
    else
      var mid := UpperBound(pts, lo, hi, upper - 1);
      if mid == lo || mid == hi then PartitionOf(pts, lo, hi, upper - 1) else (upper, mid)
  }

  method Partition(pts: seq<nat>, lo: nat, hi: nat, upper: nat) returns (delta: nat, mid: nat)
    requires lo < hi <= |pts| && Increasing(pts) && SharesUpper(pts, lo, hi, upper)
    ensures (delta, mid) == PartitionOf(pts, lo, hi, upper)
  {
    hide Upper, Bit;
    if hi - lo == 1 { return 0, hi; }
    ZeroUpper(pts, lo, hi);
    var u := upper - 1;
    mid := UpperBound(pts, lo, hi, u);
    while mid == lo || mid == hi
      invariant 0 <= u < upper && SharesUpper(pts, lo, hi, u + 1) && mid == UpperBound(pts, lo, hi, u)
      invariant PartitionOf(pts, lo, hi, upper) == PartitionOf(pts, lo, hi, u + 1)
      decreases u
    {
      AllBitsEqual(pts, lo, mid, hi, u);
      u := u - 1;
      mid := UpperBound(pts, lo, hi, u);
    }
    delta := u + 1;
  }

  /** The partition finds the split of the range, at the lowest level that the range still shares. */
  lemma {:induction false} PartitionSplits(pts: seq<nat>, lo: nat, hi: nat, upper: nat)
    requires lo < hi <= |pts| && Increasing(pts) && SharesUpper(pts, lo, hi, upper)
    ensures var r := PartitionOf(pts, lo, hi, upper); IsSplit(pts, lo, r.1, hi, r.0)
    decreases upper
  {
    hide Upper, Bit;
    if hi != lo + 1 {
      ZeroUpper(pts, lo, hi);
      var mid := UpperBound(pts, lo, hi, upper - 1);
      if mid == lo || mid == hi {
        AllBitsEqual(pts, lo, mid, hi, upper - 1);
        PartitionSplits(pts, lo, hi, upper - 1);
      } else {
        forall x | mid <= x < hi ensures Bit(pts[x], upper - 1) { BitMonotone(pts, lo, hi, upper - 1, mid, x); }
      }
    }
  }

  /** Both halves of a split share one bit more; so their own splits are strictly lower. */
  lemma HalvesSplit(pts: seq<nat>, lo: nat, mid: nat, hi: nat, delta: nat)
    requires Increasing(pts) && IsSplit(pts, lo, mid, hi, delta) && delta >= 1
    ensures SharesUpper(pts, lo, mid, delta) && SharesUpper(pts, mid, hi, delta)
    ensures var r := PartitionOf(pts, lo, mid, delta); r.0 < delta && IsSplit(pts, lo, r.1, mid, r.0)
    ensures var r := PartitionOf(pts, mid, hi, delta); r.0 < delta && IsSplit(pts, mid, r.1, hi, r.0)
  {
    hide Upper, Bit;
    HalfShares(pts, lo, lo, mid, hi, delta);
    HalfShares(pts, lo, mid, hi, hi, delta);
    PartitionSplits(pts, lo, mid, delta);
    PartitionSplits(pts, mid, hi, delta);
    NoSplitAt(pts, lo, mid, delta, false);
    NoSplitAt(pts, mid, hi, delta, true);
  }

  lemma HalfShares(pts: seq<nat>, lo: nat, a: nat, b: nat, hi: nat, delta: nat)
    requires lo <= a < b <= hi <= |pts| && SharesUpper(pts, lo, hi, delta)
    ensures SharesUpper(pts, a, b, delta)
  {
    hide Upper;
  }

  /** A range whose bit delta - 1 is constant does not split there. */
  lemma NoSplitAt(pts: seq<nat>, a: nat, b: nat, delta: nat, bit: bool)
    requires a < b <= |pts| && delta >= 1 && Increasing(pts) && SharesUpper(pts, a, b, delta)
    requires forall x :: a <= x < b ==> Bit(pts[x], delta - 1) == bit
    ensures PartitionOf(pts, a, b, delta).0 < delta
  {
    hide Upper, Bit;
  }

  /** A bit that does not split the range is shared by it. */
  lemma AllBitsEqual(pts: seq<nat>, lo: nat, mid: nat, hi: nat, u: nat)
    requires lo < hi <= |pts| && Increasing(pts) && SharesUpper(pts, lo, hi, u + 1) && (mid == lo || mid == hi)
    requires mid == UpperBound(pts, lo, hi, u)
    ensures SharesUpper(pts, lo, hi, u)
  {
    hide Upper, Bit;
    forall x | lo <= x < hi ensures Upper(pts[x], u) == Upper(pts[lo], u) {
      UpperStep(pts[x], u);
      UpperStep(pts[lo], u);
      if mid == lo { BitMonotone(pts, lo, hi, u, lo, x); }
    }
  }

  /** Two points cannot agree in every bit. */
  lemma ZeroUpper(pts: seq<nat>, lo: nat, hi: nat)
    requires lo + 1 < hi <= |pts| && Increasing(pts)
    ensures !SharesUpper(pts, lo, hi, 0)
  {
    assert Pow(2, 0) == 1;
    assert Upper(pts[lo], 0) == pts[lo] && Upper(pts[lo + 1], 0) == pts[lo + 1];
  }

  // ------------------------------------------------------------- the tree

  /** A range waiting at the level of its split, with its uncorrected seed and its parent's tag. */
  datatype Node = Node(lo: nat, mid: nat, hi: nat, child: nat, parent: nat, seed: Block, tag: bool)

  datatype Tree = Tree(levels: seq<seq<Node>>, z: seq<(Block, Block)>, c: seq<bool>, tau: seq<(bool, bool)>, sigma: seq<Block>)

  predicate Sized(t: Tree, depth: nat)
  {
    |t.levels| == |t.z| == |t.c| == |t.tau| == |t.sigma| == depth + 1
  }

  function EmptyTree(depth: nat): (t: Tree)
    ensures Sized(t, depth)
  {
    Tree(seq(depth + 1, _ => []), seq(depth + 1, _ => (ZERO, ZERO)), seq(depth + 1, _ => false),
         seq(depth + 1, _ => (false, false)), seq(depth + 1, _ => ZERO))
  }

  function Pick<X>(p: (X, X), j: nat): X { if j == 0 then p.0 else p.1 }

  function XorPair(a: (Block, Block), b: (Block, Block)): (Block, Block)
  {
    (Xor(a.0, b.0), Xor(a.1, b.1))
  }

  function Push(t: Tree, lev: nat, n: Node): (r: Tree)
    requires lev < |t.levels|
  {
    t.(levels := t.levels[lev := t.levels[lev] + [n]])
  }

  /** The sums of level `delta` take in one node's two child seeds. */
  function Summed(t: Tree, delta: nat, c: (Block, Block)): (r: Tree)
    requires delta < |t.z| == |t.c|
  {
    t.(z := t.z[delta := XorPair(t.z[delta], c)], c := t.c[delta := true])
  }

  /** Expanding one split range: sums, and the two halves at their own levels. */
  function Expanded(pts: seq<nat>, t: Tree, delta: nat, lo: nat, mid: nat, hi: nat, c: (Block, Block), tag: bool): Tree
    requires lo < mid < hi <= |pts| && delta < |t.levels| == |t.z| == |t.c|
  {
    var left, right := PartitionOf(pts, lo, mid, delta), PartitionOf(pts, mid, hi, delta);
    Push(Push(Summed(t, delta, c), left.0, Node(lo, left.1, mid, 0, delta, c.0, tag)),
         right.0, Node(mid, right.1, hi, 1, delta, c.1, tag))
  }

  // --------------------------------------------------- two parties, one trie

  predicate Contains(n: Node, x: nat) { n.lo <= x < n.hi }

  /** The difference of the two parties' sums. */
  function Diff(t0: Tree, t1: Tree, e: nat, j: nat): Block
    requires e < |t0.z| && e < |t1.z|
  {
    Xor(Pick(t0.z[e], j), Pick(t1.z[e], j))
  }

  /**
   A waiting node as the two parties hold it, at level `lev`. Below an off-path parent both hold the same; below a
   path parent the tags are opposite, the seeds differ by that level's sum, and the bit of alpha decides.
   `top` is the level below the last expanded path node.
   */
  ghost predicate NodePair(pts: seq<nat>, xa: nat, depth: nat, t0: Tree, t1: Tree, lev: nat, n0: Node, n1: Node, top: nat)
    requires Sized(t0, depth) && Sized(t1, depth) && xa < |pts|
  {
    && n1 == n0.(seed := n1.seed, tag := n1.tag)
    && IsSplit(pts, n0.lo, n0.mid, n0.hi, lev)
    && n0.child < 2 && lev < n0.parent <= depth && t0.c[n0.parent]
    && if n0.tag == n1.tag then n0.seed == n1.seed && !Contains(n0, xa)
       else
         && n0.parent > top && Xor(n0.seed, n1.seed) == Diff(t0, t1, n0.parent, n0.child)
         && (Contains(n0, xa) <==> (n0.child == 1) == Bit(pts[xa], n0.parent - 1))
  }

  predicate Pending(lev: nat, k: nat, dn: nat, i: nat)
  {
    lev < dn || (lev == dn && k >= i)
  }

  ghost predicate Nodes(pts: seq<nat>, xa: nat, depth: nat, t0: Tree, t1: Tree, dn: nat, i: nat, path: Option<(nat, nat)>, top: nat)
    requires Sized(t0, depth) && Sized(t1, depth) && xa < |pts|
  {
    && (forall lev :: 0 <= lev <= depth ==> |t0.levels[lev]| == |t1.levels[lev]|)
    && (forall lev: nat, k: nat :: lev <= depth && k < |t0.levels[lev]| && Pending(lev, k, dn, i) ==>
         && NodePair(pts, xa, depth, t0, t1, lev, t0.levels[lev][k], t1.levels[lev][k], top)
         && (Contains(t0.levels[lev][k], xa) <==> path == Some((lev, k))))
    && (path.Some? ==> IsWaiting(t0, path.value.0, path.value.1, dn, i) && path.value.0 <= top)
  }

  predicate IsWaiting(t: Tree, lev: nat, k: nat, dn: nat, i: nat)
  {
    lev < |t.levels| && k < |t.levels[lev]| && Pending(lev, k, dn, i)
  }

  /** The word of a level: the off-path child's difference, and the tag corrections. */
  ghost predicate WordOk(t0: Tree, t1: Tree, depth: nat, e: nat, bit: bool)
    requires Sized(t0, depth) && Sized(t1, depth) && e <= depth
  {
    && t0.sigma[e] == t1.sigma[e] == Diff(t0, t1, e, if bit then 0 else 1)
    && t0.tau[e] == t1.tau[e] == (Lsb(Diff(t0, t1, e, 0)) != !bit, Lsb(Diff(t0, t1, e, 1)) != bit)
  }

  /**
   The state between two steps: everything above level `dn`, and the first `i` nodes of level `dn`, is expanded; the
   words of the levels from `w` on are known; `path` is the only waiting node whose range holds alpha.
   */
  ghost predicate Inv(pts: seq<nat>, xa: nat, depth: nat, t0: Tree, t1: Tree, dn: nat, i: nat, path: Option<(nat, nat)>,
                      top: nat, w: nat)
  {
    && Increasing(pts) && xa < |pts| && Sized(t0, depth) && Sized(t1, depth) && dn <= depth && t0.c == t1.c
    && Nodes(pts, xa, depth, t0, t1, dn, i, path, top)
    && (forall e :: 0 <= e <= depth && e <= top && e <= dn ==> t0.z[e] == t1.z[e])
    && (forall e :: w <= e <= depth && e >= 1 && t0.c[e] ==> WordOk(t0, t1, depth, e, Bit(pts[xa], e - 1)))
  }

  lemma XorBoth(a: Block, b: Block, c: Block)
    ensures Xor(Xor(a, c), Xor(b, c)) == Xor(a, b)
  {}

  /** Sums that take in equal seeds keep their difference. */
  lemma SumOff(pts: seq<nat>, xa: nat, depth: nat, t0: Tree, t1: Tree, dn: nat, i: nat, path: Option<(nat, nat)>, top: nat, w: nat,
               delta: nat, c: (Block, Block))
    requires Inv(pts, xa, depth, t0, t1, dn, i, path, top, w) && delta <= dn && delta < w
    ensures Inv(pts, xa, depth, Summed(t0, delta, c), Summed(t1, delta, c), dn, i, path, top, w)
  {
    hide Xor, Bit, Lsb, IsSplit, Contains;
    var s0, s1 := Summed(t0, delta, c), Summed(t1, delta, c);
    XorBoth(t0.z[delta].0, t1.z[delta].0, c.0);
    XorBoth(t0.z[delta].1, t1.z[delta].1, c.1);
    assert forall e: nat, j: nat :: e <= depth ==> Diff(s0, s1, e, j) == Diff(t0, t1, e, j);
  }

  /** The path node's children enter its level's sums: from now on that level's difference is theirs. */
  lemma SumOn(pts: seq<nat>, xa: nat, depth: nat, t0: Tree, t1: Tree, dn: nat, i: nat, top: nat, w: nat,
              delta: nat, c0: (Block, Block), c1: (Block, Block))
    requires Inv(pts, xa, depth, t0, t1, dn, i, None, top, w) && 1 <= delta <= dn && delta < w && delta <= top
    ensures Inv(pts, xa, depth, Summed(t0, delta, c0), Summed(t1, delta, c1), dn, i, None, delta - 1, w)
    ensures forall j :: 0 <= j < 2 ==>
      Diff(Summed(t0, delta, c0), Summed(t1, delta, c1), delta, j) == Xor(Pick(c0, j), Pick(c1, j))
  {
    hide Xor, Bit, Lsb, IsSplit, Contains;
    var s0, s1 := Summed(t0, delta, c0), Summed(t1, delta, c1);
    assert forall e: nat, j: nat :: e <= depth && e != delta ==> Diff(s0, s1, e, j) == Diff(t0, t1, e, j);
    assert t0.z[delta] == t1.z[delta];
    SumFromEqual(t0.z[delta], c0, c1);
  }

  lemma SumFromEqual(z: (Block, Block), c0: (Block, Block), c1: (Block, Block))
    ensures forall j :: 0 <= j < 2 ==> Xor(Pick(XorPair(z, c0), j), Pick(XorPair(z, c1), j)) == Xor(Pick(c0, j), Pick(c1, j))
  {
    XorCommutes(z.0, c0.0); XorCommutes(z.0, c1.0); XorCommutes(z.1, c0.1); XorCommutes(z.1, c1.1);
    XorBoth(c0.0, c1.0, z.0);
    XorBoth(c0.1, c1.1, z.1);
  }

  /** A new pair of waiting nodes. */
  lemma PushPair(pts: seq<nat>, xa: nat, depth: nat, t0: Tree, t1: Tree, dn: nat, i: nat, path: Option<(nat, nat)>, top: nat, w: nat,
                 lev: nat, n0: Node, n1: Node)
    requires Inv(pts, xa, depth, t0, t1, dn, i, path, top, w) && lev < dn
    requires NodePair(pts, xa, depth, t0, t1, lev, n0, n1, top)
    requires Contains(n0, xa) ==> path == None && lev <= top
    ensures Inv(pts, xa, depth, Push(t0, lev, n0), Push(t1, lev, n1), dn, i,
                if Contains(n0, xa) then Some((lev, |t0.levels[lev]|)) else path, top, w)
  {
    hide Xor, Bit, Lsb, IsSplit, Contains, WordOk, NodePair, Diff;
    var s0, s1 := Push(t0, lev, n0), Push(t1, lev, n1);
    forall e | w <= e <= depth && e >= 1 && s0.c[e] ensures WordOk(s0, s1, depth, e, Bit(pts[xa], e - 1)) {
      WordOnly(t0, t1, s0, s1, depth, e, Bit(pts[xa], e - 1));
    }
    forall l: nat, k: nat | l <= depth && k < |s0.levels[l]| && Pending(l, k, dn, i)
      ensures NodePair(pts, xa, depth, s0, s1, l, s0.levels[l][k], s1.levels[l][k], top)
    {
      if k < |t0.levels[l]| {
        PairOnly(pts, xa, depth, t0, t1, s0, s1, l, t0.levels[l][k], t1.levels[l][k], top);
      } else {
        PairOnly(pts, xa, depth, t0, t1, s0, s1, l, n0, n1, top);
      }
    }
  }

  lemma PairOnly(pts: seq<nat>, xa: nat, depth: nat, t0: Tree, t1: Tree, s0: Tree, s1: Tree, lev: nat, n0: Node, n1: Node, top: nat)
    requires Sized(t0, depth) && Sized(t1, depth) && Sized(s0, depth) && Sized(s1, depth) && xa < |pts|
    requires s0.c == t0.c && s0.z == t0.z && s1.z == t1.z && NodePair(pts, xa, depth, t0, t1, lev, n0, n1, top)
    ensures NodePair(pts, xa, depth, s0, s1, lev, n0, n1, top)
  {}

  lemma WordOnly(t0: Tree, t1: Tree, s0: Tree, s1: Tree, depth: nat, e: nat, bit: bool)
    requires Sized(t0, depth) && Sized(t1, depth) && Sized(s0, depth) && Sized(s1, depth) && e <= depth
    requires s0.sigma[e] == t0.sigma[e] && s1.sigma[e] == t1.sigma[e] && s0.tau[e] == t0.tau[e] && s1.tau[e] == t1.tau[e]
    requires s0.z[e] == t0.z[e] && s1.z[e] == t1.z[e] && WordOk(t0, t1, depth, e, bit)
    ensures WordOk(s0, s1, depth, e, bit)
  {}

  /** Expanding a range that does not hold alpha, from equal seeds and tags. */
  lemma ExpandOff(pts: seq<nat>, xa: nat, depth: nat, t0: Tree, t1: Tree, dn: nat, i: nat, path: Option<(nat, nat)>, top: nat, w: nat,
                  delta: nat, lo: nat, mid: nat, hi: nat, c: (Block, Block), tag: bool)
    requires Inv(pts, xa, depth, t0, t1, dn, i, path, top, w) && 1 <= delta <= dn && delta < w
    requires IsSplit(pts, lo, mid, hi, delta) && lo < mid < hi <= |pts| && !(lo <= xa < hi)
    ensures Inv(pts, xa, depth, Expanded(pts, t0, delta, lo, mid, hi, c, tag), Expanded(pts, t1, delta, lo, mid, hi, c, tag),
                dn, i, path, top, w)
  {
    hide Xor, Bit, Lsb, IsSplit, Inv, WordOk, Nodes, PartitionOf;
    InvSized(pts, xa, depth, t0, t1, dn, i, path, top, w);
    HalvesSplit(pts, lo, mid, hi, delta);
    var left, right := PartitionOf(pts, lo, mid, delta), PartitionOf(pts, mid, hi, delta);
    var n, m := Node(lo, left.1, mid, 0, delta, c.0, tag), Node(mid, right.1, hi, 1, delta, c.1, tag);
    SumOff(pts, xa, depth, t0, t1, dn, i, path, top, w, delta, c);
    var s0, s1 := Summed(t0, delta, c), Summed(t1, delta, c);
    PushPair(pts, xa, depth, s0, s1, dn, i, path, top, w, left.0, n, n);
    PushPair(pts, xa, depth, Push(s0, left.0, n), Push(s1, left.0, n), dn, i, path, top, w, right.0, m, m);
  }

  lemma InvSized(pts: seq<nat>, xa: nat, depth: nat, t0: Tree, t1: Tree, dn: nat, i: nat, path: Option<(nat, nat)>, top: nat, w: nat)
    requires Inv(pts, xa, depth, t0, t1, dn, i, path, top, w)
    ensures Increasing(pts) && xa < |pts| && Sized(t0, depth) && Sized(t1, depth) && dn <= depth
    ensures forall lev :: 0 <= lev <= depth ==> |t0.levels[lev]| == |t1.levels[lev]|
    ensures t0.c == t1.c
  {}

  /** Expanding the path node, whose tags are opposite: one half becomes the new path node. */
  lemma ExpandOn(pts: seq<nat>, xa: nat, depth: nat, t0: Tree, t1: Tree, dn: nat, i: nat, top: nat, w: nat,
                 delta: nat, lo: nat, mid: nat, hi: nat, c0: (Block, Block), c1: (Block, Block), tag: bool)
    returns (path: Option<(nat, nat)>)
    requires Inv(pts, xa, depth, t0, t1, dn, i, None, top, w) && 1 <= delta <= dn && delta < w && delta <= top
    requires IsSplit(pts, lo, mid, hi, delta) && lo < mid < hi <= |pts| && lo <= xa < hi
    ensures path.Some? && path.value.0 < delta
    ensures Inv(pts, xa, depth, Expanded(pts, t0, delta, lo, mid, hi, c0, tag), Expanded(pts, t1, delta, lo, mid, hi, c1, !tag),
                dn, i, path, delta - 1, w)
  {
    hide Xor, Bit, Lsb, Inv, WordOk, Nodes, PartitionOf;
    InvSized(pts, xa, depth, t0, t1, dn, i, None, top, w);
    HalvesSplit(pts, lo, mid, hi, delta);
    var left, right := PartitionOf(pts, lo, mid, delta), PartitionOf(pts, mid, hi, delta);
    var n0, n1 := Node(lo, left.1, mid, 0, delta, c0.0, tag), Node(lo, left.1, mid, 0, delta, c1.0, !tag);
    var m0, m1 := Node(mid, right.1, hi, 1, delta, c0.1, tag), Node(mid, right.1, hi, 1, delta, c1.1, !tag);
    SumOn(pts, xa, depth, t0, t1, dn, i, top, w, delta, c0, c1);
    var s0, s1 := Summed(t0, delta, c0), Summed(t1, delta, c1);
    assert Bit(pts[xa], delta - 1) == (xa >= mid);
    hide IsSplit;
    PushPair(pts, xa, depth, s0, s1, dn, i, None, delta - 1, w, left.0, n0, n1);
    path := if xa < mid then Some((left.0, |s0.levels[left.0]|)) else None;
    var q0, q1 := Push(s0, left.0, n0), Push(s1, left.0, n1);
    assert Diff(q0, q1, delta, 1) == Diff(s0, s1, delta, 1) == Xor(c0.1, c1.1);
    PushPair(pts, xa, depth, q0, q1, dn, i, path, delta - 1, w, right.0, m0, m1);
    path := if xa < mid then path else Some((right.0, |q0.levels[right.0]|));
  }

  // ------------------------------------------------------------- one node

  /** A node's seed and tag after the correction of its parent's level. */
  function CorrectedSeed(t: Tree, n: Node): Block
    requires n.parent < |t.sigma|
  {
    Xor(n.seed, And(Saturated(n.tag), t.sigma[n.parent]))
  }

  function CorrectedTag(t: Tree, n: Node): bool
    requires n.parent < |t.tau|
  {
    Lsb(n.seed) != (n.tag && Pick(t.tau[n.parent], n.child))
  }

  /** After its correction a node is equal off the path and has opposite tags on it. */
  lemma CorrectPair(pts: seq<nat>, xa: nat, depth: nat, t0: Tree, t1: Tree, lev: nat, n0: Node, n1: Node, top: nat)
    requires Sized(t0, depth) && Sized(t1, depth) && xa < |pts| && t0.c == t1.c
    requires NodePair(pts, xa, depth, t0, t1, lev, n0, n1, top)
    requires n0.parent >= 1 && WordOk(t0, t1, depth, n0.parent, Bit(pts[xa], n0.parent - 1))
    ensures Contains(n0, xa) ==> CorrectedTag(t0, n0) != CorrectedTag(t1, n1)
    ensures !Contains(n0, xa) ==>
      CorrectedTag(t0, n0) == CorrectedTag(t1, n1) && CorrectedSeed(t0, n0) == CorrectedSeed(t1, n1)
  {
    hide Xor, Bit, Lsb, And, Saturated, IsSplit, Contains;
    if n0.tag != n1.tag {
      var sigma := t0.sigma[n0.parent];
      CorrectOpposite(n0.seed, n1.seed, n0.tag, sigma);
      LsbXor(n0.seed, n1.seed);
      XorZero(CorrectedSeed(t0, n0), CorrectedSeed(t1, n1));
      XorZero(Xor(n0.seed, n1.seed), sigma);
    }
  }

  function Reseeded(t: Tree, lev: nat, k: nat, seed: Block): (r: Tree)
    requires lev < |t.levels| && k < |t.levels[lev]|
    ensures |r.levels| == |t.levels| && forall l :: 0 <= l < |t.levels| ==> |r.levels[l]| == |t.levels[l]|
  {
    t.(levels := t.levels[lev := t.levels[lev][k := t.levels[lev][k].(seed := seed)]])
  }

  /** One node is taken off the waiting list. */
  lemma TakeOut(pts: seq<nat>, xa: nat, depth: nat, t0: Tree, t1: Tree, dn: nat, i: nat, path: Option<(nat, nat)>, top: nat, w: nat,
                seed0: Block, seed1: Block)
    requires Inv(pts, xa, depth, t0, t1, dn, i, path, top, w) && i < |t0.levels[dn]|
    ensures Inv(pts, xa, depth, Reseeded(t0, dn, i, seed0), Reseeded(t1, dn, i, seed1), dn, i + 1,
                if path == Some((dn, i)) then None else path, top, w)
  {
    hide Xor, Bit, Lsb, IsSplit, Contains, WordOk, NodePair, Diff;
    var s0, s1 := Reseeded(t0, dn, i, seed0), Reseeded(t1, dn, i, seed1);
    forall e | w <= e <= depth && e >= 1 && s0.c[e] ensures WordOk(s0, s1, depth, e, Bit(pts[xa], e - 1)) {
      WordOnly(t0, t1, s0, s1, depth, e, Bit(pts[xa], e - 1));
    }
    forall l: nat, k: nat | l <= depth && k < |s0.levels[l]| && Pending(l, k, dn, i + 1)
      ensures NodePair(pts, xa, depth, s0, s1, l, s0.levels[l][k], s1.levels[l][k], top)
      ensures s0.levels[l][k] == t0.levels[l][k]
    {
      PairOnly(pts, xa, depth, t0, t1, s0, s1, l, t0.levels[l][k], t1.levels[l][k], top);
    }
  }

  /** The hashes of a node's seed. */
  datatype Hash = Hash(left: Block -> Block, right: Block -> Block)

  function HashPair(g: Hash, seed: Block): (Block, Block)
  {
    (g.left(seed), g.right(seed))
  }

  /** One node of the level loop: correct it, expand it, queue its halves. */
  function StepNode(pts: seq<nat>, g: Hash, t: Tree, dn: nat, i: nat): Tree
    requires dn < |t.levels| == |t.z| == |t.c| == |t.tau| == |t.sigma| && i < |t.levels[dn]|
  {
    var n := t.levels[dn][i];
    if n.lo < n.mid < n.hi <= |pts| && n.parent < |t.sigma| then
      var seed := CorrectedSeed(t, n);
      Expanded(pts, Reseeded(t, dn, i, seed), dn, n.lo, n.mid, n.hi, HashPair(g, seed), CorrectedTag(t, n))
    else t
  }

  /** Facts of a waiting pair. */
  lemma PairFacts(pts: seq<nat>, xa: nat, depth: nat, t0: Tree, t1: Tree, dn: nat, i: nat, path: Option<(nat, nat)>, top: nat, w: nat,
                  lev: nat, k: nat)
    requires Inv(pts, xa, depth, t0, t1, dn, i, path, top, w) && w <= lev + 1
    requires lev <= depth && k < |t0.levels[lev]| == |t1.levels[lev]| && Pending(lev, k, dn, i)
    ensures var n0, n1 := t0.levels[lev][k], t1.levels[lev][k];
      && NodePair(pts, xa, depth, t0, t1, lev, n0, n1, top) && (Contains(n0, xa) <==> path == Some((lev, k)))
      && n0.parent >= 1 && WordOk(t0, t1, depth, n0.parent, Bit(pts[xa], n0.parent - 1))
      && (path.Some? ==> path.value.0 <= top)
  {
    hide Bit, Lsb, Xor, IsSplit, Contains, WordOk, Diff;
  }

  /** One step of both parties at the same node. */
  lemma StepBoth(pts: seq<nat>, g: Hash, xa: nat, depth: nat, t0: Tree, t1: Tree, dn: nat, i: nat, path: Option<(nat, nat)>,
                 top: nat, w: nat)
    returns (path': Option<(nat, nat)>, top': nat)
    requires Inv(pts, xa, depth, t0, t1, dn, i, path, top, w) && dn >= 1 && w == dn + 1 && i < |t0.levels[dn]| == |t1.levels[dn]|
    ensures Inv(pts, xa, depth, StepNode(pts, g, t0, dn, i), StepNode(pts, g, t1, dn, i), dn, i + 1, path', top', w)
    ensures path'.Some? <==> path.Some?
  {
    hide Bit, Lsb, Xor, IsSplit, WordOk, Diff, Inv, Expanded, CorrectedSeed, CorrectedTag, HashPair, Reseeded;
    InvSized(pts, xa, depth, t0, t1, dn, i, path, top, w);
    PairFacts(pts, xa, depth, t0, t1, dn, i, path, top, w, dn, i);
    var n0, n1 := t0.levels[dn][i], t1.levels[dn][i];
    SplitShape(pts, n0.lo, n0.mid, n0.hi, dn);
    CorrectPair(pts, xa, depth, t0, t1, dn, n0, n1, top);
    var seed0, seed1 := CorrectedSeed(t0, n0), CorrectedSeed(t1, n1);
    TakeOut(pts, xa, depth, t0, t1, dn, i, path, top, w, seed0, seed1);
    var s0, s1 := Reseeded(t0, dn, i, seed0), Reseeded(t1, dn, i, seed1);
    if Contains(n0, xa) {
      path' := ExpandOn(pts, xa, depth, s0, s1, dn, i + 1, top, w, dn, n0.lo, n0.mid, n0.hi,
                        HashPair(g, seed0), HashPair(g, seed1), CorrectedTag(t0, n0));
      top' := dn - 1;
    } else {
      path', top' := path, top;
      ExpandOff(pts, xa, depth, s0, s1, dn, i + 1, path, top, w, dn, n0.lo, n0.mid, n0.hi, HashPair(g, seed0), CorrectedTag(t0, n0));
    }
  }

  lemma SplitShape(pts: seq<nat>, lo: nat, mid: nat, hi: nat, delta: nat)
    requires IsSplit(pts, lo, mid, hi, delta)
    ensures lo < hi <= |pts| && (delta >= 1 ==> lo < mid < hi) && (delta == 0 ==> hi == lo + 1 && mid == hi)
  {}

  // ------------------------------------------------------------- one level

  /** All nodes of level `dn` are expanded; the next level waits. */
  lemma LowerLevel(pts: seq<nat>, xa: nat, depth: nat, t0: Tree, t1: Tree, dn: nat, path: Option<(nat, nat)>, top: nat, w: nat)
    requires dn >= 1 && dn < |t0.levels| && Inv(pts, xa, depth, t0, t1, dn, |t0.levels[dn]|, path, top, w)
    ensures Inv(pts, xa, depth, t0, t1, dn - 1, 0, path, top, w)
  {
    hide Bit, Lsb, Xor, IsSplit, WordOk, Diff, NodePair, Contains;
  }

  function Worded(t: Tree, d: nat, sigma: Block, tau: (bool, bool)): Tree
    requires d < |t.sigma| == |t.tau|
  {
    t.(sigma := t.sigma[d := sigma], tau := t.tau[d := tau])
  }

  /** The word of a used level becomes known. */
  lemma SetWord(pts: seq<nat>, xa: nat, depth: nat, t0: Tree, t1: Tree, d: nat, path: Option<(nat, nat)>, top: nat,
                sigma: Block, tau: (bool, bool))
    requires 1 <= d <= depth && Inv(pts, xa, depth, t0, t1, d - 1, 0, path, top, d + 1)
    requires WordOk(Worded(t0, d, sigma, tau), Worded(t1, d, sigma, tau), depth, d, Bit(pts[xa], d - 1))
    ensures Inv(pts, xa, depth, Worded(t0, d, sigma, tau), Worded(t1, d, sigma, tau), d - 1, 0, path, top, d)
  {
    hide Bit, Lsb, Xor, IsSplit, WordOk, Diff, NodePair, Contains;
    var s0, s1 := Worded(t0, d, sigma, tau), Worded(t1, d, sigma, tau);
    forall e | d <= e <= depth && e >= 1 && s0.c[e] ensures WordOk(s0, s1, depth, e, Bit(pts[xa], e - 1)) {
      if e > d { WordOnly(t0, t1, s0, s1, depth, e, Bit(pts[xa], e - 1)); }
    }
    forall l: nat, k: nat | l <= depth && k < |s0.levels[l]| && Pending(l, k, d - 1, 0)
      ensures NodePair(pts, xa, depth, s0, s1, l, s0.levels[l][k], s1.levels[l][k], top)
    {
      PairOnly(pts, xa, depth, t0, t1, s0, s1, l, t0.levels[l][k], t1.levels[l][k], top);
    }
  }

  /** A level that one tree does not use may hold any word. */
  lemma SetUnused(pts: seq<nat>, xa: nat, depth: nat, t0: Tree, t1: Tree, d: nat, path: Option<(nat, nat)>, top: nat,
                  sigma: Block, tau: (bool, bool))
    requires 1 <= d <= depth && Inv(pts, xa, depth, t0, t1, d - 1, 0, path, top, d) && d < |t0.c| && !t0.c[d]
    ensures Inv(pts, xa, depth, Worded(t0, d, sigma, tau), Worded(t1, d, sigma, tau), d - 1, 0, path, top, d)
  {
    hide Bit, Lsb, Xor, IsSplit, WordOk, Diff, NodePair, Contains;
    var s0, s1 := Worded(t0, d, sigma, tau), Worded(t1, d, sigma, tau);
    forall e | d <= e <= depth && e >= 1 && s0.c[e] ensures WordOk(s0, s1, depth, e, Bit(pts[xa], e - 1)) {
      WordOnly(t0, t1, s0, s1, depth, e, Bit(pts[xa], e - 1));
    }
    forall l: nat, k: nat | l <= depth && k < |s0.levels[l]| && Pending(l, k, d - 1, 0)
      ensures NodePair(pts, xa, depth, s0, s1, l, s0.levels[l][k], s1.levels[l][k], top)
    {
      PairOnly(pts, xa, depth, t0, t1, s0, s1, l, t0.levels[l][k], t1.levels[l][k], top);
    }
  }

  function Resummed(t: Tree, d: nat, z: (Block, Block)): Tree
    requires d < |t.z|
  {
    t.(z := t.z[d := z])
  }

  /** An unused level may hold any sums. */
  lemma SkipWord(pts: seq<nat>, xa: nat, depth: nat, t0: Tree, t1: Tree, d: nat, path: Option<(nat, nat)>, top: nat,
                 z0: (Block, Block), z1: (Block, Block))
    requires 1 <= d <= depth && Inv(pts, xa, depth, t0, t1, d - 1, 0, path, top, d + 1) && d < |t0.c| && !t0.c[d]
    ensures Inv(pts, xa, depth, Resummed(t0, d, z0), Resummed(t1, d, z1), d - 1, 0, path, top, d)
  {
    hide Bit, Lsb, Xor, IsSplit, WordOk, NodePair, Contains, Diff;
    var s0, s1 := Resummed(t0, d, z0), Resummed(t1, d, z1);
    forall e | d <= e <= depth && e >= 1 && s0.c[e] ensures WordOk(s0, s1, depth, e, Bit(pts[xa], e - 1)) {
      WordOnly(t0, t1, s0, s1, depth, e, Bit(pts[xa], e - 1));
    }
    forall l: nat, k: nat | l <= depth && k < |s0.levels[l]| && Pending(l, k, d - 1, 0)
      ensures NodePair(pts, xa, depth, s0, s1, l, s0.levels[l][k], s1.levels[l][k], top)
    {
      PairUnused(pts, xa, depth, t0, t1, d, z0, z1, l, t0.levels[l][k], t1.levels[l][k], top);
    }
  }

  lemma PairUnused(pts: seq<nat>, xa: nat, depth: nat, t0: Tree, t1: Tree, d: nat, z0: (Block, Block), z1: (Block, Block),
                   lev: nat, n0: Node, n1: Node, top: nat)
    requires Sized(t0, depth) && Sized(t1, depth) && xa < |pts| && d <= depth && !t0.c[d]
    requires NodePair(pts, xa, depth, t0, t1, lev, n0, n1, top)
    ensures NodePair(pts, xa, depth, Resummed(t0, d, z0), Resummed(t1, d, z1), lev, n0, n1, top)
  {
    hide Bit, Lsb, Xor, IsSplit, Contains;
  }
}
