/**
 SparseDpf.h, what one party's trie computes: the value and tag of a point come from walking down the bits of the
 point, with an expansion wherever another point leaves the path.
 */
module SparseEval {
  import opened Numbers
  import opened Blocks
  import opened DpfTree
  import opened SparseTree
  import opened SparseDpf

  // ------------------------------------------------------------- the reference

  /** Where the walks start: the leaves of a dense tree, or two seeds for the first split. */
  datatype Base = Dense(seeds: seq<Block>, tags: seq<bool>) | Roots(c: (Block, Block), tag: bool)

  ghost predicate BaseFits(base: Base, pts: seq<nat>, depth: nat)
  {
    base.Dense? ==>
      |base.seeds| == |base.tags| && forall x :: 0 <= x < |pts| ==> Upper(pts[x], depth) < |base.seeds|
  }

  /** Another point shares the bits of point `x` from `d` up and differs in bit d - 1. */
  ghost predicate SplitAt(pts: seq<nat>, x: nat, d: nat)
    requires x < |pts| && d >= 1
  {
    exists y: nat :: y < |pts| && Upper(pts[y], d) == Upper(pts[x], d) && Bit(pts[y], d - 1) != Bit(pts[x], d - 1)
  }

  datatype Walk = Walk(seed: Block, tag: bool)

  /** Correction by the word of a level, for the bit below it. */
  function Fixed(r: Walk, sigma: Block, tau: (bool, bool), bit: bool): Walk
  {
    Walk(Xor(r.seed, if r.tag then sigma else ZERO), r.seed[0] != (r.tag && if bit then tau.1 else tau.0))
  }

  /** The seed and tag of point `x` above bit `d`. */
  ghost function State(pts: seq<nat>, g: Hash, base: Base, sigma: seq<Block>, tau: seq<(bool, bool)>, depth: nat, x: nat, d: nat): Walk
    requires x < |pts| && d <= depth && |sigma| == |tau| == depth + 1 && BaseFits(base, pts, depth)
    decreases depth - d, 0
  {
    if d == depth then
      if base.Dense? then Walk(base.seeds[Upper(pts[x], depth)], base.tags[Upper(pts[x], depth)]) else Walk(ZERO, false)
    else if SplitAt(pts, x, d + 1) then
      Fixed(Raw(pts, g, base, sigma, tau, depth, x, d + 1), sigma[d + 1], tau[d + 1], Bit(pts[x], d))
    else State(pts, g, base, sigma, tau, depth, x, d + 1)
  }

  /** The uncorrected seed below a split at level `e`, and the tag above it. */
  ghost function Raw(pts: seq<nat>, g: Hash, base: Base, sigma: seq<Block>, tau: seq<(bool, bool)>, depth: nat, x: nat, e: nat): Walk
    requires x < |pts| && 1 <= e <= depth && |sigma| == |tau| == depth + 1 && BaseFits(base, pts, depth)
    decreases depth - e, 1
  {
    if base.Roots? && forall f :: e < f <= depth ==> !SplitAt(pts, x, f) then
      Walk(if Bit(pts[x], e - 1) then base.c.1 else base.c.0, base.tag)
    else
      var s := State(pts, g, base, sigma, tau, depth, x, e);
      Walk(if Bit(pts[x], e - 1) then g.right(s.seed) else g.left(s.seed), s.tag)
  }

  ghost predicate RawIs(pts: seq<nat>, g: Hash, base: Base, sigma: seq<Block>, tau: seq<(bool, bool)>, depth: nat, x: nat, e: nat, r: Walk)
    requires x < |pts| && 1 <= e <= depth && |sigma| == |tau| == depth + 1 && BaseFits(base, pts, depth)
  {
    Raw(pts, g, base, sigma, tau, depth, x, e) == r
  }

  /** Below the split at `e` the uncorrected seeds are the pair `c`, by the bit of the point. */
  ghost predicate BelowIs(pts: seq<nat>, g: Hash, base: Base, sigma: seq<Block>, tau: seq<(bool, bool)>, depth: nat, x: nat, e: nat,
                          c: (Block, Block), tag: bool)
    requires x < |pts| && 1 <= e <= depth && |sigma| == |tau| == depth + 1 && BaseFits(base, pts, depth)
  {
    Raw(pts, g, base, sigma, tau, depth, x, e) == Walk(if Bit(pts[x], e - 1) then c.1 else c.0, tag)
  }

  lemma BelowRaw(pts: seq<nat>, g: Hash, base: Base, sigma: seq<Block>, tau: seq<(bool, bool)>, depth: nat, x: nat, e: nat,
                 c: (Block, Block), tag: bool)
    requires x < |pts| && 1 <= e <= depth && |sigma| == |tau| == depth + 1 && BaseFits(base, pts, depth)
    requires BelowIs(pts, g, base, sigma, tau, depth, x, e, c, tag)
    ensures RawIs(pts, g, base, sigma, tau, depth, x, e, Walk(if Bit(pts[x], e - 1) then c.1 else c.0, tag))
  {
    hide Bit, Raw;
  }

  /**
   The walk of a point, written out. It starts in the point's dense leaf. At a bit where no other point with the same
   higher bits differs it does not change. At any other bit the seed expands to the side of the bit, or is the random
   seed of that side at the first such bit of a tree without dense leaves; a set tag adds the word, and the new tag is
   the low bit of the uncorrected seed, flipped by the tag word of the side where the old tag is set.
   */
  lemma WalkWritten(pts: seq<nat>, g: Hash, base: Base, sigma: seq<Block>, tau: seq<(bool, bool)>, depth: nat, x: nat, d: nat)
    requires x < |pts| && d < depth && |sigma| == |tau| == depth + 1 && BaseFits(base, pts, depth)
    ensures Pow(2, depth) > 0 && Pow(2, d) > 0
    ensures base.Dense? ==>
      && pts[x] / Pow(2, depth) < |base.seeds| == |base.tags|
      && State(pts, g, base, sigma, tau, depth, x, depth) == Walk(base.seeds[pts[x] / Pow(2, depth)], base.tags[pts[x] / Pow(2, depth)])
    ensures !SplitAt(pts, x, d + 1) ==>
      State(pts, g, base, sigma, tau, depth, x, d) == State(pts, g, base, sigma, tau, depth, x, d + 1)
    ensures SplitAt(pts, x, d + 1) ==>
      var first := base.Roots? && forall e :: d + 1 < e <= depth ==> !SplitAt(pts, x, e);
      var odd, above := pts[x] / Pow(2, d) % 2 == 1, State(pts, g, base, sigma, tau, depth, x, d + 1);
      var raw := if first then (if odd then base.c.1 else base.c.0) else if odd then g.right(above.seed) else g.left(above.seed);
      var tag := if first then base.tag else above.tag;
      State(pts, g, base, sigma, tau, depth, x, d)
        == Walk(if tag then Xor(raw, sigma[d + 1]) else raw, raw[0] != (tag && if odd then tau[d + 1].1 else tau[d + 1].0))
  {
    hide State, Raw, SplitAt;
    PowPositive(2, d);
    PowPositive(2, depth);
    StateTop(pts, g, base, sigma, tau, depth, x);
    if SplitAt(pts, x, d + 1) {
      StateSplit(pts, g, base, sigma, tau, depth, x, d + 1);
      RawWritten(pts, g, base, sigma, tau, depth, x, d + 1);
      XorZero(Raw(pts, g, base, sigma, tau, depth, x, d + 1).seed, ZERO);
    } else {
      StateUnsplit(pts, g, base, sigma, tau, depth, x, d);
    }
  }

  lemma StateTop(pts: seq<nat>, g: Hash, base: Base, sigma: seq<Block>, tau: seq<(bool, bool)>, depth: nat, x: nat)
    requires x < |pts| && |sigma| == |tau| == depth + 1 && BaseFits(base, pts, depth)
    ensures base.Dense? ==>
      State(pts, g, base, sigma, tau, depth, x, depth) == Walk(base.seeds[Upper(pts[x], depth)], base.tags[Upper(pts[x], depth)])
  {
    hide Upper;
  }

  lemma RawWritten(pts: seq<nat>, g: Hash, base: Base, sigma: seq<Block>, tau: seq<(bool, bool)>, depth: nat, x: nat, e: nat)
    requires x < |pts| && 1 <= e <= depth && |sigma| == |tau| == depth + 1 && BaseFits(base, pts, depth)
    ensures var odd, above := Bit(pts[x], e - 1), State(pts, g, base, sigma, tau, depth, x, e);
      Raw(pts, g, base, sigma, tau, depth, x, e)
        == if base.Roots? && forall f :: e < f <= depth ==> !SplitAt(pts, x, f) then Walk(if odd then base.c.1 else base.c.0, base.tag)
           else Walk(if odd then g.right(above.seed) else g.left(above.seed), above.tag)
  {
    hide Upper, Bit, SplitAt, State;
  }

  /** A split: another point with the same quotient by 2^d and another bit below. */
  lemma SplitWritten(pts: seq<nat>, x: nat, d: nat)
    requires x < |pts| && d >= 1
    ensures Pow(2, d) > 0 && Pow(2, d - 1) > 0
    ensures SplitAt(pts, x, d) <==>
      exists y :: 0 <= y < |pts| && pts[y] / Pow(2, d) == pts[x] / Pow(2, d)
        && pts[y] / Pow(2, d - 1) % 2 != pts[x] / Pow(2, d - 1) % 2
  {
    PowPositive(2, d);
    PowPositive(2, d - 1);
    forall y | 0 <= y < |pts|
      ensures Upper(pts[y], d) == pts[y] / Pow(2, d) && (Bit(pts[y], d - 1) <==> pts[y] / Pow(2, d - 1) % 2 == 1)
    {
    }
    hide Upper, Bit;
    if y: nat :| y < |pts| && Upper(pts[y], d) == Upper(pts[x], d) && Bit(pts[y], d - 1) != Bit(pts[x], d - 1) {
      assert pts[y] / Pow(2, d) == pts[x] / Pow(2, d) && pts[y] / Pow(2, d - 1) % 2 != pts[x] / Pow(2, d - 1) % 2;
    }
  }

  /** The walk above bit `d` only reads the words of the splits above it. */
  lemma {:induction false} WordsAbove(pts: seq<nat>, g: Hash, base: Base, sigma: seq<Block>, tau: seq<(bool, bool)>,
                                      sigma': seq<Block>, tau': seq<(bool, bool)>, depth: nat, x: nat, d: nat)
    requires x < |pts| && d <= depth && |sigma| == |tau| == |sigma'| == |tau'| == depth + 1 && BaseFits(base, pts, depth)
    requires forall e :: d < e <= depth && SplitAt(pts, x, e) ==> sigma[e] == sigma'[e] && tau[e] == tau'[e]
    ensures State(pts, g, base, sigma, tau, depth, x, d) == State(pts, g, base, sigma', tau', depth, x, d)
    ensures d >= 1 ==> Raw(pts, g, base, sigma, tau, depth, x, d) == Raw(pts, g, base, sigma', tau', depth, x, d)
    decreases depth - d
  {
    hide SplitAt, Bit, Fixed, Upper;
    if d < depth { WordsAbove(pts, g, base, sigma, tau, sigma', tau', depth, x, d + 1); }
  }

  /** No split between two levels leaves the walk as it is. */
  lemma {:induction false} NoSplitBetween(pts: seq<nat>, g: Hash, base: Base, sigma: seq<Block>, tau: seq<(bool, bool)>, depth: nat,
                                          x: nat, d: nat, e: nat)
    requires x < |pts| && d <= e <= depth && |sigma| == |tau| == depth + 1 && BaseFits(base, pts, depth)
    requires forall f :: d < f <= e ==> !SplitAt(pts, x, f)
    ensures State(pts, g, base, sigma, tau, depth, x, d) == State(pts, g, base, sigma, tau, depth, x, e)
    decreases e - d
  {
    hide SplitAt, Bit, Fixed, Upper;
    if d < e {
      NoSplitBetween(pts, g, base, sigma, tau, depth, x, d + 1, e);
      StateUnsplit(pts, g, base, sigma, tau, depth, x, d);
    }
  }

  lemma StateUnsplit(pts: seq<nat>, g: Hash, base: Base, sigma: seq<Block>, tau: seq<(bool, bool)>, depth: nat, x: nat, d: nat)
    requires x < |pts| && d < depth && |sigma| == |tau| == depth + 1 && BaseFits(base, pts, depth) && !SplitAt(pts, x, d + 1)
    ensures State(pts, g, base, sigma, tau, depth, x, d) == State(pts, g, base, sigma, tau, depth, x, d + 1)
  {
    hide SplitAt, Bit, Fixed, Upper;
  }

  lemma StateSplit(pts: seq<nat>, g: Hash, base: Base, sigma: seq<Block>, tau: seq<(bool, bool)>, depth: nat, x: nat, e: nat)
    requires x < |pts| && 1 <= e <= depth && |sigma| == |tau| == depth + 1 && BaseFits(base, pts, depth) && SplitAt(pts, x, e)
    ensures State(pts, g, base, sigma, tau, depth, x, e - 1)
         == Fixed(Raw(pts, g, base, sigma, tau, depth, x, e), sigma[e], tau[e], Bit(pts[x], e - 1))
  {
    hide SplitAt, Bit, Fixed, Upper;
  }

  // ------------------------------------------------------------- classes

  /** The range holds exactly the points that share the bits from `k` up. */
  ghost predicate Complete(pts: seq<nat>, lo: nat, hi: nat, k: nat)
  {
    && lo < hi <= |pts|
    && forall y :: 0 <= y < |pts| ==> (lo <= y < hi <==> Upper(pts[y], k) == Upper(pts[lo], k))
  }

  /** Equal upper bits stay equal further up. */
  lemma {:induction false} UpperUp(v: nat, w: nat, k: nat, m: nat)
    requires k <= m && Upper(v, k) == Upper(w, k)
    ensures Upper(v, m) == Upper(w, m)
    decreases m - k
  {
    hide Upper, Bit;
    if k < m {
      UpperStep(v, k);
      UpperStep(w, k);
      UpperUp(v, w, k + 1, m);
    }
  }

  lemma UpperBits(v: nat, w: nat, k: nat)
    ensures Upper(v, k) == Upper(w, k) <==> Upper(v, k + 1) == Upper(w, k + 1) && Bit(v, k) == Bit(w, k)
  {
    hide Upper, Bit;
    UpperStep(v, k);
    UpperStep(w, k);
  }

  /** A complete range that shares the bits from `lev` up has no split above `lev` and below its own level. */
  lemma NoSplitInside(pts: seq<nat>, lo: nat, hi: nat, lev: nat, k: nat, x: nat, f: nat)
    requires Complete(pts, lo, hi, k) && SharesUpper(pts, lo, hi, lev) && lo <= x < hi && lev < f <= k
    ensures !SplitAt(pts, x, f)
  {
    hide Upper, Bit;
    if SplitAt(pts, x, f) {
      var y: nat :| y < |pts| && Upper(pts[y], f) == Upper(pts[x], f) && Bit(pts[y], f - 1) != Bit(pts[x], f - 1);
      UpperUp(pts[y], pts[x], f, k);
      assert lo <= y < hi;
      UpperUp(pts[y], pts[lo], lev, f - 1);
      UpperUp(pts[x], pts[lo], lev, f - 1);
      UpperBits(pts[y], pts[x], f - 1);
      assert false;
    }
  }

  /** Both halves of a split complete range are complete one bit lower, and split from each other there. */
  lemma HalvesComplete(pts: seq<nat>, lo: nat, mid: nat, hi: nat, delta: nat, k: nat)
    requires IsSplit(pts, lo, mid, hi, delta) && lo < mid < hi && Complete(pts, lo, hi, k) && 1 <= delta <= k
    ensures Complete(pts, lo, mid, delta - 1) && Complete(pts, mid, hi, delta - 1)
    ensures forall x: nat :: lo <= x < hi ==> SplitAt(pts, x, delta) && Bit(pts[x], delta - 1) == (x >= mid)
  {
    hide Upper, Bit;
    forall y | 0 <= y < |pts|
      ensures lo <= y < mid <==> Upper(pts[y], delta - 1) == Upper(pts[lo], delta - 1)
      ensures mid <= y < hi <==> Upper(pts[y], delta - 1) == Upper(pts[mid], delta - 1)
    {
      UpperBits(pts[y], pts[lo], delta - 1);
      UpperBits(pts[y], pts[mid], delta - 1);
      if Upper(pts[y], delta) == Upper(pts[lo], delta) { UpperUp(pts[y], pts[lo], delta, k); }
    }
    forall x: nat | lo <= x < hi ensures SplitAt(pts, x, delta) {
      var y := if x < mid then mid else lo;
      assert Upper(pts[y], delta) == Upper(pts[x], delta) && Bit(pts[y], delta - 1) != Bit(pts[x], delta - 1);
    }
  }

  // ------------------------------------------------------------- one party's nodes

  /** A point of a waiting node: its uncorrected walk, and no split from the node's parent up to level `w`. */
  ghost predicate PointIs(pts: seq<nat>, g: Hash, base: Base, sigma: seq<Block>, tau: seq<(bool, bool)>, depth: nat, x: nat, n: Node, w: nat)
    requires |sigma| == |tau| == depth + 1 && BaseFits(base, pts, depth)
  {
    && x < |pts| && 1 <= n.parent <= depth && SplitAt(pts, x, n.parent) && Bit(pts[x], n.parent - 1) == (n.child == 1)
    && RawIs(pts, g, base, sigma, tau, depth, x, n.parent, Walk(n.seed, n.tag))
    && forall f: nat :: n.parent < f < w ==> !SplitAt(pts, x, f)
  }

  /** A waiting node: a complete range with the uncorrected walk of its points. */
  ghost predicate NodeIs(pts: seq<nat>, g: Hash, base: Base, sigma: seq<Block>, tau: seq<(bool, bool)>, depth: nat, lev: nat, n: Node, w: nat)
    requires |sigma| == |tau| == depth + 1 && BaseFits(base, pts, depth)
  {
    && IsSplit(pts, n.lo, n.mid, n.hi, lev) && n.child < 2 && lev < n.parent <= depth
    && Complete(pts, n.lo, n.hi, n.parent - 1)
    && forall x: nat :: n.lo <= x < n.hi ==> PointIs(pts, g, base, sigma, tau, depth, x, n, w)
  }

  ghost predicate NodesAre(pts: seq<nat>, g: Hash, base: Base, depth: nat, t: Tree, dn: nat, i: nat, w: nat)
  {
    && Increasing(pts) && Sized(t, depth) && dn <= depth && BaseFits(base, pts, depth)
    && forall lev: nat, k: nat :: lev <= depth && k < |t.levels[lev]| && Pending(lev, k, dn, i) ==>
         NodeIs(pts, g, base, t.sigma, t.tau, depth, lev, t.levels[lev][k], w)
  }

  /** The point lies in a waiting node. */
  ghost predicate Held(t: Tree, x: nat, dn: nat, i: nat)
  {
    exists lev: nat, k: nat :: IsWaiting(t, lev, k, dn, i) && Contains(t.levels[lev][k], x)
  }

  /** Points held before are held after. */
  ghost predicate StillHeld(t: Tree, dn: nat, i: nat, s: Tree, dn': nat, i': nat)
  {
    forall x: nat :: Held(t, x, dn, i) ==> Held(s, x, dn', i')
  }

  lemma PushOne(pts: seq<nat>, g: Hash, base: Base, depth: nat, t: Tree, dn: nat, i: nat, w: nat, lev: nat, n: Node)
    requires NodesAre(pts, g, base, depth, t, dn, i, w) && lev < dn
    requires NodeIs(pts, g, base, t.sigma, t.tau, depth, lev, n, w)
    ensures NodesAre(pts, g, base, depth, Push(t, lev, n), dn, i, w)
    ensures forall x: nat :: Held(t, x, dn, i) || Contains(n, x) ==> Held(Push(t, lev, n), x, dn, i)
  {
    hide NodeIs, Contains, Increasing, BaseFits;
    var s := Push(t, lev, n);
    assert s.sigma == t.sigma && s.tau == t.tau;
    forall l: nat, k: nat | l <= depth && k < |s.levels[l]| && Pending(l, k, dn, i)
      ensures NodeIs(pts, g, base, s.sigma, s.tau, depth, l, s.levels[l][k], w)
    {
      if k < |t.levels[l]| { assert s.levels[l][k] == t.levels[l][k]; }
    }
    forall x: nat | Held(t, x, dn, i) || Contains(n, x) ensures Held(s, x, dn, i) {
      if Held(t, x, dn, i) {
        var l: nat, k: nat :| IsWaiting(t, l, k, dn, i) && Contains(t.levels[l][k], x);
        assert IsWaiting(s, l, k, dn, i) && s.levels[l][k] == t.levels[l][k];
      } else {
        assert IsWaiting(s, lev, |t.levels[lev]|, dn, i) && s.levels[lev][|t.levels[lev]|] == n;
      }
    }
  }

  lemma SumOne(pts: seq<nat>, g: Hash, base: Base, depth: nat, t: Tree, dn: nat, i: nat, w: nat, delta: nat, c: (Block, Block))
    requires NodesAre(pts, g, base, depth, t, dn, i, w) && delta <= depth
    ensures NodesAre(pts, g, base, depth, Summed(t, delta, c), dn, i, w)
    ensures StillHeld(t, dn, i, Summed(t, delta, c), dn, i)
  {
    hide NodeIs, Contains, Increasing, BaseFits;
    var s := Summed(t, delta, c);
    forall x: nat | Held(t, x, dn, i) ensures Held(s, x, dn, i) {
      var l: nat, k: nat :| IsWaiting(t, l, k, dn, i) && Contains(t.levels[l][k], x);
      assert IsWaiting(s, l, k, dn, i);
    }
  }

  /** Expanding a complete range whose points have the walks `c` below the split. */
  lemma ExpandOne(pts: seq<nat>, g: Hash, base: Base, depth: nat, t: Tree, dn: nat, i: nat, w: nat,
                  delta: nat, lo: nat, mid: nat, hi: nat, m: nat, c: (Block, Block), tag: bool)
    requires Sized(t, depth) && BaseFits(base, pts, depth) && 1 <= delta <= dn <= depth && delta <= m && lo < mid < hi <= |pts|
    requires NodesAre(pts, g, base, depth, t, dn, i, w) && IsSplit(pts, lo, mid, hi, delta) && Complete(pts, lo, hi, m)
    requires forall x: nat :: lo <= x < hi ==> BelowIs(pts, g, base, t.sigma, t.tau, depth, x, delta, c, tag)
    requires forall x: nat, f: nat :: lo <= x < hi && delta < f < w ==> !SplitAt(pts, x, f)
    ensures NodesAre(pts, g, base, depth, Expanded(pts, t, delta, lo, mid, hi, c, tag), dn, i, w)
    ensures forall x: nat :: Held(t, x, dn, i) || lo <= x < hi ==> Held(Expanded(pts, t, delta, lo, mid, hi, c, tag), x, dn, i)
  {
    hide Bit, Upper, Raw, SplitAt, Held, PartitionOf, NodesAre, Complete, IsSplit, Contains, NodeIs, RawIs, BelowIs;
    AreSized(pts, g, base, depth, t, dn, i, w);
    HalvesSplit(pts, lo, mid, hi, delta);
    HalvesComplete(pts, lo, mid, hi, delta, m);
    var left, right := PartitionOf(pts, lo, mid, delta), PartitionOf(pts, mid, hi, delta);
    var a, b := Node(lo, left.1, mid, 0, delta, c.0, tag), Node(mid, right.1, hi, 1, delta, c.1, tag);
    SumOne(pts, g, base, depth, t, dn, i, w, delta, c);
    var s := Summed(t, delta, c);
    assert s.sigma == t.sigma && s.tau == t.tau;
    forall x: nat | lo <= x < mid ensures RawIs(pts, g, base, t.sigma, t.tau, depth, x, delta, Walk(c.0, tag)) {
      assert SplitAt(pts, x, delta);
      BelowRaw(pts, g, base, t.sigma, t.tau, depth, x, delta, c, tag);
    }
    forall x: nat | mid <= x < hi ensures RawIs(pts, g, base, t.sigma, t.tau, depth, x, delta, Walk(c.1, tag)) {
      assert SplitAt(pts, x, delta);
      BelowRaw(pts, g, base, t.sigma, t.tau, depth, x, delta, c, tag);
    }
    HalfIs(pts, g, base, depth, t, w, delta, lo, mid, left.0, a);
    HalfIs(pts, g, base, depth, t, w, delta, mid, hi, right.0, b);
    PushOne(pts, g, base, depth, s, dn, i, w, left.0, a);
    PushOne(pts, g, base, depth, Push(s, left.0, a), dn, i, w, right.0, b);
    forall x: nat | Held(t, x, dn, i) || lo <= x < hi ensures Held(Expanded(pts, t, delta, lo, mid, hi, c, tag), x, dn, i) {
      ContainsRange(a, x);
      ContainsRange(b, x);
    }
  }

  /** A half of a split range as a waiting node. */
  lemma HalfIs(pts: seq<nat>, g: Hash, base: Base, depth: nat, t: Tree, w: nat, delta: nat, lo: nat, hi: nat, lev: nat, n: Node)
    requires Sized(t, depth) && BaseFits(base, pts, depth) && 1 <= delta <= depth && lev < delta
    requires n.lo == lo && n.hi == hi && n.child < 2 && n.parent == delta && Complete(pts, lo, hi, delta - 1)
    requires IsSplit(pts, lo, n.mid, hi, lev) && lo < hi <= |pts|
    requires forall x: nat :: lo <= x < hi ==> SplitAt(pts, x, delta) && Bit(pts[x], delta - 1) == (n.child == 1)
    requires forall x: nat :: lo <= x < hi ==> RawIs(pts, g, base, t.sigma, t.tau, depth, x, delta, Walk(n.seed, n.tag))
    requires forall x: nat, f: nat :: lo <= x < hi && delta < f < w ==> !SplitAt(pts, x, f)
    ensures NodeIs(pts, g, base, t.sigma, t.tau, depth, lev, n, w)
  {
    hide Bit, Upper, Raw, RawIs, SplitAt, Complete, IsSplit;
  }

  lemma AreSized(pts: seq<nat>, g: Hash, base: Base, depth: nat, t: Tree, dn: nat, i: nat, w: nat)
    requires NodesAre(pts, g, base, depth, t, dn, i, w)
    ensures Increasing(pts) && Sized(t, depth) && dn <= depth && BaseFits(base, pts, depth)
  {}

  lemma NodeFacts(pts: seq<nat>, g: Hash, base: Base, depth: nat, t: Tree, dn: nat, i: nat, w: nat, lev: nat, k: nat)
    requires NodesAre(pts, g, base, depth, t, dn, i, w) && lev <= depth && lev < |t.levels| && k < |t.levels[lev]| && Pending(lev, k, dn, i)
    ensures NodeIs(pts, g, base, t.sigma, t.tau, depth, lev, t.levels[lev][k], w)
  {
    hide NodeIs;
  }

  /** The corrected walk of a node's points, down to its own level. */
  lemma CorrectedWalk(pts: seq<nat>, g: Hash, base: Base, depth: nat, t: Tree, lev: nat, n: Node, w: nat, x: nat)
    requires Sized(t, depth) && BaseFits(base, pts, depth) && NodeIs(pts, g, base, t.sigma, t.tau, depth, lev, n, w)
    requires n.lo <= x < n.hi
    ensures State(pts, g, base, t.sigma, t.tau, depth, x, lev) == Walk(CorrectedSeed(t, n), CorrectedTag(t, n))
  {
    hide Bit, Upper, State, Raw, SplitAt, Xor, Complete;
    assert PointIs(pts, g, base, t.sigma, t.tau, depth, x, n, w);
    StateSplit(pts, g, base, t.sigma, t.tau, depth, x, n.parent);
    InnerShares(pts, n, lev);
    forall f | lev < f <= n.parent - 1 ensures !SplitAt(pts, x, f) {
      NoSplitInside(pts, n.lo, n.hi, lev, n.parent - 1, x, f);
    }
    NoSplitBetween(pts, g, base, t.sigma, t.tau, depth, x, lev, n.parent - 1);
    MaskedWord(n.tag, t.sigma[n.parent]);
  }

  lemma InnerShares(pts: seq<nat>, n: Node, lev: nat)
    requires IsSplit(pts, n.lo, n.mid, n.hi, lev)
    ensures SharesUpper(pts, n.lo, n.hi, lev)
  {
    hide Upper, Bit;
  }

  ghost predicate HeldNext(t: Tree, x: nat, dn: nat, i: nat)
  {
    Held(t, x, dn, i + 1)
  }

  lemma TakeOne(pts: seq<nat>, g: Hash, base: Base, depth: nat, t: Tree, dn: nat, i: nat, w: nat, seed: Block)
    requires NodesAre(pts, g, base, depth, t, dn, i, w) && i < |t.levels[dn]|
    ensures NodesAre(pts, g, base, depth, Reseeded(t, dn, i, seed), dn, i + 1, w)
    ensures forall x: nat :: Held(t, x, dn, i) ==> HeldNext(Reseeded(t, dn, i, seed), x, dn, i) || Contains(t.levels[dn][i], x)
  {
    hide NodeIs, Contains, Increasing, BaseFits;
    var s := Reseeded(t, dn, i, seed);
    forall l: nat, k: nat | l <= depth && k < |s.levels[l]| && Pending(l, k, dn, i + 1)
      ensures NodeIs(pts, g, base, s.sigma, s.tau, depth, l, s.levels[l][k], w)
    {
      assert s.levels[l][k] == t.levels[l][k];
    }
    forall x: nat | Held(t, x, dn, i) ensures HeldNext(s, x, dn, i) || Contains(t.levels[dn][i], x) {
      var l: nat, k: nat :| IsWaiting(t, l, k, dn, i) && Contains(t.levels[l][k], x);
      if l != dn || k != i { assert IsWaiting(s, l, k, dn, i + 1) && s.levels[l][k] == t.levels[l][k]; }
    }
  }

  /** One step of the level loop. */
  lemma StepOne(pts: seq<nat>, g: Hash, base: Base, depth: nat, t: Tree, dn: nat, i: nat)
    requires NodesAre(pts, g, base, depth, t, dn, i, dn + 1) && dn >= 1 && i < |t.levels[dn]|
    ensures NodesAre(pts, g, base, depth, StepNode(pts, g, t, dn, i), dn, i + 1, dn + 1)
    ensures StillHeld(t, dn, i, StepNode(pts, g, t, dn, i), dn, i + 1)
    ensures |StepNode(pts, g, t, dn, i).levels| == depth + 1 && |StepNode(pts, g, t, dn, i).levels[dn]| == |t.levels[dn]|
  {
    hide Bit, Upper, State, SplitAt, Held, Complete, CorrectedSeed, CorrectedTag, Expanded, IsSplit, NodesAre, Contains, Reseeded,
      NodeIs, Raw, HashPair, BelowIs;
    AreSized(pts, g, base, depth, t, dn, i, dn + 1);
    NodeFacts(pts, g, base, depth, t, dn, i, dn + 1, dn, i);
    var n := t.levels[dn][i];
    NodeShape(pts, g, base, t.sigma, t.tau, depth, dn, n, dn + 1);
    SplitShape(pts, n.lo, n.mid, n.hi, dn);
    var seed, tag := CorrectedSeed(t, n), CorrectedTag(t, n);
    TakeOne(pts, g, base, depth, t, dn, i, dn + 1, seed);
    var s := Reseeded(t, dn, i, seed);
    SameWords(t, dn, i, seed);
    forall x: nat | n.lo <= x < n.hi
      ensures BelowIs(pts, g, base, s.sigma, s.tau, depth, x, dn, HashPair(g, seed), tag)
    {
      CorrectedWalk(pts, g, base, depth, t, dn, n, dn + 1, x);
      RawBelow(pts, g, base, t.sigma, t.tau, depth, x, dn, n.parent);
    }
    ExpandOne(pts, g, base, depth, s, dn, i + 1, dn + 1, dn, n.lo, n.mid, n.hi, n.parent - 1, HashPair(g, seed), tag);
    forall x: nat | Held(t, x, dn, i) ensures Held(StepNode(pts, g, t, dn, i), x, dn, i + 1) { ContainsRange(n, x); }
    ExpandKeeps(pts, s, depth, dn, n.lo, n.mid, n.hi, HashPair(g, seed), tag);
  }

  lemma NodeShape(pts: seq<nat>, g: Hash, base: Base, sigma: seq<Block>, tau: seq<(bool, bool)>, depth: nat, lev: nat, n: Node, w: nat)
    requires |sigma| == |tau| == depth + 1 && BaseFits(base, pts, depth)
    requires NodeIs(pts, g, base, sigma, tau, depth, lev, n, w)
    ensures IsSplit(pts, n.lo, n.mid, n.hi, lev) && n.child < 2 && lev < n.parent <= depth && Complete(pts, n.lo, n.hi, n.parent - 1)
    ensures n.lo < n.hi <= |pts| && forall x: nat :: n.lo <= x < n.hi ==> SplitAt(pts, x, n.parent)
  {
    hide IsSplit, PointIs, Upper;
    forall x: nat | n.lo <= x < n.hi ensures SplitAt(pts, x, n.parent) { PointSplits(pts, g, base, sigma, tau, depth, x, n, w); }
  }

  lemma PointSplits(pts: seq<nat>, g: Hash, base: Base, sigma: seq<Block>, tau: seq<(bool, bool)>, depth: nat, x: nat, n: Node, w: nat)
    requires |sigma| == |tau| == depth + 1 && BaseFits(base, pts, depth) && PointIs(pts, g, base, sigma, tau, depth, x, n, w)
    ensures x < |pts| && n.parent >= 1 && SplitAt(pts, x, n.parent)
  {
    hide SplitAt;
  }

  /** Below a split the children are the expansions of the walk. */
  lemma RawBelow(pts: seq<nat>, g: Hash, base: Base, sigma: seq<Block>, tau: seq<(bool, bool)>, depth: nat, x: nat, e: nat, parent: nat)
    requires x < |pts| && 1 <= e < parent <= depth && |sigma| == |tau| == depth + 1 && BaseFits(base, pts, depth)
    requires SplitAt(pts, x, parent)
    ensures var s := State(pts, g, base, sigma, tau, depth, x, e);
      BelowIs(pts, g, base, sigma, tau, depth, x, e, HashPair(g, s.seed), s.tag)
  {
    hide SplitAt, Bit, Upper, State;
  }

  lemma ContainsRange(n: Node, x: nat)
    ensures Contains(n, x) <==> n.lo <= x < n.hi
  {}

  lemma SameWords(t: Tree, dn: nat, i: nat, seed: Block)
    requires dn < |t.levels| && i < |t.levels[dn]|
    ensures var s := Reseeded(t, dn, i, seed);
      && s.sigma == t.sigma && s.tau == t.tau && s.z == t.z && s.c == t.c
      && |s.levels| == |t.levels| && |s.levels[dn]| == |t.levels[dn]|
  {}

  lemma {:induction false} ProcessedOne(pts: seq<nat>, g: Hash, base: Base, depth: nat, t: Tree, dn: nat, i: nat)
    requires NodesAre(pts, g, base, depth, t, dn, 0, dn + 1) && dn >= 1 && i <= |t.levels[dn]|
    ensures var s := Processed(pts, g, t, depth, dn, i);
      && NodesAre(pts, g, base, depth, s, dn, i, dn + 1) && |s.levels| == depth + 1 && |s.levels[dn]| == |t.levels[dn]|
      && StillHeld(t, dn, 0, s, dn, i)
  {
    hide NodesAre, Held, StepNode;
    AreSized(pts, g, base, depth, t, dn, 0, dn + 1);
    if i > 0 {
      ProcessedOne(pts, g, base, depth, t, dn, i - 1);
      var p := Processed(pts, g, t, depth, dn, i - 1);
      AreSized(pts, g, base, depth, p, dn, i - 1, dn + 1);
      StepOne(pts, g, base, depth, p, dn, i - 1);
    }
  }

  /** The next level waits. */
  lemma LowerOne(pts: seq<nat>, g: Hash, base: Base, depth: nat, t: Tree, dn: nat, w: nat)
    requires dn >= 1 && dn < |t.levels| && NodesAre(pts, g, base, depth, t, dn, |t.levels[dn]|, w)
    ensures NodesAre(pts, g, base, depth, t, dn - 1, 0, w)
    ensures StillHeld(t, dn, |t.levels[dn]|, t, dn - 1, 0)
  {
    hide NodeIs, Contains, Increasing, BaseFits;
    forall x: nat | Held(t, x, dn, |t.levels[dn]|) ensures Held(t, x, dn - 1, 0) {
      var l: nat, k: nat :| IsWaiting(t, l, k, dn, |t.levels[dn]|) && Contains(t.levels[l][k], x);
      assert IsWaiting(t, l, k, dn - 1, 0);
    }
  }

  /** A word becomes known; waiting nodes do not depend on it. */
  lemma WordOne(pts: seq<nat>, g: Hash, base: Base, depth: nat, t: Tree, d: nat, sigma: Block, tau: (bool, bool))
    requires 1 <= d <= depth && NodesAre(pts, g, base, depth, t, d - 1, 0, d + 1)
    ensures NodesAre(pts, g, base, depth, Worded(t, d, sigma, tau), d - 1, 0, d)
    ensures StillHeld(t, d - 1, 0, Worded(t, d, sigma, tau), d - 1, 0)
  {
    hide Contains, Increasing, BaseFits, IsSplit, Complete, SplitAt, Raw, Bit;
    var s := Worded(t, d, sigma, tau);
    forall l: nat, k: nat | l <= depth && k < |s.levels[l]| && Pending(l, k, d - 1, 0)
      ensures NodeIs(pts, g, base, s.sigma, s.tau, depth, l, s.levels[l][k], d)
    {
      NodeKeeps(pts, g, base, depth, t, d, sigma, tau, l, t.levels[l][k]);
    }
    var e := d - 1;
    forall x: nat | Held(t, x, e, 0) ensures Held(s, x, e, 0) {
      var l: nat, k: nat :| IsWaiting(t, l, k, e, 0) && Contains(t.levels[l][k], x);
      assert IsWaiting(s, l, k, e, 0);
    }
  }

  lemma NodeKeeps(pts: seq<nat>, g: Hash, base: Base, depth: nat, t: Tree, d: nat, sigma: Block, tau: (bool, bool), lev: nat, n: Node)
    requires 1 <= d <= depth && Sized(t, depth) && BaseFits(base, pts, depth)
    requires NodeIs(pts, g, base, t.sigma, t.tau, depth, lev, n, d + 1)
    ensures NodeIs(pts, g, base, Worded(t, d, sigma, tau).sigma, Worded(t, d, sigma, tau).tau, depth, lev, n, d)
  {
    hide IsSplit, PointIs, Upper;
    forall x: nat | n.lo <= x < n.hi
      ensures PointIs(pts, g, base, Worded(t, d, sigma, tau).sigma, Worded(t, d, sigma, tau).tau, depth, x, n, d)
    {
      PointKeeps(pts, g, base, depth, t, d, sigma, tau, n, x);
    }
  }

  lemma PointKeeps(pts: seq<nat>, g: Hash, base: Base, depth: nat, t: Tree, d: nat, sigma: Block, tau: (bool, bool), n: Node, x: nat)
    requires 1 <= d <= depth && Sized(t, depth) && BaseFits(base, pts, depth)
    requires PointIs(pts, g, base, t.sigma, t.tau, depth, x, n, d + 1)
    ensures PointIs(pts, g, base, Worded(t, d, sigma, tau).sigma, Worded(t, d, sigma, tau).tau, depth, x, n, d)
  {
    hide SplitAt, Raw, RawIs, Bit, Upper;
    var s := Worded(t, d, sigma, tau);
    assert n.parent < d ==> !SplitAt(pts, x, d);
    RawKeeps(pts, g, base, t.sigma, t.tau, s.sigma, s.tau, depth, x, n.parent, Walk(n.seed, n.tag));
  }

  lemma RawKeeps(pts: seq<nat>, g: Hash, base: Base, sigma: seq<Block>, tau: seq<(bool, bool)>, sigma': seq<Block>, tau': seq<(bool, bool)>,
                 depth: nat, x: nat, e: nat, r: Walk)
    requires x < |pts| && 1 <= e <= depth && |sigma| == |tau| == |sigma'| == |tau'| == depth + 1 && BaseFits(base, pts, depth)
    requires forall f :: e < f <= depth && SplitAt(pts, x, f) ==> sigma[f] == sigma'[f] && tau[f] == tau'[f]
    requires RawIs(pts, g, base, sigma, tau, depth, x, e, r)
    ensures RawIs(pts, g, base, sigma', tau', depth, x, e, r)
  {
    hide SplitAt, Raw;
    WordsAbove(pts, g, base, sigma, tau, sigma', tau', depth, x, e);
  }

  lemma ResumeOne(pts: seq<nat>, g: Hash, base: Base, depth: nat, t: Tree, d: nat, z: (Block, Block))
    requires 1 <= d <= depth && NodesAre(pts, g, base, depth, t, d - 1, 0, d + 1)
    ensures NodesAre(pts, g, base, depth, Resummed(t, d, z), d - 1, 0, d + 1)
    ensures StillHeld(t, d - 1, 0, Resummed(t, d, z), d - 1, 0)
  {
    hide Contains, NodeIs, Increasing, BaseFits;
    var s := Resummed(t, d, z);
    var e := d - 1;
    forall x: nat | Held(t, x, e, 0) ensures Held(s, x, e, 0) {
      var l: nat, k: nat :| IsWaiting(t, l, k, e, 0) && Contains(t.levels[l][k], x);
      assert IsWaiting(s, l, k, e, 0);
    }
  }

  // ------------------------------------------------------------------ leaves

  /** A node at level zero is a single point whose corrected seed and tag end its walk. */
  lemma LeafIs(pts: seq<nat>, g: Hash, base: Base, depth: nat, t: Tree, k: nat, w: nat)
    requires NodesAre(pts, g, base, depth, t, 0, 0, w) && |t.levels| == depth + 1 && k < |t.levels[0]|
    ensures Sized(t, depth) && BaseFits(base, pts, depth)
    ensures var n := t.levels[0][k];
      && n.lo < |pts| && n.hi == n.lo + 1 && n.parent <= depth
      && State(pts, g, base, t.sigma, t.tau, depth, n.lo, 0) == Walk(CorrectedSeed(t, n), CorrectedTag(t, n))
  {
    hide Bit, Upper, State, CorrectedSeed, CorrectedTag, NodesAre, NodeIs, IsSplit, Complete, SplitAt;
    AreSized(pts, g, base, depth, t, 0, 0, w);
    NodeFacts(pts, g, base, depth, t, 0, 0, w, 0, k);
    var n := t.levels[0][k];
    NodeShape(pts, g, base, t.sigma, t.tau, depth, 0, n, w);
    SplitShape(pts, n.lo, n.mid, n.hi, 0);
    CorrectedWalk(pts, g, base, depth, t, 0, n, w, n.lo);
  }

  /** The leaf of point `x` is what its walk ends in. */
  ghost predicate LeafDone(pts: seq<nat>, g: Hash, base: Base, depth: nat, t: Tree, l: Leaves, x: nat)
    requires Sized(t, depth) && BaseFits(base, pts, depth)
  {
    && x < |pts| && x < |l.values| && x < |l.tags|
    && Walk(l.values[x], l.tags[x]) == State(pts, g, base, t.sigma, t.tau, depth, x, 0)
  }

  /** Whether the leaf of `x` is among the first `i` leaf nodes. */
  ghost predicate AmongFirst(t: Tree, x: nat, i: nat)
    requires |t.levels| > 0 && i <= |t.levels[0]|
  {
    exists k: nat :: k < i && t.levels[0][k].lo == x
  }

  lemma {:induction false} FoldDone(pts: seq<nat>, g: Hash, base: Base, depth: nat, t: Tree, w: nat, start: Leaves, i: nat, x: nat)
    requires NodesAre(pts, g, base, depth, t, 0, 0, w) && |t.levels| == depth + 1 == |t.sigma| == |t.tau| && i <= |t.levels[0]|
    requires |start.values| == |start.tags| == |pts| && x < |pts|
    ensures Sized(t, depth) && BaseFits(base, pts, depth)
    ensures LeafDone(pts, g, base, depth, t, start, x) || AmongFirst(t, x, i) ==>
      LeafDone(pts, g, base, depth, t, LeafFold(t, start, i), x)
  {
    hide NodesAre, State, CorrectedSeed, CorrectedTag, BaseFits, Xor;
    AreSized(pts, g, base, depth, t, 0, 0, w);
    if i > 0 {
      FoldDone(pts, g, base, depth, t, w, start, i - 1, x);
      LeafIs(pts, g, base, depth, t, i - 1, w);
      if AmongFirst(t, x, i) {
        var k: nat :| k < i && t.levels[0][k].lo == x;
        assert k < i - 1 || k == i - 1;
      }
    }
  }

  /** Every point lies in a waiting node or starts with its leaf. */
  ghost predicate Covered(pts: seq<nat>, g: Hash, base: Base, depth: nat, t: Tree, dn: nat, i: nat, start: Leaves)
  {
    && Sized(t, depth) && BaseFits(base, pts, depth) && |start.values| == |start.tags| == |pts|
    && forall x: nat :: x < |pts| ==> Held(t, x, dn, i) || IsBase(pts, base, depth, start, x)
  }

  /** A lone point keeps the value and tag of its dense leaf. */
  ghost predicate IsBase(pts: seq<nat>, base: Base, depth: nat, start: Leaves, x: nat)
    requires BaseFits(base, pts, depth)
  {
    && x < |pts| && x < |start.values| && x < |start.tags| && base.Dense? && Alone(pts, x, depth)
    && start.values[x] == base.seeds[Upper(pts[x], depth)] && start.tags[x] == base.tags[Upper(pts[x], depth)]
  }

  lemma LoneWalks(pts: seq<nat>, g: Hash, base: Base, depth: nat, t: Tree, start: Leaves, x: nat)
    requires Sized(t, depth) && BaseFits(base, pts, depth) && IsBase(pts, base, depth, start, x)
    ensures LeafDone(pts, g, base, depth, t, start, x)
  {
    hide Upper, Bit;
    forall f | 0 < f <= depth ensures !SplitAt(pts, x, f) { LoneUnsplit(pts, x, depth, f); }
    NoSplitBetween(pts, g, base, t.sigma, t.tau, depth, x, 0, depth);
  }

  lemma LoneUnsplit(pts: seq<nat>, x: nat, depth: nat, f: nat)
    requires x < |pts| && Alone(pts, x, depth) && 0 < f <= depth
    ensures !SplitAt(pts, x, f)
  {
    hide Upper, Bit;
    forall y: nat | y < |pts| && Upper(pts[y], f) == Upper(pts[x], f) ensures y == x { UpperUp(pts[y], pts[x], f, depth); }
  }

  /** All leaves are done at the end: the value and tag of every point end its walk. */
  lemma AllDone(pts: seq<nat>, g: Hash, base: Base, depth: nat, t: Tree, w: nat, start: Leaves, l: Leaves)
    requires NodesAre(pts, g, base, depth, t, 0, 0, w) && Covered(pts, g, base, depth, t, 0, 0, start)
    requires l == LeafFold(t, start, |t.levels[0]|)
    ensures forall x: nat :: x < |pts| ==> LeafDone(pts, g, base, depth, t, l, x)
  {
    hide NodesAre, State, BaseFits, LeafFold, IsBase, LeafDone;
    forall x: nat | x < |pts| ensures LeafDone(pts, g, base, depth, t, l, x) {
      FoldDone(pts, g, base, depth, t, w, start, |t.levels[0]|, x);
      if IsBase(pts, base, depth, start, x) {
        LoneWalks(pts, g, base, depth, t, start, x);
      } else {
        HeldIsFirst(pts, g, base, depth, t, w, x);
      }
    }
  }

  lemma HeldIsFirst(pts: seq<nat>, g: Hash, base: Base, depth: nat, t: Tree, w: nat, x: nat)
    requires NodesAre(pts, g, base, depth, t, 0, 0, w) && Sized(t, depth) && Held(t, x, 0, 0)
    ensures AmongFirst(t, x, |t.levels[0]|)
  {
    hide NodesAre, State, BaseFits;
    var l: nat, k: nat :| IsWaiting(t, l, k, 0, 0) && Contains(t.levels[l][k], x);
    LeafIs(pts, g, base, depth, t, k, w);
    assert k < |t.levels[0]| && t.levels[0][k].lo == x;
  }

  /** What one party's trees keep through the levels. */
  ghost predicate Traced(pts: seq<nat>, g: Hash, base: Base, depth: nat, t: Tree, dn: nat, w: nat, start: Leaves)
  {
    NodesAre(pts, g, base, depth, t, dn, 0, w) && Covered(pts, g, base, depth, t, dn, 0, start)
  }

  lemma TracedWord(pts: seq<nat>, g: Hash, base: Base, depth: nat, t: Tree, d: nat, sigma: Block, tau: (bool, bool), start: Leaves)
    requires 1 <= d <= depth && Sized(t, depth) && Traced(pts, g, base, depth, t, d - 1, d + 1, start)
    ensures Traced(pts, g, base, depth, Worded(t, d, sigma, tau), d - 1, d, start)
  {
    hide NodesAre, BaseFits, Held, IsBase;
    WordOne(pts, g, base, depth, t, d, sigma, tau);
  }

  lemma TracedFill(pts: seq<nat>, g: Hash, base: Base, depth: nat, t: Tree, d: nat, z: (Block, Block), start: Leaves)
    requires 1 <= d <= depth && Sized(t, depth) && Traced(pts, g, base, depth, t, d - 1, d + 1, start)
    ensures Traced(pts, g, base, depth, Resummed(t, d, z), d - 1, d + 1, start)
  {
    hide NodesAre, BaseFits, Held, IsBase;
    ResumeOne(pts, g, base, depth, t, d, z);
  }

  /** A level that no tree uses needs no word. */
  lemma TracedUnused(pts: seq<nat>, g: Hash, base: Base, depth: nat, t: Tree, d: nat, start: Leaves)
    requires 1 <= d <= depth && Sized(t, depth) && Traced(pts, g, base, depth, t, d - 1, d + 1, start)
    ensures Traced(pts, g, base, depth, t, d - 1, d, start)
  {
    assert Worded(t, d, t.sigma[d], t.tau[d]) == t;
    TracedWord(pts, g, base, depth, t, d, t.sigma[d], t.tau[d], start);
  }

  lemma TracedLevel(pts: seq<nat>, g: Hash, base: Base, depth: nat, t: Tree, dn: nat, start: Leaves)
    requires 1 <= dn && Sized(t, depth) && dn <= depth && Traced(pts, g, base, depth, t, dn, dn + 1, start)
    ensures Traced(pts, g, base, depth, Processed(pts, g, t, depth, dn, |t.levels[dn]|), dn - 1, dn + 1, start)
  {
    hide NodesAre, BaseFits, Held, IsBase, Processed;
    var m := |t.levels[dn]|;
    ProcessedOne(pts, g, base, depth, t, dn, m);
    var s := Processed(pts, g, t, depth, dn, m);
    LowerOne(pts, g, base, depth, s, dn, dn + 1);
    AreSized(pts, g, base, depth, s, dn, m, dn + 1);
  }

  /** Before the first level: nothing waits at the top. */
  lemma TracedTop(pts: seq<nat>, g: Hash, base: Base, depth: nat, t: Tree, w: nat, start: Leaves)
    requires depth >= 1 && Traced(pts, g, base, depth, t, depth, w, start)
    ensures Traced(pts, g, base, depth, t, depth - 1, w, start)
  {
    hide BaseFits, IsBase, Contains;
    TopEmptyOne(pts, g, base, depth, t, w);
    LowerOne(pts, g, base, depth, t, depth, w);
  }

  lemma TopEmptyOne(pts: seq<nat>, g: Hash, base: Base, depth: nat, t: Tree, w: nat)
    requires NodesAre(pts, g, base, depth, t, depth, 0, w)
    ensures |t.levels| == depth + 1 && |t.levels[depth]| == 0
  {
    hide IsSplit, Complete, PointIs;
    if |t.levels| == depth + 1 && |t.levels[depth]| > 0 {
      NodeFacts(pts, g, base, depth, t, depth, 0, w, depth, 0);
    }
  }

  // ------------------------------------------------------------------ the starts

  lemma EmptyOne(pts: seq<nat>, g: Hash, base: Base, depth: nat)
    requires Increasing(pts) && BaseFits(base, pts, depth)
    ensures NodesAre(pts, g, base, depth, EmptyTree(depth), depth, 0, depth + 1)
  {
    hide Increasing, BaseFits, NodeIs;
  }

  /** The start without a dense tree. */
  lemma TracedRoot(pts: seq<nat>, g: Hash, c: (Block, Block), tag: bool, depth: nat, t: Tree, start: Leaves)
    requires |pts| >= 2 && Increasing(pts) && SharesUpper(pts, 0, |pts|, depth) && IsRoot(pts, depth, c, tag, t)
    requires |start.values| == |start.tags| == |pts|
    ensures Traced(pts, g, Roots(c, tag), depth, t, depth, depth + 1, start)
  {
    hide Upper, Bit, Held, IsSplit, SplitAt, Expanded, EmptyTree, NodesAre, BelowIs, PartitionOf;
    var base, r, n := Roots(c, tag), PartitionOf(pts, 0, |pts|, depth), |pts|;
    var e := EmptyTree(depth);
    EmptyOne(pts, g, base, depth);
    SplitShares(pts, 0, r.1, n, r.0);
    forall x: nat, f: nat | x < n && r.0 < f < depth + 1 ensures !SplitAt(pts, x, f) {
      NoSplitInside(pts, 0, n, r.0, depth, x, f);
    }
    forall x: nat | x < n ensures BelowIs(pts, g, base, e.sigma, e.tau, depth, x, r.0, c, tag) {
      RootBelow(pts, g, base, e.sigma, e.tau, depth, x, r.0);
    }
    ExpandOne(pts, g, base, depth, e, depth, 0, depth + 1, r.0, 0, r.1, n, depth, c, tag);
    AreSized(pts, g, base, depth, t, depth, 0, depth + 1);
  }

  lemma SplitShares(pts: seq<nat>, lo: nat, mid: nat, hi: nat, delta: nat)
    requires IsSplit(pts, lo, mid, hi, delta) && hi > lo + 1
    ensures SharesUpper(pts, lo, hi, delta)
  {
    hide Upper, Bit;
  }

  lemma RootBelow(pts: seq<nat>, g: Hash, base: Base, sigma: seq<Block>, tau: seq<(bool, bool)>, depth: nat, x: nat, e: nat)
    requires x < |pts| && 1 <= e <= depth && |sigma| == |tau| == depth + 1 && base.Roots?
    requires forall f: nat :: e < f < depth + 1 ==> !SplitAt(pts, x, f)
    ensures BelowIs(pts, g, base, sigma, tau, depth, x, e, base.c, base.tag)
  {
    hide SplitAt, Bit, Upper, State;
  }

  /** The bins before `x` have been started. */
  ghost predicate BinsTraced(pts: seq<nat>, g: Hash, base: Base, depth: nat, s: Start, x: nat, value: Block)
  {
    && NodesAre(pts, g, base, depth, s.tree, depth, 0, depth + 1) && BaseFits(base, pts, depth)
    && |s.values| == |s.tags| == |pts|
    && forall y: nat :: y < x && y < |pts| ==>
         Held(s.tree, y, depth, 0) || IsBase(pts, base, depth, Leaves(s.values, s.tags, value), y)
  }

  /** A bin holds exactly the points that share its upper bits. */
  lemma BinComplete(pts: seq<nat>, x: nat, depth: nat)
    requires Increasing(pts) && x < |pts| && BinStart(pts, x, depth)
    ensures Complete(pts, x, BinEnd(pts, x, x + 1, depth), depth)
  {
    hide Upper;
    var e := BinEnd(pts, x, x + 1, depth);
    forall y | e <= y < |pts| ensures Upper(pts[y], depth) != Upper(pts[x], depth) {
      UpperMonotone(pts[x], pts[e], depth);
      UpperMonotone(pts[e], pts[y], depth);
    }
  }

  /** Below the first split of a bin the walks are the expansion of its dense seed. */
  lemma DenseBelow(pts: seq<nat>, g: Hash, base: Base, sigma: seq<Block>, tau: seq<(bool, bool)>, depth: nat, x: nat, e: nat)
    requires x < |pts| && 1 <= e <= depth && |sigma| == |tau| == depth + 1 && base.Dense? && BaseFits(base, pts, depth)
    requires forall f: nat :: e < f < depth + 1 ==> !SplitAt(pts, x, f)
    ensures var bin := Upper(pts[x], depth);
      BelowIs(pts, g, base, sigma, tau, depth, x, e, HashPair(g, base.seeds[bin]), base.tags[bin])
  {
    hide SplitAt, Bit, Upper, Fixed;
    NoSplitBetween(pts, g, base, sigma, tau, depth, x, e, depth);
  }

  lemma BinTraced(pts: seq<nat>, g: Hash, depth: nat, seeds: seq<Block>, tags: seq<bool>, s: Start, x: nat, value: Block)
    requires x < |pts| && BinStart(pts, x, depth) && Fits(pts, depth, seeds, tags, s)
    requires BinsTraced(pts, g, Dense(seeds, tags), depth, s, x, value) && Increasing(pts)
    ensures BinsTraced(pts, g, Dense(seeds, tags), depth, BinStep(pts, g, depth, seeds, tags, s, x), BinEnd(pts, x, x + 1, depth), value)
  {
    hide Upper, Bit, Held, IsSplit, SplitAt, Expanded, NodesAre, BelowIs, PartitionOf, HashPair, BinStart, Alone, Increasing;
    var base, e, r := Dense(seeds, tags), BinEnd(pts, x, x + 1, depth), BinStep(pts, g, depth, seeds, tags, s, x);
    AreSized(pts, g, base, depth, s.tree, depth, 0, depth + 1);
    var bin := Upper(pts[x], depth);
    if e == x + 1 {
      AloneBin(pts, x, x, depth);
      var l := Leaves(r.values, r.tags, value);
      forall y: nat | y < e ensures Held(r.tree, y, depth, 0) || IsBase(pts, base, depth, l, y) {
        assert y < x ==> l.values[y] == s.values[y] && l.tags[y] == s.tags[y];
      }
    } else {
      BinComplete(pts, x, depth);
      BinSplits(pts, x, depth);
      var p, t := PartitionOf(pts, x, e, depth), s.tree;
      SplitShares(pts, x, p.1, e, p.0);
      forall y: nat, f: nat | x <= y < e && p.0 < f < depth + 1 ensures !SplitAt(pts, y, f) {
        NoSplitInside(pts, x, e, p.0, depth, y, f);
      }
      forall y: nat | x <= y < e
        ensures BelowIs(pts, g, base, t.sigma, t.tau, depth, y, p.0, HashPair(g, seeds[bin]), tags[bin])
      {
        DenseBelow(pts, g, base, t.sigma, t.tau, depth, y, p.0);
      }
      ExpandOne(pts, g, base, depth, t, depth, 0, depth + 1, p.0, x, p.1, e, depth, HashPair(g, seeds[bin]), tags[bin]);
    }
  }

  lemma {:induction false} DenseTraced(pts: seq<nat>, g: Hash, depth: nat, seeds: seq<Block>, tags: seq<bool>, s: Start, x: nat, value: Block)
    requires x <= |pts| && BinStart(pts, x, depth) && Fits(pts, depth, seeds, tags, s)
    requires BinsTraced(pts, g, Dense(seeds, tags), depth, s, x, value) && Increasing(pts)
    ensures BinsTraced(pts, g, Dense(seeds, tags), depth, DenseFrom(pts, g, depth, seeds, tags, s, x), |pts|, value)
    decreases |pts| - x
  {
    hide Upper, BinsTraced, BinStart, BinStep, Fits;
    if x < |pts| {
      BinTraced(pts, g, depth, seeds, tags, s, x, value);
      NextBin(pts, x, depth);
      DenseTraced(pts, g, depth, seeds, tags, BinStep(pts, g, depth, seeds, tags, s, x), BinEnd(pts, x, x + 1, depth), value);
    }
  }

  /** The start on the leaves of a dense tree. */
  lemma TracedBins(pts: seq<nat>, g: Hash, depth: nat, seeds: seq<Block>, tags: seq<bool>, s: Start, value: Block)
    requires Increasing(pts) && Fits(pts, depth, seeds, tags, Blank(pts, depth))
    requires s == DenseFrom(pts, g, depth, seeds, tags, Blank(pts, depth), 0)
    ensures Traced(pts, g, Dense(seeds, tags), depth, s.tree, depth, depth + 1, Leaves(s.values, s.tags, value))
  {
    hide Upper, NodesAre, DenseFrom, Held, IsBase;
    EmptyOne(pts, g, Dense(seeds, tags), depth);
    DenseTraced(pts, g, depth, seeds, tags, Blank(pts, depth), 0, value);
    AreSized(pts, g, Dense(seeds, tags), depth, s.tree, depth, 0, depth + 1);
  }

  // ------------------------------------------------------------------ lists of trees

  /** Where one party's tree comes from. */
  datatype Origin = Origin(base: Base, start: Leaves)

  ghost predicate AllTraced(rows: seq<seq<nat>>, g: Hash, origins: seq<Origin>, depth: nat, ts: seq<Tree>, dn: nat, w: nat)
  {
    && |rows| == |origins| == |ts|
    && forall k :: 0 <= k < |rows| ==> Traced(rows[k], g, origins[k].base, depth, ts[k], dn, w, origins[k].start)
  }

  lemma TracedSized(pts: seq<nat>, g: Hash, base: Base, depth: nat, t: Tree, dn: nat, w: nat, start: Leaves)
    requires Traced(pts, g, base, depth, t, dn, w, start)
    ensures Sized(t, depth) && BaseFits(base, pts, depth) && |start.values| == |start.tags| == |pts|
  {
    hide NodesAre;
  }

  lemma AllFilled(rows: seq<seq<nat>>, g: Hash, origins: seq<Origin>, depth: nat, ts: seq<Tree>, d: nat, z: seq<(Block, Block)>, ss: seq<Tree>)
    requires 1 <= d <= depth && AllTraced(rows, g, origins, depth, ts, d - 1, d + 1) && |ss| == |z| == |ts|
    requires forall k :: 0 <= k < |ts| ==> Sized(ts[k], depth) && ss[k] == if ts[k].c[d] then ts[k] else Resummed(ts[k], d, z[k])
    ensures AllTraced(rows, g, origins, depth, ss, d - 1, d + 1)
  {
    hide Traced;
    forall k | 0 <= k < |rows| ensures Traced(rows[k], g, origins[k].base, depth, ss[k], d - 1, d + 1, origins[k].start) {
      TracedFill(rows[k], g, origins[k].base, depth, ts[k], d, z[k], origins[k].start);
    }
  }

  lemma AllWorded(rows: seq<seq<nat>>, g: Hash, origins: seq<Origin>, depth: nat, ts: seq<Tree>, d: nat,
                  sigma: seq<Block>, tau: seq<(bool, bool)>, ss: seq<Tree>)
    requires 1 <= d <= depth && AllTraced(rows, g, origins, depth, ts, d - 1, d + 1) && |ss| == |sigma| == |tau| == |ts|
    requires forall k :: 0 <= k < |ts| ==> Sized(ts[k], depth) && ss[k] == Worded(ts[k], d, sigma[k], tau[k])
    ensures AllTraced(rows, g, origins, depth, ss, d - 1, d)
  {
    hide Traced;
    forall k | 0 <= k < |rows| ensures Traced(rows[k], g, origins[k].base, depth, ss[k], d - 1, d, origins[k].start) {
      TracedWord(rows[k], g, origins[k].base, depth, ts[k], d, sigma[k], tau[k], origins[k].start);
    }
  }

  lemma AllUnused(rows: seq<seq<nat>>, g: Hash, origins: seq<Origin>, depth: nat, ts: seq<Tree>, d: nat)
    requires 1 <= d <= depth && AllTraced(rows, g, origins, depth, ts, d - 1, d + 1)
    ensures AllTraced(rows, g, origins, depth, ts, d - 1, d)
  {
    hide Traced;
    forall k | 0 <= k < |rows| ensures Traced(rows[k], g, origins[k].base, depth, ts[k], d - 1, d, origins[k].start) {
      TracedSized(rows[k], g, origins[k].base, depth, ts[k], d - 1, d + 1, origins[k].start);
      TracedUnused(rows[k], g, origins[k].base, depth, ts[k], d, origins[k].start);
    }
  }

  lemma AllLevel(rows: seq<seq<nat>>, g: Hash, origins: seq<Origin>, depth: nat, ts: seq<Tree>, dn: nat, ss: seq<Tree>)
    requires 1 <= dn <= depth && AllTraced(rows, g, origins, depth, ts, dn, dn + 1) && |ss| == |ts|
    requires forall k :: 0 <= k < |ts| ==>
      Sized(ts[k], depth) && ss[k] == Processed(rows[k], g, ts[k], depth, dn, |ts[k].levels[dn]|)
    ensures AllTraced(rows, g, origins, depth, ss, dn - 1, dn + 1)
  {
    hide Traced, Processed;
    forall k | 0 <= k < |rows| ensures Traced(rows[k], g, origins[k].base, depth, ss[k], dn - 1, dn + 1, origins[k].start) {
      TracedLevel(rows[k], g, origins[k].base, depth, ts[k], dn, origins[k].start);
    }
  }

  lemma AllTop(rows: seq<seq<nat>>, g: Hash, origins: seq<Origin>, depth: nat, ts: seq<Tree>, w: nat)
    requires AllTraced(rows, g, origins, depth, ts, depth, w)
    ensures AllTraced(rows, g, origins, depth, ts, if depth == 0 then 0 else depth - 1, w)
  {
    hide Traced;
    if depth > 0 {
      forall k | 0 <= k < |rows| ensures Traced(rows[k], g, origins[k].base, depth, ts[k], depth - 1, w, origins[k].start) {
        TracedTop(rows[k], g, origins[k].base, depth, ts[k], w, origins[k].start);
      }
    }
  }

  /** The two parties hold the same words. */
  ghost predicate Agreed(ts0: seq<Tree>, ts1: seq<Tree>)
  {
    |ts0| == |ts1| && forall k :: 0 <= k < |ts0| ==> ts0[k].sigma == ts1[k].sigma && ts0[k].tau == ts1[k].tau
  }

  lemma {:induction false} ProcessedWords(pts: seq<nat>, g: Hash, t: Tree, depth: nat, dn: nat, i: nat)
    requires Sized(t, depth) && dn <= depth && i <= |t.levels[dn]|
    ensures Processed(pts, g, t, depth, dn, i).sigma == t.sigma && Processed(pts, g, t, depth, dn, i).tau == t.tau
  {
    hide CorrectedSeed, CorrectedTag, HashPair, PartitionOf, Xor;
    if i > 0 { ProcessedWords(pts, g, t, depth, dn, i - 1); }
  }

  // ------------------------------------------------------------------ the outputs

  /** The words of one tree, and its correction of the leaves. */
  datatype Words = Words(sigma: seq<Block>, tau: seq<(bool, bool)>, gamma: Block)

  /** The output of point `x` is the end of its walk, corrected where the tag is one. */
  ghost predicate EndsIn(pts: seq<nat>, g: Hash, base: Base, depth: nat, w: Words, x: nat, out: (Block, bool))
    requires x < |pts| && |w.sigma| == |w.tau| == depth + 1 && BaseFits(base, pts, depth)
  {
    var s := State(pts, g, base, w.sigma, w.tau, depth, x, 0);
    out == (if s.tag then Xor(s.seed, w.gamma) else s.seed, s.tag)
  }

  ghost predicate Walked(pts: seq<nat>, g: Hash, base: Base, depth: nat, w: Words, out: seq<(Block, bool)>)
  {
    && |w.sigma| == |w.tau| == depth + 1 && BaseFits(base, pts, depth) && |out| == |pts|
    && forall x: nat :: x < |pts| ==> EndsIn(pts, g, base, depth, w, x, out[x])
  }

  lemma WalkedMeans(pts: seq<nat>, g: Hash, base: Base, depth: nat, w: Words, out: seq<(Block, bool)>, x: nat)
    requires Walked(pts, g, base, depth, w, out) && x < |pts|
    ensures |w.sigma| == |w.tau| == depth + 1 && BaseFits(base, pts, depth) && |out| == |pts|
    ensures var s := State(pts, g, base, w.sigma, w.tau, depth, x, 0);
      out[x] == (if s.tag then Xor(s.seed, w.gamma) else s.seed, s.tag)
  {
    hide State;
    assert EndsIn(pts, g, base, depth, w, x, out[x]);
  }

  lemma OutputWalked(pts: seq<nat>, g: Hash, origin: Origin, depth: nat, t: Tree, w: nat, l: Leaves, gamma: Block, out: seq<(Block, bool)>)
    requires Traced(pts, g, origin.base, depth, t, 0, w, origin.start) && IsOutput(out, l, gamma)
    requires Sized(t, depth) && |origin.start.values| == |origin.start.tags| == |pts|
    requires l == LeafFold(t, origin.start, |t.levels[0]|)
    ensures Walked(pts, g, origin.base, depth, Words(t.sigma, t.tau, gamma), out)
  {
    hide NodesAre, State, BaseFits, LeafFold, Held, IsBase, Xor, And, Saturated;
    AllDone(pts, g, origin.base, depth, t, w, origin.start, l);
    forall x: nat | x < |pts| ensures EndsIn(pts, g, origin.base, depth, Words(t.sigma, t.tau, gamma), x, out[x]) {
      assert LeafDone(pts, g, origin.base, depth, t, l, x);
      MaskedWord(l.tags[x], gamma);
      XorZero(l.values[x], l.values[x]);
    }
  }
}
