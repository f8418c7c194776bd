/**
 SparseDpf.h, expand by the two parties: the start, the levels from the top down, and the output shares,
 for a list of trees that share one multiplication to a level.
 */
module SparseDpfRun {
  import opened Numbers
  import opened Wrappers
  import opened Blocks
  import opened DpfTree
  import opened SparseTree
  import opened SparseDpf
  import opened SparseEval
  import M = DpfMult
  import D = RegularDpf
  import R = RegularDpfRun

  ghost predicate Parties(p0: Party, p1: Party)
    reads p0.mult, p1.mult
  {
    && p0 != p1 && p0.mult != p1.mult && p0.partyIdx == 0 && p1.partyIdx == 1 && p0.g == p1.g && p0.depth == p1.depth
    && p0.numPoints == p1.numPoints
    && M.Paired(p0.mult, p1.mult)
  }

  ghost predicate SameOff(xa: nat, v0: seq<Block>, v1: seq<Block>, t0: seq<bool>, t1: seq<bool>)
  {
    && xa < |v0| == |v1| == |t0| == |t1|
    && forall y :: 0 <= y < |v0| && y != xa ==> v0[y] == v1[y] && t0[y] == t1[y]
  }

  // ------------------------------------------------------------------ the start

  /** Two empty trees. */
  lemma EmptyInv(pts: seq<nat>, xa: nat, depth: nat)
    requires Increasing(pts) && xa < |pts|
    ensures Inv(pts, xa, depth, EmptyTree(depth), EmptyTree(depth), depth, 0, None, depth, depth + 1)
  {
    hide Bit, NodePair, WordOk;
  }

  lemma SparseBoth(pts: seq<nat>, xa: nat, depth: nat, c0: (Block, Block), c1: (Block, Block), delta: nat, mid: nat)
    returns (path: Option<(nat, nat)>, top: nat)
    requires Increasing(pts) && xa < |pts| && 1 <= delta <= depth
    requires IsSplit(pts, 0, mid, |pts|, delta) && 0 < mid < |pts|
    ensures path.Some?
    ensures Inv(pts, xa, depth, Expanded(pts, EmptyTree(depth), delta, 0, mid, |pts|, c0, false),
                Expanded(pts, EmptyTree(depth), delta, 0, mid, |pts|, c1, true), depth, 0, path, top, depth + 1)
  {
    hide Inv, IsSplit, Expanded;
    EmptyInv(pts, xa, depth);
    path := ExpandOn(pts, xa, depth, EmptyTree(depth), EmptyTree(depth), depth, 0, depth, depth + 1,
                     delta, 0, mid, |pts|, c0, c1, false);
    top := delta - 1;
  }

  /** Dense seeds of the two parties: equal off alpha's bin, opposite tags in it. */
  ghost predicate DenseShares(seeds0: seq<Block>, seeds1: seq<Block>, tags0: seq<bool>, tags1: seq<bool>, bin: nat)
  {
    && |seeds0| == |seeds1| == |tags0| == |tags1| && bin < |seeds0| && tags0[bin] != tags1[bin]
    && forall i :: 0 <= i < |seeds0| && i != bin ==> seeds0[i] == seeds1[i] && tags0[i] == tags1[i]
  }

  /** The start in front of the bin at `x`. */
  ghost predicate StartInv(pts: seq<nat>, xa: nat, depth: nat, s0: Start, s1: Start, x: nat, path: Option<(nat, nat)>, top: nat,
                           seeds0: seq<Block>, seeds1: seq<Block>, tags0: seq<bool>, tags1: seq<bool>)
    requires xa < |pts| && Upper(pts[xa], depth) < |seeds0| == |seeds1| == |tags0| == |tags1|
  {
    var bin := Upper(pts[xa], depth);
    && Inv(pts, xa, depth, s0.tree, s1.tree, depth, 0, path, top, depth + 1)
    && SameOff(xa, s0.values, s1.values, s0.tags, s1.tags) && |s0.values| == |pts|
    && (x <= xa ==> path == None && top == depth)
    && (x > xa ==> (path == None <==> Alone(pts, xa, depth)))
    && (x > xa && Alone(pts, xa, depth) ==>
          s0.values[xa] == seeds0[bin] && s1.values[xa] == seeds1[bin] && s0.tags[xa] == tags0[bin] && s1.tags[xa] == tags1[bin])
  }

  lemma StartStep(pts: seq<nat>, g: Hash, xa: nat, depth: nat, s0: Start, s1: Start, x: nat, path: Option<(nat, nat)>, top: nat,
                  seeds0: seq<Block>, seeds1: seq<Block>, tags0: seq<bool>, tags1: seq<bool>)
    returns (path': Option<(nat, nat)>, top': nat)
    requires Increasing(pts) && xa < |pts| && x < |pts| && BinStart(pts, x, depth)
    requires Fits(pts, depth, seeds0, tags0, s0) && Fits(pts, depth, seeds1, tags1, s1)
    requires DenseShares(seeds0, seeds1, tags0, tags1, Upper(pts[xa], depth))
    requires StartInv(pts, xa, depth, s0, s1, x, path, top, seeds0, seeds1, tags0, tags1)
    ensures StartInv(pts, xa, depth, BinStep(pts, g, depth, seeds0, tags0, s0, x), BinStep(pts, g, depth, seeds1, tags1, s1, x),
                     BinEnd(pts, x, x + 1, depth), path', top', seeds0, seeds1, tags0, tags1)
  {
    hide Upper, Inv, Expanded, HashPair, IsSplit, Xor, Alone, PartitionOf;
    var bin, e := Upper(pts[x], depth), BinEnd(pts, x, x + 1, depth);
    path', top' := path, top;
    if x <= xa < e { AloneBin(pts, x, xa, depth); }
    if x <= xa && e <= xa { OtherBin(pts, x, xa, depth); }
    if xa < x { assert Upper(pts[xa], depth) < Upper(pts[x], depth); }
    if e != x + 1 {
      BinSplits(pts, x, depth);
      var r := PartitionOf(pts, x, e, depth);
      if x <= xa < e {
        path' := ExpandOn(pts, xa, depth, s0.tree, s1.tree, depth, 0, depth, depth + 1, r.0, x, r.1, e,
                          HashPair(g, seeds0[bin]), HashPair(g, seeds1[bin]), tags0[bin]);
        top' := r.0 - 1;
      } else {
        ExpandOff(pts, xa, depth, s0.tree, s1.tree, depth, 0, path, top, depth + 1, r.0, x, r.1, e,
                  HashPair(g, seeds0[bin]), tags0[bin]);
      }
    }
  }

  lemma OtherBin(pts: seq<nat>, x: nat, xa: nat, depth: nat)
    requires Increasing(pts) && x < |pts| && BinEnd(pts, x, x + 1, depth) <= xa < |pts|
    ensures Upper(pts[x], depth) != Upper(pts[xa], depth)
  {
    hide Upper;
    var e := BinEnd(pts, x, x + 1, depth);
    UpperMonotone(pts[x], pts[e], depth);
    UpperMonotone(pts[e], pts[xa], depth);
  }

  lemma {:induction false} DenseBoth(pts: seq<nat>, g: Hash, xa: nat, depth: nat, s0: Start, s1: Start, x: nat,
                                     path: Option<(nat, nat)>, top: nat,
                                     seeds0: seq<Block>, seeds1: seq<Block>, tags0: seq<bool>, tags1: seq<bool>)
    returns (path': Option<(nat, nat)>, top': nat)
    requires Increasing(pts) && xa < |pts| && x <= |pts| && BinStart(pts, x, depth)
    requires Fits(pts, depth, seeds0, tags0, s0) && Fits(pts, depth, seeds1, tags1, s1)
    requires DenseShares(seeds0, seeds1, tags0, tags1, Upper(pts[xa], depth))
    requires StartInv(pts, xa, depth, s0, s1, x, path, top, seeds0, seeds1, tags0, tags1)
    ensures StartInv(pts, xa, depth, DenseFrom(pts, g, depth, seeds0, tags0, s0, x), DenseFrom(pts, g, depth, seeds1, tags1, s1, x),
                     |pts|, path', top', seeds0, seeds1, tags0, tags1)
    decreases |pts| - x
  {
    hide Upper, Inv, BinStep, StartInv, BinStart, DenseShares;
    if x == |pts| {
      path', top' := path, top;
    } else {
      path', top' := StartStep(pts, g, xa, depth, s0, s1, x, path, top, seeds0, seeds1, tags0, tags1);
      NextBin(pts, x, depth);
      path', top' := DenseBoth(pts, g, xa, depth, BinStep(pts, g, depth, seeds0, tags0, s0, x),
                               BinStep(pts, g, depth, seeds1, tags1, s1, x), BinEnd(pts, x, x + 1, depth), path', top',
                               seeds0, seeds1, tags0, tags1);
    }
  }

  // ------------------------------------------------------------------ the levels

  /** The first `i` nodes of a level, by both parties. */
  lemma {:induction false} ProcessedBoth(pts: seq<nat>, g: Hash, xa: nat, depth: nat, t0: Tree, t1: Tree, dn: nat, i: nat,
                                         path: Option<(nat, nat)>, top: nat)
    returns (path': Option<(nat, nat)>, top': nat)
    requires 1 <= dn && Inv(pts, xa, depth, t0, t1, dn, 0, path, top, dn + 1) && i <= |t0.levels[dn]| == |t1.levels[dn]|
    ensures var s0, s1 := Processed(pts, g, t0, depth, dn, i), Processed(pts, g, t1, depth, dn, i);
      && Inv(pts, xa, depth, s0, s1, dn, i, path', top', dn + 1) && (path'.Some? <==> path.Some?)
      && |s0.levels| == depth + 1 && |s0.levels[dn]| == |t0.levels[dn]|
  {
    hide Inv, StepNode;
    InvSized(pts, xa, depth, t0, t1, dn, 0, path, top, dn + 1);
    if i == 0 {
      path', top' := path, top;
    } else {
      path', top' := ProcessedBoth(pts, g, xa, depth, t0, t1, dn, i - 1, path, top);
      var s0, s1 := Processed(pts, g, t0, depth, dn, i - 1), Processed(pts, g, t1, depth, dn, i - 1);
      InvSized(pts, xa, depth, s0, s1, dn, i - 1, path', top', dn + 1);
      PairFacts(pts, xa, depth, s0, s1, dn, i - 1, path', top', dn + 1, dn, i - 1);
      StepKeeps(pts, g, depth, s0, dn, i - 1);
      path', top' := StepBoth(pts, g, xa, depth, s0, s1, dn, i - 1, path', top', dn + 1);
    }
  }

  lemma StepKeeps(pts: seq<nat>, g: Hash, depth: nat, t: Tree, dn: nat, i: nat)
    requires Increasing(pts) && Sized(t, depth) && 1 <= dn <= depth && i < |t.levels[dn]|
    requires var n := t.levels[dn][i]; IsSplit(pts, n.lo, n.mid, n.hi, dn)
    ensures |StepNode(pts, g, t, dn, i).levels| == depth + 1 && |StepNode(pts, g, t, dn, i).levels[dn]| == |t.levels[dn]|
  {
    hide IsSplit, Expanded, CorrectedSeed, CorrectedTag, HashPair;
    var n := t.levels[dn][i];
    SplitShape(pts, n.lo, n.mid, n.hi, dn);
    if n.parent <= depth {
      var seed := CorrectedSeed(t, n);
      ExpandKeeps(pts, Reseeded(t, dn, i, seed), depth, dn, n.lo, n.mid, n.hi, HashPair(g, seed), CorrectedTag(t, n));
    }
  }

  /** The waiting nodes of a level can be split. */
  lemma WaitingSplits(pts: seq<nat>, xa: nat, depth: nat, t0: Tree, t1: Tree, dn: nat, path: Option<(nat, nat)>, top: nat, w: nat)
    requires Inv(pts, xa, depth, t0, t1, dn, 0, path, top, w)
    ensures Increasing(pts) && Sized(t0, depth) && Sized(t1, depth) && dn <= depth
    ensures Splittable(pts, t0, depth, dn, 0) && Splittable(pts, t1, depth, dn, 0)
  {
    hide IsSplit, Contains, Diff, Bit, WordOk;
    forall k | 0 <= k < |t0.levels[dn]|
      ensures var n := t0.levels[dn][k]; IsSplit(pts, n.lo, n.mid, n.hi, dn) && n.parent <= depth
      ensures var n := t1.levels[dn][k]; IsSplit(pts, n.lo, n.mid, n.hi, dn) && n.parent <= depth
    {
      assert Pending(dn, k, dn, 0);
    }
  }

  /** What the two messages of a level open to. */
  lemma OpenedWord(b0: bool, b1: bool, z0: (Block, Block), z1: (Block, Block), q0: Block, q1: Block)
    requires Xor(q0, q1) == if b0 != (b1 != true) then Xor(Xor(z0.0, z0.1), Xor(z1.0, z1.1)) else ZERO
    ensures var sigma := Xor(Xor(q0, z0.0), Xor(q1, z1.0));
      && sigma == Xor(Xor(q1, z1.0), Xor(q0, z0.0))
      && sigma == (if b0 != b1 then Xor(z0.0, z1.0) else Xor(z0.1, z1.1))
    ensures ((Lsb(z0.0) != b0) != ((Lsb(z1.0) != b1) != true)) == (Lsb(Xor(z0.0, z1.0)) != !(b0 != b1))
    ensures ((Lsb(z0.1) != b0) != (Lsb(z1.1) != b1)) == (Lsb(Xor(z0.1, z1.1)) != (b0 != b1))
  {
    var sigma := Xor(Xor(q0, z0.0), Xor(q1, z1.0));
    XorCommutes(Xor(q0, z0.0), Xor(q1, z1.0));
    LsbXor(z0.0, z1.0);
    LsbXor(z0.1, z1.1);
    XorSwap(q0, z0.0, q1, z1.0);
    if b0 != b1 {
      XorZero(Xor(z0.0, z1.0), ZERO);
    } else {
      XorSwap(z0.0, z0.1, z1.0, z1.1);
      CancelLeft(Xor(z0.0, z1.0), Xor(z0.1, z1.1));
    }
  }

  lemma CancelLeft(a: Block, b: Block)
    ensures Xor(Xor(a, b), a) == b
  {
    assert Xor(Xor(a, b), a) == b;
  }

  lemma WordFrom(t0: Tree, t1: Tree, depth: nat, d: nat, bit: bool, sigma: Block, tau: (bool, bool))
    requires Sized(t0, depth) && Sized(t1, depth) && d <= depth
    requires sigma == (if bit then Xor(t0.z[d].0, t1.z[d].0) else Xor(t0.z[d].1, t1.z[d].1))
    requires tau == (Lsb(Xor(t0.z[d].0, t1.z[d].0)) != !bit, Lsb(Xor(t0.z[d].1, t1.z[d].1)) != bit)
    ensures WordOk(Worded(t0, d, sigma, tau), Worded(t1, d, sigma, tau), depth, d, bit)
  {}

  /** Where a tree's path waits, and the level below its last expanded node. */
  datatype Spot = Spot(path: Option<(nat, nat)>, top: nat)

  /** Every tree of the list, in front of level `dn`. */
  ghost predicate AllInv(rows: seq<seq<nat>>, xas: seq<nat>, depth: nat, ts0: seq<Tree>, ts1: seq<Tree>, dn: nat, spots: seq<Spot>, w: nat)
  {
    && |rows| == |xas| == |ts0| == |ts1| == |spots|
    && forall k :: 0 <= k < |rows| ==> Inv(rows[k], xas[k], depth, ts0[k], ts1[k], dn, 0, spots[k].path, spots[k].top, w)
  }

  /** Some paths may not wait in a tree; those that do go on to do so. */
  ghost predicate SamePaths(s: seq<Spot>, t: seq<Spot>)
  {
    |s| == |t| && forall k :: 0 <= k < |s| ==> (s[k].path.Some? <==> t[k].path.Some?)
  }

  lemma AllAreSized(p: Party, q: Party, rows: seq<seq<nat>>, xas: seq<nat>, dn: nat, spots: seq<Spot>, w: nat)
    requires p.depth == q.depth && p.numPoints == q.numPoints == |rows|
    requires AllInv(rows, xas, p.depth, p.trees, q.trees, dn, spots, w)
    ensures p.AllSized() && q.AllSized()
    ensures forall k :: 0 <= k < |rows| ==> Increasing(rows[k]) && xas[k] < |rows[k]| && p.trees[k].c == q.trees[k].c
  {
    hide Inv, Increasing;
    forall k | 0 <= k < |rows|
      ensures Sized(p.trees[k], p.depth) && Sized(q.trees[k], p.depth)
      ensures Increasing(rows[k]) && xas[k] < |rows[k]| && p.trees[k].c == q.trees[k].c
    {
      InvSized(rows[k], xas[k], p.depth, p.trees[k], q.trees[k], dn, 0, spots[k].path, spots[k].top, w);
    }
  }

  /** The points of a row are shared by the two parties, as far as `bits` goes. */
  ghost predicate SharesRows(rows: seq<seq<nat>>, xas: seq<nat>, points0: seq<nat>, points1: seq<nat>, bits: nat)
  {
    && |rows| == |xas| == |points0| == |points1|
    && forall k :: 0 <= k < |rows| ==> xas[k] < |rows[k]| && R.SharesPoint(rows[k][xas[k]], points0[k], points1[k], bits)
  }

  /** One tree in front of the word of level `d`: a level it does not use is settled. */
  ghost predicate BeforeWord(pts: seq<nat>, xa: nat, depth: nat, t0: Tree, t1: Tree, d: nat, s: Spot)
    requires d < |t0.c|
  {
    d >= 1 && Inv(pts, xa, depth, t0, t1, d - 1, 0, s.path, s.top, if t0.c[d] then d + 1 else d)
  }

  lemma Filled(pts: seq<nat>, xa: nat, depth: nat, t0: Tree, t1: Tree, d: nat, s: Spot, z0: (Block, Block), z1: (Block, Block))
    requires 1 <= d <= depth && Inv(pts, xa, depth, t0, t1, d - 1, 0, s.path, s.top, d + 1)
    ensures d < |t0.c| && t0.c == t1.c && d < |t0.z| && d < |t1.z|
    ensures BeforeWord(pts, xa, depth, if t0.c[d] then t0 else Resummed(t0, d, z0), if t1.c[d] then t1 else Resummed(t1, d, z1), d, s)
  {
    hide Inv;
    InvSized(pts, xa, depth, t0, t1, d - 1, 0, s.path, s.top, d + 1);
    if !t0.c[d] { SkipWord(pts, xa, depth, t0, t1, d, s.path, s.top, z0, z1); }
  }

  /** What opening the two messages of a level does to one tree. */
  lemma WordedTree(pts: seq<nat>, xa: nat, depth: nat, t0: Tree, t1: Tree, d: nat, s: Spot, point0: nat, point1: nat, q0: Block, q1: Block)
    requires 1 <= d <= depth && Sized(t0, depth) && Sized(t1, depth) && BeforeWord(pts, xa, depth, t0, t1, d, s) && xa < |pts|
    requires Bit(pts[xa], d - 1) == (Bit(point0, d - 1) != Bit(point1, d - 1))
    requires var m0, m1 := MaskedOf(t0, point0, 0, d), MaskedOf(t1, point1, 1, d);
      Xor(q0, q1) == if m0.x != m1.x then Xor(m0.y, m1.y) else ZERO
    ensures var m0, m1 := MaskedOf(t0, point0, 0, d), MaskedOf(t1, point1, 1, d);
      var sigma, tau := Xor(Xor(q0, t0.z[d].0), Xor(q1, t1.z[d].0)), (m0.tau.0 != m1.tau.0, m0.tau.1 != m1.tau.1);
      && sigma == Xor(Xor(q1, t1.z[d].0), Xor(q0, t0.z[d].0))
      && Inv(pts, xa, depth, Worded(t0, d, sigma, tau), Worded(t1, d, sigma, tau), d - 1, 0, s.path, s.top, d)
  {
    hide Xor, Lsb, Bit, Inv, WordOk;
    var m0, m1 := MaskedOf(t0, point0, 0, d), MaskedOf(t1, point1, 1, d);
    var sigma, tau := Xor(Xor(q0, t0.z[d].0), Xor(q1, t1.z[d].0)), (m0.tau.0 != m1.tau.0, m0.tau.1 != m1.tau.1);
    OpenedWord(Bit(point0, d - 1), Bit(point1, d - 1), t0.z[d], t1.z[d], q0, q1);
    if t0.c[d] {
      WordFrom(t0, t1, depth, d, Bit(pts[xa], d - 1), sigma, tau);
      SetWord(pts, xa, depth, t0, t1, d, s.path, s.top, sigma, tau);
    } else {
      SetUnused(pts, xa, depth, t0, t1, d, s.path, s.top, sigma, tau);
    }
  }

  /** The opened tag messages. */
  function OpenedTags(a: seq<(bool, bool)>, b: seq<(bool, bool)>): (r: seq<(bool, bool)>)
    requires |a| == |b|
    ensures |r| == |a| && forall k :: 0 <= k < |r| ==> r[k] == (a[k].0 != b[k].0, a[k].1 != b[k].1)
  {
    seq(|a|, k requires 0 <= k < |a| => (a[k].0 != b[k].0, a[k].1 != b[k].1))
  }

  /** The sums of the left children at one level, tree by tree. */
  function LeftSums(ts: seq<Tree>, d: nat): (z: seq<Block>)
    requires forall k :: 0 <= k < |ts| ==> d < |ts[k].z|
    ensures |z| == |ts| && forall k :: 0 <= k < |ts| ==> z[k] == ts[k].z[d].0
  {
    seq(|ts|, k requires 0 <= k < |ts| => ts[k].z[d].0)
  }

  /** One multiplication for all trees, and the opening of the words of a level that some tree uses. */
  method OpenWords(p0: Party, p1: Party, points0: seq<nat>, points1: seq<nat>, d: nat, ghost rows: seq<seq<nat>>,
                   ghost xas: seq<nat>, ghost spots: seq<Spot>)
    returns (ghost sigma: seq<Block>, ghost tau: seq<(bool, bool)>)
    requires Parties(p0, p1) && 1 <= d <= p0.depth && p0.AllSized() && p1.AllSized() && |rows| == |spots| == p0.numPoints
    requires SharesRows(rows, xas, points0, points1, p0.depth)
    requires forall k :: 0 <= k < |rows| ==> BeforeWord(rows[k], xas[k], p0.depth, p0.trees[k], p1.trees[k], d, spots[k])
    requires |p0.mult.choiceBits| > 0 && p0.mult.otIdx + p0.numPoints <= p0.mult.totalMults
    modifies p0`trees, p1`trees, p0.mult`otIdx, p1.mult`otIdx
    ensures Parties(p0, p1) && p0.mult.otIdx == old(p0.mult.otIdx) + p0.numPoints
    ensures AllInv(rows, xas, p0.depth, p0.trees, p1.trees, d - 1, spots, d)
    ensures |p0.trees| == |p1.trees| == |sigma| == |tau| == p0.numPoints
    ensures forall k :: 0 <= k < p0.numPoints ==>
      p0.trees[k] == Worded(old(p0.trees)[k], d, sigma[k], tau[k]) && p1.trees[k] == Worded(old(p1.trees)[k], d, sigma[k], tau[k])
  {
    hide Xor, Lsb, Bit, Inv, M.Transferred, BeforeWord;
    var x0, y0, tau0 := p0.Mask(points0, d);
    var x1, y1, tau1 := p1.Mask(points1, d);
    var r := M.Multiply(p0.mult, p1.mult, x0, y0, x1, y1);
    var q0, q1 := r.value.0, r.value.1;
    ghost var ts0, ts1 := p0.trees, p1.trees;
    forall k | 0 <= k < |rows|
      ensures var sigma := Xor(Xor(q0[k], ts0[k].z[d].0), Xor(q1[k], ts1[k].z[d].0));
        var tau := (tau0[k].0 != tau1[k].0, tau0[k].1 != tau1[k].1);
        && sigma == Xor(Xor(q1[k], ts1[k].z[d].0), Xor(q0[k], ts0[k].z[d].0))
        && Inv(rows[k], xas[k], p0.depth, Worded(ts0[k], d, sigma, tau), Worded(ts1[k], d, sigma, tau), d - 1, 0,
               spots[k].path, spots[k].top, d)
    {
      assert Masked(x0[k], y0[k], tau0[k]) == MaskedOf(ts0[k], points0[k], 0, d);
      assert Masked(x1[k], y1[k], tau1[k]) == MaskedOf(ts1[k], points1[k], 1, d);
      assert Bit(rows[k][xas[k]], d - 1) == (Bit(points0[k], d - 1) != Bit(points1[k], d - 1));
      WordedTree(rows[k], xas[k], p0.depth, ts0[k], ts1[k], d, spots[k], points0[k], points1[k], q0[k], q1[k]);
    }
    var share0, share1 := R.Shared(q0, LeftSums(p0.trees, d)), R.Shared(q1, LeftSums(p1.trees, d));
    sigma, tau := R.Shared(share0, share1), OpenedTags(tau0, tau1);
    assert OpenedTags(tau1, tau0) == tau;
    p0.SetLevel(d, R.Shared(share0, share1), OpenedTags(tau0, tau1));
    p1.SetLevel(d, R.Shared(share1, share0), OpenedTags(tau1, tau0));
  }

  /** Every tree of both parties comes from its origin, with the same words. */
  ghost predicate BothTraced(p0: Party, p1: Party, rows: seq<seq<nat>>, from0: seq<Origin>, from1: seq<Origin>, dn: nat, w: nat)
    reads p0, p1
  {
    && AllTraced(rows, p0.g, from0, p0.depth, p0.trees, dn, w)
    && AllTraced(rows, p1.g, from1, p1.depth, p1.trees, dn, w)
    && Agreed(p0.trees, p1.trees)
  }

  /** The messages of one level: none when no tree uses it. */
  method RevealLevel(p0: Party, p1: Party, points0: seq<nat>, points1: seq<nat>, d: nat, fill0: seq<(Block, Block)>,
                     fill1: seq<(Block, Block)>, ghost rows: seq<seq<nat>>, ghost xas: seq<nat>, ghost spots: seq<Spot>,
                     ghost from0: seq<Origin>, ghost from1: seq<Origin>)
    requires Parties(p0, p1) && 1 <= d <= p0.depth && |fill0| == |fill1| == p0.numPoints == |rows|
    requires SharesRows(rows, xas, points0, points1, p0.depth)
    requires AllInv(rows, xas, p0.depth, p0.trees, p1.trees, d - 1, spots, d + 1)
    requires BothTraced(p0, p1, rows, from0, from1, d - 1, d + 1)
    requires |p0.mult.choiceBits| > 0 && p0.mult.otIdx + p0.numPoints <= p0.mult.totalMults
    modifies p0`trees, p1`trees, p0.mult`otIdx, p1.mult`otIdx
    ensures Parties(p0, p1) && AllInv(rows, xas, p0.depth, p0.trees, p1.trees, d - 1, spots, d)
    ensures BothTraced(p0, p1, rows, from0, from1, d - 1, d)
    ensures p0.mult.otIdx == old(p0.mult.otIdx)
      + if exists k :: 0 <= k < p0.numPoints && d < |old(p0.trees)[k].c| && old(p0.trees)[k].c[d] then p0.numPoints else 0
  {
    hide Inv, M.Transferred, SharesRows, AllTraced;
    AllAreSized(p0, p1, rows, xas, d - 1, spots, d + 1);
    ghost var ts0, ts1 := p0.trees, p1.trees;
    var used := p0.FillLevel(d, fill0);
    var used1 := p1.FillLevel(d, fill1);
    forall k | 0 <= k < |rows| ensures BeforeWord(rows[k], xas[k], p0.depth, p0.trees[k], p1.trees[k], d, spots[k]) {
      Filled(rows[k], xas[k], p0.depth, ts0[k], ts1[k], d, spots[k], fill0[k], fill1[k]);
    }
    AllFilled(rows, p0.g, from0, p0.depth, ts0, d, fill0, p0.trees);
    AllFilled(rows, p1.g, from1, p1.depth, ts1, d, fill1, p1.trees);
    ts0, ts1 := p0.trees, p1.trees;
    if used {
      ghost var sigma, tau := OpenWords(p0, p1, points0, points1, d, rows, xas, spots);
      AllWorded(rows, p0.g, from0, p0.depth, ts0, d, sigma, tau, p0.trees);
      AllWorded(rows, p1.g, from1, p1.depth, ts1, d, sigma, tau, p1.trees);
    } else {
      AllUnused(rows, p0.g, from0, p0.depth, ts0, d);
      AllUnused(rows, p1.g, from1, p1.depth, ts1, d);
    }
  }

  /** All nodes of a level, in every tree. */
  lemma AllProcessed(rows: seq<seq<nat>>, g: Hash, xas: seq<nat>, depth: nat, ts0: seq<Tree>, ts1: seq<Tree>, dn: nat, spots: seq<Spot>)
    returns (spots': seq<Spot>)
    requires 1 <= dn <= depth && AllInv(rows, xas, depth, ts0, ts1, dn, spots, dn + 1)
    ensures |spots'| == |rows| && SamePaths(spots, spots')
    ensures forall k :: 0 <= k < |rows| ==>
      && Sized(ts0[k], depth) && Sized(ts1[k], depth)
      && Inv(rows[k], xas[k], depth, Processed(rows[k], g, ts0[k], depth, dn, |ts0[k].levels[dn]|),
             Processed(rows[k], g, ts1[k], depth, dn, |ts1[k].levels[dn]|), dn - 1, 0, spots'[k].path, spots'[k].top, dn + 1)
  {
    hide Inv, Processed;
    spots' := [];
    var k := 0;
    while k < |rows|
      invariant 0 <= k <= |rows| && |spots'| == k && forall j :: 0 <= j < k ==> (spots[j].path.Some? <==> spots'[j].path.Some?)
      invariant forall j :: 0 <= j < k ==>
        && Sized(ts0[j], depth) && Sized(ts1[j], depth)
        && Inv(rows[j], xas[j], depth, Processed(rows[j], g, ts0[j], depth, dn, |ts0[j].levels[dn]|),
               Processed(rows[j], g, ts1[j], depth, dn, |ts1[j].levels[dn]|), dn - 1, 0, spots'[j].path, spots'[j].top, dn + 1)
    {
      InvSized(rows[k], xas[k], depth, ts0[k], ts1[k], dn, 0, spots[k].path, spots[k].top, dn + 1);
      var n := |ts0[k].levels[dn]|;
      var path, top := ProcessedBoth(rows[k], g, xas[k], depth, ts0[k], ts1[k], dn, n, spots[k].path, spots[k].top);
      LowerLevel(rows[k], xas[k], depth, Processed(rows[k], g, ts0[k], depth, dn, n), Processed(rows[k], g, ts1[k], depth, dn, n),
                 dn, path, top, dn + 1);
      spots' := spots' + [Spot(path, top)];
      k := k + 1;
    }
  }

  /** Both parties work off one level of every tree. */
  method ProcessBoth(p0: Party, p1: Party, rows: seq<seq<nat>>, dn: nat, ghost xas: seq<nat>, ghost spots: seq<Spot>,
                     ghost from0: seq<Origin>, ghost from1: seq<Origin>)
    returns (ghost spots': seq<Spot>)
    requires p0 != p1 && p0.g == p1.g && p0.depth == p1.depth && p0.numPoints == p1.numPoints == |rows| && 1 <= dn <= p0.depth
    requires AllInv(rows, xas, p0.depth, p0.trees, p1.trees, dn, spots, dn + 1)
    requires BothTraced(p0, p1, rows, from0, from1, dn, dn + 1)
    modifies p0`trees, p1`trees
    ensures AllInv(rows, xas, p0.depth, p0.trees, p1.trees, dn - 1, spots', dn + 1) && SamePaths(spots, spots')
    ensures BothTraced(p0, p1, rows, from0, from1, dn - 1, dn + 1)
  {
    hide Inv, Processed, Splittable, Increasing, AllTraced;
    AllAreSized(p0, p1, rows, xas, dn, spots, dn + 1);
    ghost var ts0, ts1 := p0.trees, p1.trees;
    forall k | 0 <= k < |rows|
      ensures Splittable(rows[k], ts0[k], p0.depth, dn, 0) && Splittable(rows[k], ts1[k], p0.depth, dn, 0)
    {
      WaitingSplits(rows[k], xas[k], p0.depth, ts0[k], ts1[k], dn, spots[k].path, spots[k].top, dn + 1);
    }
    spots' := AllProcessed(rows, p0.g, xas, p0.depth, ts0, ts1, dn, spots);
    p0.ProcessLevel(rows, dn);
    p1.ProcessLevel(rows, dn);
    AllLevel(rows, p0.g, from0, p0.depth, ts0, dn, p0.trees);
    AllLevel(rows, p1.g, from1, p1.depth, ts1, dn, p1.trees);
    forall k | 0 <= k < |rows| ensures p0.trees[k].sigma == p1.trees[k].sigma && p0.trees[k].tau == p1.trees[k].tau {
      ProcessedWords(rows[k], p0.g, ts0[k], p0.depth, dn, |ts0[k].levels[dn]|);
      ProcessedWords(rows[k], p1.g, ts1[k], p1.depth, dn, |ts1[k].levels[dn]|);
    }
  }

  /** Levels that are done: at most one product to a tree and level. */
  lemma LevelUse(n: nat, depth: nat, d: nat)
    requires 1 <= d <= depth
    ensures n * (depth - d) + n == n * (depth - (d - 1)) <= n * depth
  {
    MulMono(depth - (d - 1), depth, n);
  }

  /** The descending level loop. */
  method RunLevels(p0: Party, p1: Party, points0: seq<nat>, points1: seq<nat>, rows: seq<seq<nat>>,
                   fill0: seq<seq<(Block, Block)>>, fill1: seq<seq<(Block, Block)>>, ghost xas: seq<nat>, ghost spots: seq<Spot>,
                   ghost from0: seq<Origin>, ghost from1: seq<Origin>)
    returns (ghost spots': seq<Spot>)
    requires Parties(p0, p1) && |rows| == p0.numPoints && IsFill(fill0, p0.depth, |rows|) && IsFill(fill1, p0.depth, |rows|)
    requires SharesRows(rows, xas, points0, points1, p0.depth)
    requires AllInv(rows, xas, p0.depth, p0.trees, p1.trees, p0.depth, spots, p0.depth + 1)
    requires p0.depth > 0 ==> |p0.mult.choiceBits| > 0 && p0.mult.otIdx + p0.numPoints * p0.depth <= p0.mult.totalMults
    requires BothTraced(p0, p1, rows, from0, from1, p0.depth, p0.depth + 1)
    modifies p0`trees, p1`trees, p0.mult`otIdx, p1.mult`otIdx
    ensures AllInv(rows, xas, p0.depth, p0.trees, p1.trees, 0, spots', 1) && SamePaths(spots, spots')
    ensures BothTraced(p0, p1, rows, from0, from1, 0, 1)
    ensures Parties(p0, p1) && p0.mult.otIdx <= old(p0.mult.otIdx) + p0.numPoints * p0.depth
  {
    hide Inv, M.Transferred, SharesRows, SamePaths, AllInv, AllTraced;
    spots' := spots;
    var d, n, depth := p0.depth, p0.numPoints, p0.depth;
    AllTops(p0, p1, rows, xas, spots);
    AllTop(rows, p0.g, from0, depth, p0.trees, depth + 1);
    AllTop(rows, p1.g, from1, depth, p1.trees, depth + 1);
    assert n * (depth - d) == 0;
    PathsKept(spots);
    while d > 0
      invariant 0 <= d <= depth && Parties(p0, p1) && SamePaths(spots, spots')
      invariant AllInv(rows, xas, depth, p0.trees, p1.trees, if d == 0 then 0 else d - 1, spots', d + 1)
      invariant BothTraced(p0, p1, rows, from0, from1, if d == 0 then 0 else d - 1, d + 1)
      invariant p0.mult.otIdx <= old(p0.mult.otIdx) + n * (depth - d)
      invariant p0.mult.choiceBits == old(p0.mult.choiceBits) && p0.mult.totalMults == old(p0.mult.totalMults)
    {
      LevelUse(n, depth, d);
      RevealLevel(p0, p1, points0, points1, d, fill0[d], fill1[d], rows, xas, spots', from0, from1);
      if d - 1 > 0 {
        ghost var before := spots';
        spots' := ProcessBoth(p0, p1, rows, d - 1, xas, spots', from0, from1);
        PathsChain(spots, before, spots');
      }
      d := d - 1;
    }
  }

  lemma PathsKept(a: seq<Spot>)
    ensures SamePaths(a, a)
  {}

  lemma PathsChain(a: seq<Spot>, b: seq<Spot>, c: seq<Spot>)
    requires SamePaths(a, b) && SamePaths(b, c)
    ensures SamePaths(a, c)
  {}

  /** What a party would draw for unused levels, level by level and tree by tree. */
  predicate IsFill(fill: seq<seq<(Block, Block)>>, depth: nat, n: nat)
  {
    |fill| == depth + 1 && forall d :: 0 <= d <= depth ==> |fill[d]| == n
  }

  /** No node waits at the topmost level of any tree. */
  lemma AllTops(p: Party, q: Party, rows: seq<seq<nat>>, xas: seq<nat>, spots: seq<Spot>)
    requires p.depth == q.depth && AllInv(rows, xas, p.depth, p.trees, q.trees, p.depth, spots, p.depth + 1)
    ensures AllInv(rows, xas, p.depth, p.trees, q.trees, if p.depth == 0 then 0 else p.depth - 1, spots, p.depth + 1)
  {
    hide Inv;
    if p.depth > 0 {
      forall k | 0 <= k < |rows|
        ensures Inv(rows[k], xas[k], p.depth, p.trees[k], q.trees[k], p.depth - 1, 0, spots[k].path, spots[k].top, p.depth + 1)
      {
        TopEmpty(rows[k], xas[k], p.depth, p.trees[k], q.trees[k], spots[k].path, spots[k].top, p.depth + 1);
        LowerLevel(rows[k], xas[k], p.depth, p.trees[k], q.trees[k], p.depth, spots[k].path, spots[k].top, p.depth + 1);
      }
    }
  }

  /** No node waits at the topmost level. */
  lemma TopEmpty(pts: seq<nat>, xa: nat, depth: nat, t0: Tree, t1: Tree, path: Option<(nat, nat)>, top: nat, w: nat)
    requires Inv(pts, xa, depth, t0, t1, depth, 0, path, top, w)
    ensures |t0.levels| == depth + 1 && |t0.levels[depth]| == 0
  {
    hide IsSplit, Contains, Diff, Bit, WordOk;
    assert Pending(depth, 0, depth, 0);
  }

  // ------------------------------------------------------------------ the leaves

  /** The leaf nodes of both trees are single points, corrected by known words. */
  lemma LeafFacts(pts: seq<nat>, xa: nat, depth: nat, t0: Tree, t1: Tree, path: Option<(nat, nat)>, top: nat, k: nat)
    requires Inv(pts, xa, depth, t0, t1, 0, 0, path, top, 1) && |t0.levels| == depth + 1 && k < |t0.levels[0]|
    ensures |t1.levels| == |t0.sigma| == |t1.sigma| == |t0.tau| == |t1.tau| == depth + 1 && k < |t1.levels[0]|
    ensures var n0, n1 := t0.levels[0][k], t1.levels[0][k];
      && n0.lo == n1.lo < |pts| && n0.parent == n1.parent <= depth
      && (n0.lo == xa <==> path == Some((0, k)))
      && (n0.lo == xa ==> CorrectedTag(t0, n0) != CorrectedTag(t1, n1))
      && (n0.lo != xa ==> CorrectedTag(t0, n0) == CorrectedTag(t1, n1) && CorrectedSeed(t0, n0) == CorrectedSeed(t1, n1))
  {
    hide Bit, Lsb, Xor, IsSplit, WordOk, Diff, Inv, CorrectedSeed, CorrectedTag;
    InvSized(pts, xa, depth, t0, t1, 0, 0, path, top, 1);
    PairFacts(pts, xa, depth, t0, t1, 0, 0, path, top, 1, 0, k);
    var n0, n1 := t0.levels[0][k], t1.levels[0][k];
    SplitShape(pts, n0.lo, n0.mid, n0.hi, 0);
    CorrectPair(pts, xa, depth, t0, t1, 0, n0, n1, top);
  }

  /** Whether alpha's leaf is among the first `i` leaf nodes. */
  predicate Reached(path: Option<(nat, nat)>, i: nat)
  {
    path.Some? && path.value.0 == 0 && path.value.1 < i
  }

  ghost predicate LeavesShare(xa: nat, l0: Leaves, l1: Leaves, start0: Leaves, start1: Leaves, reached: bool)
  {
    && SameOff(xa, l0.values, l1.values, l0.tags, l1.tags)
    && if reached then
         l0.tags[xa] != l1.tags[xa] && Xor(l0.gamma, l1.gamma) == Xor(Xor(start0.gamma, start1.gamma), Xor(l0.values[xa], l1.values[xa]))
       else
         && xa < |start0.values| && xa < |start1.values| && xa < |start0.tags| && xa < |start1.tags|
         && l0.tags[xa] == start0.tags[xa] && l1.tags[xa] == start1.tags[xa]
         && l0.values[xa] == start0.values[xa] && l1.values[xa] == start1.values[xa]
         && Xor(l0.gamma, l1.gamma) == Xor(start0.gamma, start1.gamma)
  }

  lemma LeafStepShares(xa: nat, l0: Leaves, l1: Leaves, start0: Leaves, start1: Leaves, reached: bool,
                       lo: nat, v0: Block, v1: Block, t0: bool, t1: bool)
    requires LeavesShare(xa, l0, l1, start0, start1, reached) && lo < |l0.values|
    requires lo == xa ==> t0 != t1 && !reached
    requires lo != xa ==> t0 == t1 && v0 == v1
    ensures LeavesShare(xa, Leaves(l0.values[lo := v0], l0.tags[lo := t0], Xor(l0.gamma, v0)),
                        Leaves(l1.values[lo := v1], l1.tags[lo := t1], Xor(l1.gamma, v1)), start0, start1, reached || lo == xa)
  {
    XorSwap(l0.gamma, v0, l1.gamma, v1);
    XorZero(v0, v1);
    XorZero(Xor(l0.gamma, l1.gamma), ZERO);
    hide Xor;
  }

  lemma {:induction false} LeafBoth(pts: seq<nat>, xa: nat, depth: nat, t0: Tree, t1: Tree, path: Option<(nat, nat)>, top: nat,
                                    start0: Leaves, start1: Leaves, i: nat)
    requires Inv(pts, xa, depth, t0, t1, 0, 0, path, top, 1)
    requires |t0.levels| == |t1.levels| == |t0.sigma| == |t1.sigma| == |t0.tau| == |t1.tau| == depth + 1
    requires i <= |t0.levels[0]| == |t1.levels[0]|
    requires SameOff(xa, start0.values, start1.values, start0.tags, start1.tags) && |start0.values| == |pts|
    ensures LeavesShare(xa, LeafFold(t0, start0, i), LeafFold(t1, start1, i), start0, start1, Reached(path, i))
  {
    hide Inv, CorrectedSeed, CorrectedTag, Xor, LeavesShare;
    if i == 0 {
      NoLeaves(xa, start0, start1);
    } else {
      LeafBoth(pts, xa, depth, t0, t1, path, top, start0, start1, i - 1);
      LeafFacts(pts, xa, depth, t0, t1, path, top, i - 1);
      var n0, n1 := t0.levels[0][i - 1], t1.levels[0][i - 1];
      LeafStepShares(xa, LeafFold(t0, start0, i - 1), LeafFold(t1, start1, i - 1), start0, start1, Reached(path, i - 1),
                     n0.lo, CorrectedSeed(t0, n0), CorrectedSeed(t1, n1), CorrectedTag(t0, n0), CorrectedTag(t1, n1));
    }
  }

  lemma NoLeaves(xa: nat, start0: Leaves, start1: Leaves)
    requires SameOff(xa, start0.values, start1.values, start0.tags, start1.tags)
    ensures LeavesShare(xa, start0, start1, start0, start1, false)
  {
    hide Xor;
  }

  /** At the end alpha's leaf has been reached, if its range was ever queued. */
  lemma PathReached(pts: seq<nat>, xa: nat, depth: nat, t0: Tree, t1: Tree, path: Option<(nat, nat)>, top: nat)
    requires Inv(pts, xa, depth, t0, t1, 0, 0, path, top, 1)
    ensures |t0.levels| == depth + 1 && (path.Some? ==> Reached(path, |t0.levels[0]|))
  {
    hide IsSplit, Contains, Diff, Bit, WordOk, NodePair;
  }

  // ------------------------------------------------------------------ the shares

  /** `value` and tag one at alpha; equal outputs with equal tags elsewhere. */
  ghost predicate SharesOf(out0: seq<(Block, bool)>, out1: seq<(Block, bool)>, n: nat, xa: nat, value: Block)
  {
    && |out0| == |out1| == n && xa < n
    && (forall x :: 0 <= x < n ==> (out0[x].1 != out1[x].1 <==> x == xa))
    && (forall x :: 0 <= x < n && x != xa ==> Xor(out0[x].0, out1[x].0) == ZERO)
    && Xor(out0[xa].0, out1[xa].0) == value
  }

  /** The outputs of one tree, bit by bit. */
  lemma SharesMean(out0: seq<(Block, bool)>, out1: seq<(Block, bool)>, n: nat, xa: nat, value: Block, x: nat, j: nat)
    requires SharesOf(out0, out1, n, xa, value) && x < n && j < 128
    ensures |out0| == |out1| == n && xa < n
    ensures out0[x].1 != out1[x].1 <==> x == xa
    ensures x != xa ==> out0[x].0 == out1[x].0
    ensures x == xa ==> value[j] == (out0[x].0[j] != out1[x].0[j])
  {
    XorZero(out0[x].0, out1[x].0);
    BlockBits(out0[x].0, out1[x].0, true, j);
  }

  lemma OutputShares(xa: nat, l0: Leaves, l1: Leaves, start0: Leaves, start1: Leaves, reached: bool, gamma: Block,
                     out0: seq<(Block, bool)>, out1: seq<(Block, bool)>)
    requires LeavesShare(xa, l0, l1, start0, start1, reached) && gamma == Xor(l0.gamma, l1.gamma)
    requires !reached ==> start0.tags[xa] != start1.tags[xa]
    requires IsOutput(out0, l0, gamma) && IsOutput(out1, l1, gamma)
    ensures SharesOf(out0, out1, |l0.values|, xa, if reached then Xor(start0.gamma, start1.gamma)
      else Xor(Xor(start0.values[xa], start1.values[xa]), Xor(start0.gamma, start1.gamma)))
  {
    hide Xor, And, Saturated;
    forall x | 0 <= x < |out0| && x != xa ensures Xor(out0[x].0, out1[x].0) == ZERO { XorZero(out0[x].0, out1[x].0); }
    CorrectOpposite(l0.values[xa], l1.values[xa], l0.tags[xa], gamma);
    if reached {
      CancelRight(Xor(l0.values[xa], l1.values[xa]), Xor(start0.gamma, start1.gamma));
    }
  }

  lemma CancelRight(d: Block, v: Block)
    ensures Xor(d, Xor(v, d)) == v
  {
    assert Xor(d, Xor(v, d)) == v;
  }

  /** What the start leaves for every tree: equal leaves off alpha, and opposite tags where no path waits. */
  ghost predicate AllStarts(rows: seq<seq<nat>>, xas: seq<nat>, spots: seq<Spot>, v0: seq<seq<Block>>, v1: seq<seq<Block>>,
                            u0: seq<seq<bool>>, u1: seq<seq<bool>>)
  {
    && |rows| == |xas| == |spots| == |v0| == |v1| == |u0| == |u1|
    && forall k :: 0 <= k < |rows| ==>
         && SameOff(xas[k], v0[k], v1[k], u0[k], u1[k]) && |v0[k]| == |rows[k]|
         && (spots[k].path.None? ==> u0[k][xas[k]] != u1[k][xas[k]])
  }

  /** What the outputs of one tree open to at alpha; a leaf taken over from the start adds its own difference. */
  function OpensTo(waits: bool, v0: Block, v1: Block, value: Block): Block
  {
    if waits then value else Xor(Xor(v0, v1), value)
  }

  /** The leaves and outputs of one tree. */
  lemma TreeOutputs(pts: seq<nat>, xa: nat, depth: nat, t0: Tree, t1: Tree, s: Spot, start0: Leaves, start1: Leaves,
                    l0: Leaves, l1: Leaves, gamma: Block, out0: seq<(Block, bool)>, out1: seq<(Block, bool)>)
    requires Inv(pts, xa, depth, t0, t1, 0, 0, s.path, s.top, 1) && Sized(t0, depth) && Sized(t1, depth)
    requires SameOff(xa, start0.values, start1.values, start0.tags, start1.tags) && |start0.values| == |pts|
    requires s.path.None? ==> start0.tags[xa] != start1.tags[xa]
    requires l0 == LeafFold(t0, start0, |t0.levels[0]|) && l1 == LeafFold(t1, start1, |t1.levels[0]|)
    requires gamma == Xor(l0.gamma, l1.gamma) && IsOutput(out0, l0, gamma) && IsOutput(out1, l1, gamma)
    ensures SharesOf(out0, out1, |pts|, xa,
                     OpensTo(s.path.Some?, start0.values[xa], start1.values[xa], Xor(start0.gamma, start1.gamma)))
  {
    hide Xor, Inv, LeavesShare, SharesOf, And, Saturated, LeafFold;
    InvSized(pts, xa, depth, t0, t1, 0, 0, s.path, s.top, 1);
    PathReached(pts, xa, depth, t0, t1, s.path, s.top);
    LeafBoth(pts, xa, depth, t0, t1, s.path, s.top, start0, start1, |t0.levels[0]|);
    OutputShares(xa, l0, l1, start0, start1, Reached(s.path, |t0.levels[0]|), gamma, out0, out1);
  }

  /** The leaves of every tree can be collected. */
  lemma AllCollect(p0: Party, p1: Party, rows: seq<seq<nat>>, xas: seq<nat>, spots: seq<Spot>)
    requires p0.depth == p1.depth && p0.numPoints == p1.numPoints == |rows|
    requires AllInv(rows, xas, p0.depth, p0.trees, p1.trees, 0, spots, 1)
    ensures p0.AllSized() && p1.AllSized()
    ensures forall k :: 0 <= k < |rows| ==>
      CanCollect(p0.trees[k], p0.depth, |rows[k]|) && CanCollect(p1.trees[k], p0.depth, |rows[k]|)
  {
    hide Inv;
    AllAreSized(p0, p1, rows, xas, 0, spots, 1);
    forall k | 0 <= k < |rows|
      ensures CanCollect(p0.trees[k], p0.depth, |rows[k]|) && CanCollect(p1.trees[k], p0.depth, |rows[k]|)
    {
      var t0, t1 := p0.trees[k], p1.trees[k];
      InvSized(rows[k], xas[k], p0.depth, t0, t1, 0, 0, spots[k].path, spots[k].top, 1);
      forall i | 0 <= i < |t0.levels[0]|
        ensures t0.levels[0][i].lo < |rows[k]| && t0.levels[0][i].parent <= p0.depth
        ensures t1.levels[0][i].lo < |rows[k]| && t1.levels[0][i].parent <= p0.depth
      {
        LeafFacts(rows[k], xas[k], p0.depth, t0, t1, spots[k].path, spots[k].top, i);
      }
    }
  }

  /**
   The level loop, the leaves and the output, from any start whose trees share alpha's path. The shares open to the
   value at alpha when alpha's leaf came out of the tree; a leaf taken over from the start adds its own difference.
   */
  method Finish(p0: Party, p1: Party, points0: seq<nat>, points1: seq<nat>, values0: seq<Block>, values1: seq<Block>,
                rows: seq<seq<nat>>, fill0: seq<seq<(Block, Block)>>, fill1: seq<seq<(Block, Block)>>,
                ghost xas: seq<nat>, ghost spots: seq<Spot>, ghost base0: seq<Base>, ghost base1: seq<Base>)
    returns (out0: seq<seq<(Block, bool)>>, out1: seq<seq<(Block, bool)>>, ghost words: seq<Words>)
    requires Parties(p0, p1) && |rows| == |values0| == |values1| == p0.numPoints
    requires IsFill(fill0, p0.depth, |rows|) && IsFill(fill1, p0.depth, |rows|)
    requires SharesRows(rows, xas, points0, points1, p0.depth)
    requires AllInv(rows, xas, p0.depth, p0.trees, p1.trees, p0.depth, spots, p0.depth + 1)
    requires p0.depth > 0 ==> |p0.mult.choiceBits| > 0 && p0.mult.otIdx + p0.numPoints * p0.depth <= p0.mult.totalMults
    requires AllStarts(rows, xas, spots, p0.leafValues, p1.leafValues, p0.leafTags, p1.leafTags)
    requires |base0| == |base1| == |rows|
    requires BothTraced(p0, p1, rows, OriginsOf(base0, p0.leafValues, p0.leafTags, values0),
                        OriginsOf(base1, p1.leafValues, p1.leafTags, values1), p0.depth, p0.depth + 1)
    modifies p0`trees, p1`trees, p0.mult`otIdx, p1.mult`otIdx
    ensures |out0| == |out1| == |words| == |rows|
    ensures forall k :: 0 <= k < |rows| ==>
      && Walked(rows[k], p0.g, base0[k], p0.depth, words[k], out0[k])
      && Walked(rows[k], p1.g, base1[k], p1.depth, words[k], out1[k])
    ensures forall k :: 0 <= k < |rows| ==> SharesOf(out0[k], out1[k], |rows[k]|, xas[k],
      OpensTo(spots[k].path.Some?, p0.leafValues[k][xas[k]], p1.leafValues[k][xas[k]], Xor(values0[k], values1[k])))
  {
    hide Xor, Inv, M.Transferred, SharesOf, SharesRows, LeafFold, IsOutput, CanCollect, OpensTo, Traced, Walked;
    ghost var from0 := OriginsOf(base0, p0.leafValues, p0.leafTags, values0);
    ghost var from1 := OriginsOf(base1, p1.leafValues, p1.leafTags, values1);
    ghost var done := RunLevels(p0, p1, points0, points1, rows, fill0, fill1, xas, spots, from0, from1);
    AllCollect(p0, p1, rows, xas, done);
    var l0 := p0.CollectLeaves(values0);
    var l1 := p1.CollectLeaves(values1);
    var sent0, sent1 := Sums(l0), Sums(l1);
    SharedCommutes(sent0, sent1);
    out0 := p0.Output(l0, R.Shared(sent0, sent1));
    out1 := p1.Output(l1, R.Shared(sent1, sent0));
    words := WordsOf(p0.trees, R.Shared(sent0, sent1));
    AllWalked(rows, p0.g, from0, p0.depth, p0.trees, l0, R.Shared(sent0, sent1), out0);
    AllWalked(rows, p1.g, from1, p1.depth, p1.trees, l1, R.Shared(sent0, sent1), out1);
    assert WordsOf(p1.trees, R.Shared(sent0, sent1)) == words;
    AllShares(p0, p1, rows, xas, spots, done, values0, values1, l0, l1, R.Shared(sent0, sent1), out0, out1);
  }

  /** The outputs of the collected leaves share the values, tree by tree. */
  lemma AllShares(p0: Party, p1: Party, rows: seq<seq<nat>>, xas: seq<nat>, spots: seq<Spot>, done: seq<Spot>,
                  values0: seq<Block>, values1: seq<Block>, l0: seq<Leaves>, l1: seq<Leaves>, gamma: seq<Block>,
                  out0: seq<seq<(Block, bool)>>, out1: seq<seq<(Block, bool)>>)
    requires p0.depth == p1.depth && p0.numPoints == p1.numPoints == |rows| && p0.AllSized() && p1.AllSized()
    requires AllInv(rows, xas, p0.depth, p0.trees, p1.trees, 0, done, 1) && SamePaths(spots, done)
    requires AllStarts(rows, xas, spots, p0.leafValues, p1.leafValues, p0.leafTags, p1.leafTags)
    requires |rows| == |values0| == |values1| == |l0| == |l1| == |gamma| == |out0| == |out1|
    requires forall k :: 0 <= k < |rows| ==>
      && l0[k] == LeafFold(p0.trees[k], Leaves(p0.leafValues[k], p0.leafTags[k], values0[k]), |p0.trees[k].levels[0]|)
      && l1[k] == LeafFold(p1.trees[k], Leaves(p1.leafValues[k], p1.leafTags[k], values1[k]), |p1.trees[k].levels[0]|)
    requires forall k :: 0 <= k < |rows| ==>
      gamma[k] == Xor(l0[k].gamma, l1[k].gamma) && IsOutput(out0[k], l0[k], gamma[k]) && IsOutput(out1[k], l1[k], gamma[k])
    ensures forall k :: 0 <= k < |rows| ==> SharesOf(out0[k], out1[k], |rows[k]|, xas[k],
      OpensTo(spots[k].path.Some?, p0.leafValues[k][xas[k]], p1.leafValues[k][xas[k]], Xor(values0[k], values1[k])))
  {
    hide Xor, Inv, SharesOf, LeafFold, IsOutput, OpensTo;
    forall k | 0 <= k < |rows|
      ensures SharesOf(out0[k], out1[k], |rows[k]|, xas[k],
        OpensTo(spots[k].path.Some?, p0.leafValues[k][xas[k]], p1.leafValues[k][xas[k]], Xor(values0[k], values1[k])))
    {
      TreeOutputs(rows[k], xas[k], p0.depth, p0.trees[k], p1.trees[k], done[k],
                  Leaves(p0.leafValues[k], p0.leafTags[k], values0[k]), Leaves(p1.leafValues[k], p1.leafTags[k], values1[k]),
                  l0[k], l1[k], gamma[k], out0[k], out1[k]);
    }
  }

  lemma SharedCommutes(a: seq<Block>, b: seq<Block>)
    requires |a| == |b|
    ensures R.Shared(b, a) == R.Shared(a, b)
  {
    hide Xor;
    forall k | 0 <= k < |a| ensures Xor(b[k], a[k]) == Xor(a[k], b[k]) { XorCommutes(a[k], b[k]); }
  }

  /** Where every tree comes from, after the start. */
  ghost function OriginsOf(base: seq<Base>, values: seq<seq<Block>>, tags: seq<seq<bool>>, sums: seq<Block>): (r: seq<Origin>)
    requires |base| == |values| == |tags| == |sums|
  {
    seq(|base|, k requires 0 <= k < |base| => Origin(base[k], Leaves(values[k], tags[k], sums[k])))
  }

  /** The words and leaf corrections of all trees. */
  ghost function WordsOf(ts: seq<Tree>, gamma: seq<Block>): (w: seq<Words>)
    requires |ts| == |gamma|
    ensures |w| == |ts| && forall k :: 0 <= k < |w| ==> w[k] == Words(ts[k].sigma, ts[k].tau, gamma[k])
  {
    seq(|ts|, k requires 0 <= k < |ts| => Words(ts[k].sigma, ts[k].tau, gamma[k]))
  }

  lemma AllWalked(rows: seq<seq<nat>>, g: Hash, origins: seq<Origin>, depth: nat, ts: seq<Tree>, l: seq<Leaves>, gamma: seq<Block>,
                  out: seq<seq<(Block, bool)>>)
    requires AllTraced(rows, g, origins, depth, ts, 0, 1) && |rows| == |l| == |gamma| == |out|
    requires forall k :: 0 <= k < |rows| ==>
      && Sized(ts[k], depth) && |origins[k].start.values| == |origins[k].start.tags|
      && l[k] == LeafFold(ts[k], origins[k].start, |ts[k].levels[0]|) && IsOutput(out[k], l[k], gamma[k])
    ensures forall k :: 0 <= k < |rows| ==> Walked(rows[k], g, origins[k].base, depth, WordsOf(ts, gamma)[k], out[k])
  {
    hide Traced, LeafFold, IsOutput, Walked;
    forall k | 0 <= k < |rows| ensures Walked(rows[k], g, origins[k].base, depth, WordsOf(ts, gamma)[k], out[k]) {
      TracedSized(rows[k], g, origins[k].base, depth, ts[k], 0, 1, origins[k].start);
      OutputWalked(rows[k], g, origins[k], depth, ts[k], 1, l[k], gamma[k], out[k]);
    }
  }

  function Sums(l: seq<Leaves>): (s: seq<Block>)
    ensures |s| == |l| && forall k :: 0 <= k < |l| ==> s[k] == l[k].gamma
  {
    seq(|l|, k requires 0 <= k < |l| => l[k].gamma)
  }

  /** Sorted, duplicate-free rows of points below 2^bits, each with alpha at its place. */
  ghost predicate IsRows(rows: seq<seq<nat>>, xas: seq<nat>, bits: nat)
  {
    && |xas| == |rows|
    && forall k :: 0 <= k < |rows| ==> xas[k] < |rows[k]| && Increasing(rows[k]) && Below(rows[k], Pow(2, bits))
  }

  ghost predicate Below(pts: seq<nat>, bound: int)
  {
    forall x :: 0 <= x < |pts| ==> pts[x] < bound
  }

  /** The trees of the two parties after the start without a dense tree. */
  lemma SparseStarts(p0: Party, p1: Party, rows: seq<seq<nat>>, xas: seq<nat>, c0: seq<(Block, Block)>, c1: seq<(Block, Block)>)
    returns (spots: seq<Spot>)
    requires p0.depth == p1.depth && |p0.trees| == |p1.trees| == |rows| == |xas| == |c0| == |c1|
    requires |p0.leafValues| == |p1.leafValues| == |p0.leafTags| == |p1.leafTags| == |rows|
    requires forall k :: 0 <= k < |rows| ==> Increasing(rows[k]) && |rows[k]| >= 2 && xas[k] < |rows[k]|
    requires forall k :: 0 <= k < |rows| ==> IsRoot(rows[k], p0.depth, c0[k], false, p0.trees[k])
    requires forall k :: 0 <= k < |rows| ==> IsRoot(rows[k], p0.depth, c1[k], true, p1.trees[k])
    requires forall k :: 0 <= k < |rows| ==>
      p0.leafValues[k] == p1.leafValues[k] == Blank(rows[k], p0.depth).values && p0.leafTags[k] == p1.leafTags[k] == Blank(rows[k], p0.depth).tags
    ensures AllInv(rows, xas, p0.depth, p0.trees, p1.trees, p0.depth, spots, p0.depth + 1)
    ensures AllStarts(rows, xas, spots, p0.leafValues, p1.leafValues, p0.leafTags, p1.leafTags)
    ensures forall k :: 0 <= k < |rows| ==> spots[k].path.Some?
  {
    hide Inv, IsSplit, Expanded, PartitionOf, EmptyTree;
    spots := [];
    var k := 0;
    while k < |rows|
      invariant 0 <= k <= |rows| && |spots| == k && forall j :: 0 <= j < k ==> spots[j].path.Some?
      invariant forall j :: 0 <= j < k ==>
        Inv(rows[j], xas[j], p0.depth, p0.trees[j], p1.trees[j], p0.depth, 0, spots[j].path, spots[j].top, p0.depth + 1)
    {
      var r := PartitionOf(rows[k], 0, |rows[k]|, p0.depth);
      var path, top := SparseBoth(rows[k], xas[k], p0.depth, c0[k], c1[k], r.0, r.1);
      spots := spots + [Spot(path, top)];
      k := k + 1;
    }
  }

  /**
   expand without a dense tree, for a list of sorted, duplicate-free sets of at least two points that hold their
   alphas; refused exactly when the number of points is not the number of rows.
   */
  method ExpandSparse(p0: Party, p1: Party, points0: seq<nat>, points1: seq<nat>, values0: seq<Block>, values1: seq<Block>,
                      rows: seq<seq<nat>>, c0: seq<(Block, Block)>, c1: seq<(Block, Block)>,
                      fill0: seq<seq<(Block, Block)>>, fill1: seq<seq<(Block, Block)>>, ghost xas: seq<nat>)
    returns (ok: bool, out0: seq<seq<(Block, bool)>>, out1: seq<seq<(Block, bool)>>, ghost words: seq<Words>)
    requires Parties(p0, p1) && p0.depth >= 1 && |points0| == |points1| == |values0| == |values1| == |c0| == |c1| == p0.numPoints
    requires IsFill(fill0, p0.depth, p0.numPoints) && IsFill(fill1, p0.depth, p0.numPoints)
    requires IsRows(rows, xas, p0.depth) && forall k :: 0 <= k < |rows| ==> |rows[k]| >= 2
    requires |rows| == |points0| ==> SharesRows(rows, xas, points0, points1, p0.depth)
    requires |p0.mult.choiceBits| > 0 && p0.mult.otIdx + p0.numPoints * p0.depth <= p0.mult.totalMults
    modifies p0, p1, p0.mult`otIdx, p1.mult`otIdx
    ensures ok <==> |points0| == |rows|
    ensures ok ==> |out0| == |out1| == |words| == |rows|
    ensures ok ==> forall k :: 0 <= k < |rows| ==>
      && Walked(rows[k], p0.g, Roots(c0[k], false), p0.depth, words[k], out0[k])
      && Walked(rows[k], p0.g, Roots(c1[k], true), p0.depth, words[k], out1[k])
    ensures ok ==> forall k :: 0 <= k < |rows| ==> SharesOf(out0[k], out1[k], |rows[k]|, xas[k], Xor(values0[k], values1[k]))
  {
    hide Xor, Inv, M.Transferred, SharesOf, IsRoot, IsSplit, Increasing, SharesUpper, SharesRows, AllInv, AllStarts, Below, Blank,
      Walked, Traced;
    out0, out1, words := [], [], [];
    ok := |points0| == |rows|;
    if !ok { return; }
    forall k | 0 <= k < |rows| ensures SharesUpper(rows[k], 0, |rows[k]|, p0.depth) { InDomain(rows[k], p0.depth); }
    p0.SparseStart(rows, c0);
    p1.SparseStart(rows, c1);
    ghost var spots := SparseStarts(p0, p1, rows, xas, c0, c1);
    RootsTraced(p0, p1, rows, c0, c1, values0, values1);
    out0, out1, words := Finish(p0, p1, points0, points1, values0, values1, rows, fill0, fill1, xas, spots, RootsOf(c0, false),
                                RootsOf(c1, true));
  }

  ghost function RootsOf(c: seq<(Block, Block)>, tag: bool): (r: seq<Base>)
    ensures |r| == |c| && forall k :: 0 <= k < |r| ==> r[k] == Roots(c[k], tag)
  {
    seq(|c|, k requires 0 <= k < |c| => Roots(c[k], tag))
  }

  /** Both parties' trees after the start without a dense tree. */
  lemma RootsTraced(p0: Party, p1: Party, rows: seq<seq<nat>>, c0: seq<(Block, Block)>, c1: seq<(Block, Block)>,
                    values0: seq<Block>, values1: seq<Block>)
    requires p0.depth == p1.depth && |p0.trees| == |p1.trees| == |rows| == |c0| == |c1| == |values0| == |values1|
    requires |p0.leafValues| == |p1.leafValues| == |p0.leafTags| == |p1.leafTags| == |rows|
    requires forall k :: 0 <= k < |rows| ==> Increasing(rows[k]) && |rows[k]| >= 2 && SharesUpper(rows[k], 0, |rows[k]|, p0.depth)
    requires forall k :: 0 <= k < |rows| ==> IsRoot(rows[k], p0.depth, c0[k], false, p0.trees[k])
    requires forall k :: 0 <= k < |rows| ==> IsRoot(rows[k], p0.depth, c1[k], true, p1.trees[k])
    requires forall k :: 0 <= k < |rows| ==>
      p0.leafValues[k] == p1.leafValues[k] == Blank(rows[k], p0.depth).values && p0.leafTags[k] == p1.leafTags[k] == Blank(rows[k], p0.depth).tags
    ensures BothTraced(p0, p1, rows, OriginsOf(RootsOf(c0, false), p0.leafValues, p0.leafTags, values0),
                       OriginsOf(RootsOf(c1, true), p1.leafValues, p1.leafTags, values1), p0.depth, p0.depth + 1)
  {
    hide IsSplit, Increasing, SharesUpper, Traced, PartitionOf, Xor;
    forall k | 0 <= k < |rows|
      ensures Traced(rows[k], p0.g, Roots(c0[k], false), p0.depth, p0.trees[k], p0.depth, p0.depth + 1,
                     Leaves(p0.leafValues[k], p0.leafTags[k], values0[k]))
      ensures Traced(rows[k], p1.g, Roots(c1[k], true), p0.depth, p1.trees[k], p0.depth, p0.depth + 1,
                     Leaves(p1.leafValues[k], p1.leafTags[k], values1[k]))
    {
      TracedRoot(rows[k], p0.g, c0[k], false, p0.depth, p0.trees[k], Leaves(p0.leafValues[k], p0.leafTags[k], values0[k]));
      TracedRoot(rows[k], p1.g, c1[k], true, p0.depth, p1.trees[k], Leaves(p1.leafValues[k], p1.leafTags[k], values1[k]));
    }
  }

  /** Points below 2^depth share their upper bits. */
  lemma InDomain(pts: seq<nat>, depth: nat)
    requires |pts| > 0 && Below(pts, Pow(2, depth))
    ensures SharesUpper(pts, 0, |pts|, depth)
  {
    forall x | 0 <= x < |pts| ensures Upper(pts[x], depth) == 0 {
      ModUnique(pts[x], 0, pts[x], Pow(2, depth));
    }
  }

  /** Tags of the dense outputs as bits. */
  function TagBits(out: seq<(Block, Block)>): (t: seq<bool>)
    ensures |t| == |out| && forall i :: 0 <= i < |out| ==> t[i] == Lsb(out[i].1)
  {
    seq(|out|, i requires 0 <= i < |out| => Lsb(out[i].1))
  }

  function Seeds(out: seq<(Block, Block)>): (s: seq<Block>)
    ensures |s| == |out| && forall i :: 0 <= i < |out| ==> s[i] == out[i].0
  {
    seq(|out|, i requires 0 <= i < |out| => out[i].0)
  }

  lemma DenseIsShared(out0: seq<(Block, Block)>, out1: seq<(Block, Block)>, n: nat, bin: nat)
    requires R.SharesOf(out0, out1, n, bin, None) && bin < n
    ensures DenseShares(Seeds(out0), Seeds(out1), TagBits(out0), TagBits(out1), bin)
  {
    forall i | 0 <= i < n
      ensures i != bin ==> out0[i].0 == out1[i].0
      ensures Lsb(out0[i].1) != Lsb(out1[i].1) <==> i == bin
    {
      XorZero(out0[i].0, out1[i].0);
      LsbXor(out0[i].1, out1[i].1);
    }
  }

  lemma ShiftedBit(x: nat, k: nat, i: nat)
    ensures Bit(Upper(x, k), i) == Bit(x, k + i)
  {
    PowPositive(2, k);
    PowPositive(2, i);
    PowAdd(2, k, i);
    var m, q := Pow(2, k), Pow(2, i);
    DivideTwice(x, m, q);
  }

  /** The dense bins of the alphas. */
  function Bins(rows: seq<seq<nat>>, xas: seq<nat>, depth: nat): (b: seq<nat>)
    requires |xas| == |rows| && forall k :: 0 <= k < |rows| ==> xas[k] < |rows[k]|
    ensures |b| == |rows| && forall k :: 0 <= k < |b| ==> b[k] == Upper(rows[k][xas[k]], depth)
  {
    seq(|rows|, k requires 0 <= k < |rows| => Upper(rows[k][xas[k]], depth))
  }

  /** The upper bits of the points address the dense trees. */
  function Uppers(points: seq<nat>, depth: nat): (u: seq<nat>)
    ensures |u| == |points| && forall k :: 0 <= k < |u| ==> u[k] == Upper(points[k], depth)
  {
    seq(|points|, k requires 0 <= k < |points| => Upper(points[k], depth))
  }

  lemma DenseList(rows: seq<seq<nat>>, xas: seq<nat>, points0: seq<nat>, points1: seq<nat>, depth: nat, denseDepth: nat,
                  domain: nat)
    requires domain == Pow(2, denseDepth)
    requires IsRows(rows, xas, depth + denseDepth) && SharesRows(rows, xas, points0, points1, depth + denseDepth)
    ensures R.SharesPoints(Bins(rows, xas, depth), Uppers(points0, depth), Uppers(points1, depth), domain)
    ensures SharesRows(rows, xas, points0, points1, depth)
    ensures forall k, x :: 0 <= k < |rows| && 0 <= x < |rows[k]| ==> Upper(rows[k][x], depth) < domain
  {
    hide Upper, Bit, Increasing, D.Log2Ceil, Below;
    LogOfPower(denseDepth);
    forall k | 0 <= k < |rows|
      ensures R.SharesPoint(Upper(rows[k][xas[k]], depth), Upper(points0[k], depth), Upper(points1[k], depth), denseDepth)
      ensures forall x :: 0 <= x < |rows[k]| ==> Upper(rows[k][x], depth) < Pow(2, denseDepth)
      ensures R.SharesPoint(rows[k][xas[k]], points0[k], points1[k], depth)
    {
      BinsFit(rows[k], depth, denseDepth);
      DensePoints(rows[k][xas[k]], points0[k], points1[k], depth, denseDepth);
    }
  }

  /** What the dense trees leave at every bin of every tree. */
  ghost predicate AllDense(seeds0: seq<seq<Block>>, seeds1: seq<seq<Block>>, tags0: seq<seq<bool>>, tags1: seq<seq<bool>>,
                           bins: seq<nat>, domain: nat)
  {
    && |seeds0| == |seeds1| == |tags0| == |tags1| == |bins|
    && forall k :: 0 <= k < |bins| ==>
         && |seeds0[k]| == |seeds1[k]| == |tags0[k]| == |tags1[k]| == domain && bins[k] < domain
         && DenseShares(seeds0[k], seeds1[k], tags0[k], tags1[k], bins[k])
  }

  /** The seeds and tags that one party's dense outputs leave. */
  function AllSeeds(out: seq<seq<(Block, Block)>>): (s: seq<seq<Block>>)
    ensures |s| == |out| && forall k :: 0 <= k < |out| ==> s[k] == Seeds(out[k])
  {
    seq(|out|, k requires 0 <= k < |out| => Seeds(out[k]))
  }

  function AllTags(out: seq<seq<(Block, Block)>>): (t: seq<seq<bool>>)
    ensures |t| == |out| && forall k :: 0 <= k < |out| ==> t[k] == TagBits(out[k])
  {
    seq(|out|, k requires 0 <= k < |out| => TagBits(out[k]))
  }

  /** The leaves of a party's dense tree: its output blocks, and the low bits of its tag blocks. */
  ghost predicate IsDenseBase(base: Base, g: Prg, party: nat, domain: nat, root0: (Block, Block), root1: (Block, Block), bin: nat)
    requires domain >= 2 && D.Log2Ceil(domain) >= 1 && party < 2
  {
    var out := D.Evaluated(g, party, R.PathColumn(g, party, root0, root1, bin, domain, None), domain);
    && base.Dense? && |base.seeds| == |base.tags| == domain
    && forall i :: 0 <= i < domain ==> base.seeds[i] == out[i].0 && base.tags[i] == out[i].1[0]
  }

  /** The dense trees: their shares, and the difference of the two parties at alpha's bin. */
  method ExpandBins(r0: D.Party, r1: D.Party, points0: seq<nat>, points1: seq<nat>, seed0: Block, seed1: Block, ghost bins: seq<nat>)
    returns (ok: bool, seeds0: seq<seq<Block>>, seeds1: seq<seq<Block>>, tags0: seq<seq<bool>>, tags1: seq<seq<bool>>)
    requires R.Parties(r0, r1) && |points0| == r0.numPoints && R.SharesPoints(bins, points0, points1, r0.domain)
    modifies r0, r1, r0.mult`otIdx, r1.mult`otIdx
    ensures ok <==> old(|r0.mult.choiceBits| > 0 && r0.mult.otIdx + r0.numPoints * r0.depth <= r0.mult.totalMults)
    ensures ok ==> AllDense(seeds0, seeds1, tags0, tags1, bins, r0.domain)
    ensures ok ==> forall k :: 0 <= k < |bins| ==>
      Xor(seeds0[k][bins[k]], seeds1[k][bins[k]])
        == DenseDifference(r0.g, r0.domain, D.RootOf(r0.g, seed0, k), D.RootOf(r0.g, seed1, k), bins[k])
    ensures ok ==> D.Log2Ceil(r0.domain) >= 1 && forall k :: 0 <= k < |bins| ==>
      && IsDenseBase(Dense(seeds0[k], tags0[k]), r0.g, 0, r0.domain, D.RootOf(r0.g, seed0, k), D.RootOf(r0.g, seed1, k), bins[k])
      && IsDenseBase(Dense(seeds1[k], tags1[k]), r0.g, 1, r0.domain, D.RootOf(r0.g, seed0, k), D.RootOf(r0.g, seed1, k), bins[k])
  {
    hide Xor, D.Log2Ceil, D.Evaluated, R.SharesOf, R.SharesPoint, R.PathColumn, R.KeyOf, D.ColumnOf, M.Transferred, DenseShares;
    seeds0, seeds1, tags0, tags1 := [], [], [], [];
    var out0, out1;
    ok, out0, out1 := R.ExpandShared(r0, r1, points0, points1, [], [], seed0, seed1, bins);
    if !ok { return; }
    D.RowsFit(r0.domain);
    ghost var values := R.Shared([], []);
    assert values == [];
    R.KeyShape(r0.g, 0, seed0, seed1, bins, r0.domain, values);
    R.KeyShape(r0.g, 1, seed0, seed1, bins, r0.domain, values);
    seeds0, seeds1, tags0, tags1 := AllSeeds(out0), AllSeeds(out1), AllTags(out0), AllTags(out1);
    forall k | 0 <= k < |bins|
      ensures |seeds0[k]| == |seeds1[k]| == |tags0[k]| == |tags1[k]| == r0.domain && DenseShares(seeds0[k], seeds1[k], tags0[k], tags1[k], bins[k])
      ensures |out0[k]| == |out1[k]| == r0.domain
    {
      DenseIsShared(out0[k], out1[k], r0.domain, bins[k]);
    }
  }

  /** The start of one tree on dense bins: its leaves, and where a path waits. */
  ghost predicate Began(pts: seq<nat>, xa: nat, depth: nat, s: Spot, v0: seq<Block>, v1: seq<Block>, u0: seq<bool>, u1: seq<bool>,
                        seeds0: seq<Block>, seeds1: seq<Block>)
  {
    && xa < |pts| && SameOff(xa, v0, v1, u0, u1) && |v0| == |pts|
    && (s.path.None? <==> Alone(pts, xa, depth))
    && var bin := Upper(pts[xa], depth);
       s.path.None? ==>
         && bin < |seeds0| && bin < |seeds1| && u0[xa] != u1[xa]
         && v0[xa] == seeds0[bin] && v1[xa] == seeds1[bin]
  }

  lemma DenseTree(pts: seq<nat>, g: Hash, xa: nat, depth: nat, seeds0: seq<Block>, seeds1: seq<Block>, tags0: seq<bool>, tags1: seq<bool>,
                  s0: Start, s1: Start)
    returns (s: Spot)
    requires Increasing(pts) && xa < |pts| && DenseShares(seeds0, seeds1, tags0, tags1, Upper(pts[xa], depth))
    requires Fits(pts, depth, seeds0, tags0, Blank(pts, depth)) && Fits(pts, depth, seeds1, tags1, Blank(pts, depth))
    requires s0 == DenseFrom(pts, g, depth, seeds0, tags0, Blank(pts, depth), 0)
    requires s1 == DenseFrom(pts, g, depth, seeds1, tags1, Blank(pts, depth), 0)
    ensures Inv(pts, xa, depth, s0.tree, s1.tree, depth, 0, s.path, s.top, depth + 1)
    ensures Began(pts, xa, depth, s, s0.values, s1.values, s0.tags, s1.tags, seeds0, seeds1)
  {
    hide Upper, Inv, Alone, DenseFrom, Fits;
    BlankStarts(pts, xa, depth, seeds0, seeds1, tags0, tags1);
    var path, top := DenseBoth(pts, g, xa, depth, Blank(pts, depth), Blank(pts, depth), 0, None, depth, seeds0, seeds1, tags0, tags1);
    s := Spot(path, top);
  }

  /** The dense seeds and tags have an entry for the bin of every point. */
  ghost predicate AllFit(rows: seq<seq<nat>>, depth: nat, seeds: seq<seq<Block>>, tags: seq<seq<bool>>)
  {
    && |rows| == |seeds| == |tags|
    && forall k :: 0 <= k < |rows| ==> Fits(rows[k], depth, seeds[k], tags[k], Blank(rows[k], depth))
  }

  ghost function DenseOf(seeds: seq<seq<Block>>, tags: seq<seq<bool>>): (r: seq<Base>)
    requires |seeds| == |tags|
    ensures |r| == |seeds| && forall k :: 0 <= k < |r| ==> r[k] == Dense(seeds[k], tags[k])
  {
    seq(|seeds|, k requires 0 <= k < |seeds| => Dense(seeds[k], tags[k]))
  }

  /** Both parties' trees after the start on dense bins come from them; no word is set. */
  lemma BinsTracedBoth(p0: Party, p1: Party, rows: seq<seq<nat>>, seeds0: seq<seq<Block>>, seeds1: seq<seq<Block>>,
                       tags0: seq<seq<bool>>, tags1: seq<seq<bool>>, sums0: seq<Block>, sums1: seq<Block>)
    requires p0.g == p1.g && p0.depth == p1.depth && |p0.trees| == |p1.trees| == |rows| == |sums0| == |sums1|
    requires |p0.leafValues| == |p1.leafValues| == |p0.leafTags| == |p1.leafTags| == |rows|
    requires forall k :: 0 <= k < |rows| ==> Increasing(rows[k])
    requires AllFit(rows, p0.depth, seeds0, tags0) && AllFit(rows, p0.depth, seeds1, tags1)
    requires forall k :: 0 <= k < |rows| ==>
      DenseFrom(rows[k], p0.g, p0.depth, seeds0[k], tags0[k], Blank(rows[k], p0.depth), 0)
        == Start(p0.trees[k], p0.leafValues[k], p0.leafTags[k])
    requires forall k :: 0 <= k < |rows| ==>
      DenseFrom(rows[k], p0.g, p0.depth, seeds1[k], tags1[k], Blank(rows[k], p0.depth), 0)
        == Start(p1.trees[k], p1.leafValues[k], p1.leafTags[k])
    ensures BothTraced(p0, p1, rows, OriginsOf(DenseOf(seeds0, tags0), p0.leafValues, p0.leafTags, sums0),
                       OriginsOf(DenseOf(seeds1, tags1), p1.leafValues, p1.leafTags, sums1), p0.depth, p0.depth + 1)
  {
    hide Increasing, Fits, DenseFrom, Traced, Blank;
    forall k | 0 <= k < |rows|
      ensures Traced(rows[k], p0.g, Dense(seeds0[k], tags0[k]), p0.depth, p0.trees[k], p0.depth, p0.depth + 1,
                     Leaves(p0.leafValues[k], p0.leafTags[k], sums0[k]))
      ensures Traced(rows[k], p1.g, Dense(seeds1[k], tags1[k]), p0.depth, p1.trees[k], p0.depth, p0.depth + 1,
                     Leaves(p1.leafValues[k], p1.leafTags[k], sums1[k]))
      ensures p0.trees[k].sigma == p1.trees[k].sigma && p0.trees[k].tau == p1.trees[k].tau
    {
      TracedBins(rows[k], p0.g, p0.depth, seeds0[k], tags0[k], Start(p0.trees[k], p0.leafValues[k], p0.leafTags[k]), sums0[k]);
      TracedBins(rows[k], p0.g, p0.depth, seeds1[k], tags1[k], Start(p1.trees[k], p1.leafValues[k], p1.leafTags[k]), sums1[k]);
      NoWords(rows[k], p0.g, p0.depth, seeds0[k], tags0[k], Blank(rows[k], p0.depth), 0);
      NoWords(rows[k], p0.g, p0.depth, seeds1[k], tags1[k], Blank(rows[k], p0.depth), 0);
    }
  }

  /** The start sets no word. */
  lemma {:induction false} NoWords(pts: seq<nat>, g: Hash, depth: nat, seeds: seq<Block>, tags: seq<bool>, s: Start, x: nat)
    requires x <= |pts| && Fits(pts, depth, seeds, tags, s)
    ensures var r := DenseFrom(pts, g, depth, seeds, tags, s, x).tree; r.sigma == s.tree.sigma && r.tau == s.tree.tau
    decreases |pts| - x
  {
    hide Upper, Fits, PartitionOf, HashPair, Xor;
    if x < |pts| {
      var next := BinStep(pts, g, depth, seeds, tags, s, x);
      assert next.tree.sigma == s.tree.sigma && next.tree.tau == s.tree.tau;
      NoWords(pts, g, depth, seeds, tags, next, BinEnd(pts, x, x + 1, depth));
    }
  }

  /** Both parties after the start on dense bins. */
  method StartBins(p0: Party, p1: Party, rows: seq<seq<nat>>, seeds0: seq<seq<Block>>, seeds1: seq<seq<Block>>,
                   tags0: seq<seq<bool>>, tags1: seq<seq<bool>>, ghost xas: seq<nat>, ghost domain: nat,
                   ghost sums0: seq<Block>, ghost sums1: seq<Block>)
    returns (ghost spots: seq<Spot>)
    requires p0 != p1 && p0.g == p1.g && p0.depth == p1.depth && p0.numPoints == p1.numPoints == |rows| == |xas|
    requires forall k :: 0 <= k < |rows| ==> Increasing(rows[k]) && xas[k] < |rows[k]|
    requires AllFit(rows, p0.depth, seeds0, tags0) && AllFit(rows, p0.depth, seeds1, tags1)
    requires AllDense(seeds0, seeds1, tags0, tags1, Bins(rows, xas, p0.depth), domain) && |sums0| == |sums1| == |rows|
    modifies p0, p1
    ensures |p0.trees| == |p1.trees| == |p0.leafValues| == |p1.leafValues| == |p0.leafTags| == |p1.leafTags| == |spots| == |rows|
    ensures forall k :: 0 <= k < |rows| ==> xas[k] < |p0.leafValues[k]| && xas[k] < |p1.leafValues[k]|
    ensures AllInv(rows, xas, p0.depth, p0.trees, p1.trees, p0.depth, spots, p0.depth + 1)
    ensures AllStarts(rows, xas, spots, p0.leafValues, p1.leafValues, p0.leafTags, p1.leafTags)
    ensures forall k :: 0 <= k < |rows| ==>
      Began(rows[k], xas[k], p0.depth, spots[k], p0.leafValues[k], p1.leafValues[k], p0.leafTags[k], p1.leafTags[k],
            seeds0[k], seeds1[k])
    ensures BothTraced(p0, p1, rows, OriginsOf(DenseOf(seeds0, tags0), p0.leafValues, p0.leafTags, sums0),
                       OriginsOf(DenseOf(seeds1, tags1), p1.leafValues, p1.leafTags, sums1), p0.depth, p0.depth + 1)
  {
    hide Inv, Upper, DenseFrom, Alone, Increasing, Blank, Fits, DenseShares, AllTraced;
    p0.DenseStart(rows, seeds0, tags0);
    p1.DenseStart(rows, seeds1, tags1);
    BinsTracedBoth(p0, p1, rows, seeds0, seeds1, tags0, tags1, sums0, sums1);
    spots := [];
    ghost var depth, k := p0.depth, 0;
    while k < |rows|
      invariant 0 <= k <= |rows| && |spots| == k
      invariant forall j :: 0 <= j < k ==>
        && Inv(rows[j], xas[j], depth, p0.trees[j], p1.trees[j], depth, 0, spots[j].path, spots[j].top, depth + 1)
        && Began(rows[j], xas[j], depth, spots[j], p0.leafValues[j], p1.leafValues[j], p0.leafTags[j], p1.leafTags[j],
            seeds0[j], seeds1[j])
    {
      ghost var s := DenseTree(rows[k], p0.g, xas[k], depth, seeds0[k], seeds1[k], tags0[k], tags1[k],
                               Start(p0.trees[k], p0.leafValues[k], p0.leafTags[k]), Start(p1.trees[k], p1.leafValues[k], p1.leafTags[k]));
      spots := spots + [s];
      k := k + 1;
    }
  }

  lemma AllSeedsFit(rows: seq<seq<nat>>, depth: nat, seeds: seq<seq<Block>>, tags: seq<seq<bool>>, domain: nat)
    requires |rows| == |seeds| == |tags| && forall k :: 0 <= k < |rows| ==> |seeds[k]| == |tags[k]| == domain
    requires forall k, x :: 0 <= k < |rows| && 0 <= x < |rows[k]| ==> Upper(rows[k][x], depth) < domain
    ensures AllFit(rows, depth, seeds, tags)
  {
    hide Upper;
  }

  /** The difference of the two dense seeds of a bin. */
  ghost function DenseDifference(g: Prg, domain: nat, root0: (Block, Block), root1: (Block, Block), bin: nat): Block
    requires domain >= 2 && bin < domain && D.Log2Ceil(domain) >= 1
  {
    Xor(D.Evaluated(g, 0, R.PathColumn(g, 0, root0, root1, bin, domain, None), domain)[bin].0,
        D.Evaluated(g, 1, R.PathColumn(g, 1, root0, root1, bin, domain, None), domain)[bin].0)
  }

  /** The last seeds of the two parties on the path to a bin, whose leaf values the dense outputs are. */
  ghost function BinSeeds(g: Prg, domain: nat, root0: (Block, Block), root1: (Block, Block), bin: nat): (Block, Block)
    requires D.Log2Ceil(domain) >= 1
  {
    var depth := D.Log2Ceil(domain);
    var p, d := PathAt(g, root0, root1, bin, depth, depth), Bit(bin, 0);
    (PathSeed(p.s0, p.t0, PathWord(p, d), d), PathSeed(p.s1, p.t1, PathWord(p, d), d))
  }

  /** For every expansion: the difference is that of the leaf values of two seeds with opposite low bits. */
  lemma DifferenceOfLeaves(g: Prg, domain: nat, root0: (Block, Block), root1: (Block, Block), bin: nat)
    requires domain >= 2 && bin < domain && D.Log2Ceil(domain) >= 1
    ensures var s := BinSeeds(g, domain, root0, root1, bin);
      && Lsb(s.0) != Lsb(s.1)
      && DenseDifference(g, domain, root0, root1, bin) == Xor(g.leaf(s.0), g.leaf(s.1))
      && (DenseDifference(g, domain, root0, root1, bin) == ZERO <==> g.leaf(s.0) == g.leaf(s.1))
  {
    hide Xor, Bit, SeedsAt, PathAt, PathWord, PathSeed, PathWords, Prefix, Lsb, D.Log2Ceil;
    D.RowsFit(domain);
    var depth := D.Log2Ceil(domain);
    var words := PathWords(g, root0, root1, bin, depth, depth);
    assert words[..depth] == words;
    CorrectedOnPath(g, root0, root1, bin, depth, depth, words);
    PrefixEnds(bin, depth);
    R.LastWord(g, root0, root1, bin, depth);
    LevelSize(g, 0, root0, words, depth);
    LevelSize(g, 1, root1, words, depth);
    var s := BinSeeds(g, domain, root0, root1, bin);
    XorZero(g.leaf(s.0), g.leaf(s.1));
  }

  /** So an expansion without colliding leaves never opens a lone point to its value ... */
  lemma DistinctLeavesDiffer(g: Prg, domain: nat, root0: (Block, Block), root1: (Block, Block), bin: nat)
    requires domain >= 2 && bin < domain && D.Log2Ceil(domain) >= 1
    requires forall a, b :: g.leaf(a) == g.leaf(b) ==> a == b
    ensures DenseDifference(g, domain, root0, root1, bin) != ZERO
  {
    hide *;
    DifferenceOfLeaves(g, domain, root0, root1, bin);
    var s := BinSeeds(g, domain, root0, root1, bin);
    assert s.0 != s.1;
  }

  /** ... and any expansion with two different leaf values fails on some roots, with two bins and alpha in bin 0. */
  lemma LoneBinFails(g: Prg, a: Block, b: Block) returns (root0: (Block, Block), root1: (Block, Block))
    requires g.leaf(a) != g.leaf(b)
    ensures D.Log2Ceil(2) >= 1 && DenseDifference(g, 2, root0, root1, 0) != ZERO
  {
    hide D.Evaluated, DenseDifference, D.Log2Ceil;
    var s0, s1 := OppositePair(g, a, b);
    root0, root1 := (s0, ZERO), (s1, ZERO);
    LogOfPower(1);
    assert Pow(2, 1) == 2;
    DifferenceOfLeaves(g, 2, root0, root1, 0);
    RootSeeds(g, s0, s1);
  }

  lemma OppositePair(g: Prg, a: Block, b: Block) returns (s0: Block, s1: Block)
    requires g.leaf(a) != g.leaf(b)
    ensures Lsb(s0) != Lsb(s1) && g.leaf(s0) != g.leaf(s1)
  {
    s0, s1 := a, b;
    if Lsb(a) == Lsb(b) {
      s1 := WithLsb(a, !Lsb(a));
      if g.leaf(a) == g.leaf(s1) { s0 := b; }
    }
  }

  /** Roots that are the seeds of bin 0 of two. */
  lemma RootSeeds(g: Prg, s0: Block, s1: Block)
    requires Lsb(s0) != Lsb(s1) && D.Log2Ceil(2) == 1
    ensures BinSeeds(g, 2, (s0, ZERO), (s1, ZERO), 0) == (s0, s1)
  {
    var p := PathAt(g, (s0, ZERO), (s1, ZERO), 0, 1, 1);
    assert p == Path((s0, ZERO), (s1, ZERO), Saturated(false), Saturated(true));
    assert Pow(2, 0) == 1 && !Bit(0, 0);
    LsbXor(s0, s1);
    XorZero(ZERO, ZERO);
    assert PathWord(p, false).cw == ZERO;
    assert And(Saturated(false), ZERO) == ZERO && And(Saturated(true), ZERO) == ZERO;
    XorZero(s0, ZERO);
    XorZero(s1, ZERO);
  }

  /** What the shares of one tree open to at alpha. */
  ghost function DenseValue(g: Prg, domain: nat, root0: (Block, Block), root1: (Block, Block), pts: seq<nat>, xa: nat, depth: nat,
                            value: Block): Block
    requires domain >= 2 && D.Log2Ceil(domain) >= 1 && xa < |pts| && Upper(pts[xa], depth) < domain
  {
    if Alone(pts, xa, depth) then Xor(DenseDifference(g, domain, root0, root1, Upper(pts[xa], depth)), value) else value
  }

  /** Alpha opens to its value exactly when its bin holds another point, or the leaves of the bin's two seeds collide. */
  lemma DenseValueOpens(g: Prg, domain: nat, root0: (Block, Block), root1: (Block, Block), pts: seq<nat>, xa: nat, depth: nat, value: Block)
    requires domain >= 2 && D.Log2Ceil(domain) >= 1 && xa < |pts| && Upper(pts[xa], depth) < domain
    ensures var s := BinSeeds(g, domain, root0, root1, Upper(pts[xa], depth));
      DenseValue(g, domain, root0, root1, pts, xa, depth, value) == value <==>
        (Alone(pts, xa, depth) ==> g.leaf(s.0) == g.leaf(s.1))
  {
    hide Xor, Upper, D.Log2Ceil, BinSeeds, Alone, DenseDifference;
    DifferenceOfLeaves(g, domain, root0, root1, Upper(pts[xa], depth));
    ShiftKeeps(DenseDifference(g, domain, root0, root1, Upper(pts[xa], depth)), value);
  }

  lemma ShiftKeeps(shift: Block, value: Block)
    ensures Xor(shift, value) == value <==> shift == ZERO
  {
    XorZero(shift, value);
    if Xor(shift, value) == value {
      XorAssociates(shift, value, value);
      XorZero(value, value);
      XorZero(shift, ZERO);
      XorZero(Xor(shift, value), value);
    }
  }

  /**
   Shares that open to the value at alpha, exactly if alpha's bin holds another point or the leaves of the bin's two
   dense seeds collide; alpha alone in its bin opens to the value shifted by the difference of those leaves.
   */
  ghost predicate TreeOpens(g: Prg, domain: nat, root0: (Block, Block), root1: (Block, Block), pts: seq<nat>, xa: nat, depth: nat,
                            value: Block, out0: seq<(Block, bool)>, out1: seq<(Block, bool)>)
  {
    && domain >= 2 && D.Log2Ceil(domain) >= 1 && xa < |pts| && Upper(pts[xa], depth) < domain
    && SharesOf(out0, out1, |pts|, xa, DenseValue(g, domain, root0, root1, pts, xa, depth, value))
    && var b := BinSeeds(g, domain, root0, root1, Upper(pts[xa], depth));
       (Xor(out0[xa].0, out1[xa].0) == value <==> (Alone(pts, xa, depth) ==> g.leaf(b.0) == g.leaf(b.1)))
  }

  /** The shares of one dense tree, bit by bit, and the exact condition on which they open to the value. */
  lemma TreeOpensMeans(g: Prg, domain: nat, root0: (Block, Block), root1: (Block, Block), pts: seq<nat>, xa: nat, depth: nat,
                       value: Block, out0: seq<(Block, bool)>, out1: seq<(Block, bool)>, x: nat)
    requires TreeOpens(g, domain, root0, root1, pts, xa, depth, value, out0, out1) && x < |pts|
    ensures domain >= 2 && D.Log2Ceil(domain) >= 1 && xa < |pts| == |out0| == |out1| && Upper(pts[xa], depth) < domain
    ensures out0[x].1 != out1[x].1 <==> x == xa
    ensures x != xa ==> out0[x].0 == out1[x].0
    ensures Xor(out0[xa].0, out1[xa].0) == value <==>
      (exists y :: 0 <= y < |pts| && y != xa && Upper(pts[y], depth) == Upper(pts[xa], depth))
      || DenseDifference(g, domain, root0, root1, Upper(pts[xa], depth)) == ZERO
  {
    hide D.Log2Ceil, Upper, DenseDifference, BinSeeds, DenseValue, Xor;
    DifferenceOfLeaves(g, domain, root0, root1, Upper(pts[xa], depth));
    XorZero(out0[x].0, out1[x].0);
  }

  lemma DenseBaseMeans(base: Base, g: Prg, party: nat, domain: nat, root0: (Block, Block), root1: (Block, Block), bin: nat)
    requires domain >= 2 && D.Log2Ceil(domain) >= 1 && party < 2 && IsDenseBase(base, g, party, domain, root0, root1, bin)
    ensures base.Dense? && |base.seeds| == |base.tags| == domain
    ensures forall i :: 0 <= i < domain ==>
      var out := D.Evaluated(g, party, R.PathColumn(g, party, root0, root1, bin, domain, None), domain)[i];
      base.seeds[i] == out.0 && base.tags[i] == out.1[0]
  {
    hide D.Log2Ceil, D.Evaluated, R.PathColumn;
  }

  /** One tree: its start on dense bins decides what it opens to. */
  lemma BinOpens(g: Prg, domain: nat, root0: (Block, Block), root1: (Block, Block), pts: seq<nat>, xa: nat, depth: nat, value: Block,
                 s: Spot, v0: seq<Block>, v1: seq<Block>, u0: seq<bool>, u1: seq<bool>, seeds0: seq<Block>, seeds1: seq<Block>,
                 out0: seq<(Block, bool)>, out1: seq<(Block, bool)>)
    requires domain >= 2 && D.Log2Ceil(domain) >= 1 && xa < |pts| && Upper(pts[xa], depth) < domain == |seeds0| == |seeds1|
    requires Began(pts, xa, depth, s, v0, v1, u0, u1, seeds0, seeds1)
    requires var bin := Upper(pts[xa], depth);
      Xor(seeds0[bin], seeds1[bin]) == DenseDifference(g, domain, root0, root1, bin)
    requires xa < |v0| && xa < |v1| && SharesOf(out0, out1, |pts|, xa, OpensTo(s.path.Some?, v0[xa], v1[xa], value))
    ensures TreeOpens(g, domain, root0, root1, pts, xa, depth, value, out0, out1)
  {
    hide Xor, Upper, Alone, DenseDifference, BinSeeds, D.Log2Ceil;
    DenseValueOpens(g, domain, root0, root1, pts, xa, depth, value);
  }

  /**
   expand over dense trees of 2^denseDepth bins, for a list of sorted, duplicate-free sets that hold their alphas;
   refused exactly when the number of points is not the number of rows or the dense trees lack transfers. The shares
   of a tree open to the value at alpha exactly if alpha's bin holds another point or the leaves of the bin's two
   dense seeds collide: alpha alone in its bin opens to the value shifted by the difference of those leaves.
   */
  method ExpandDense(p0: Party, p1: Party, r0: D.Party, r1: D.Party, denseDepth: nat, points0: seq<nat>, points1: seq<nat>,
                     values0: seq<Block>, values1: seq<Block>, rows: seq<seq<nat>>, seed0: Block, seed1: Block,
                     fill0: seq<seq<(Block, Block)>>, fill1: seq<seq<(Block, Block)>>, ghost xas: seq<nat>)
    returns (ok: bool, out0: seq<seq<(Block, bool)>>, out1: seq<seq<(Block, bool)>>, ghost words: seq<Words>,
             ghost base0: seq<Base>, ghost base1: seq<Base>)
    requires Parties(p0, p1) && |points0| == |points1| == |values0| == |values1| == p0.numPoints
    requires IsFill(fill0, p0.depth, p0.numPoints) && IsFill(fill1, p0.depth, p0.numPoints)
    requires R.Parties(r0, r1) && denseDepth >= 1 && r0.domain == Pow(2, denseDepth) && r0.numPoints == p0.numPoints
    requires p0.mult != r0.mult && p0.mult != r1.mult && p1.mult != r0.mult && p1.mult != r1.mult
    requires IsRows(rows, xas, p0.depth + denseDepth)
    requires |rows| == |points0| ==> SharesRows(rows, xas, points0, points1, p0.depth + denseDepth)
    requires p0.depth > 0 ==> |p0.mult.choiceBits| > 0 && p0.mult.otIdx + p0.numPoints * p0.depth <= p0.mult.totalMults
    modifies p0, p1, p0.mult`otIdx, p1.mult`otIdx, r0, r1, r0.mult`otIdx, r1.mult`otIdx
    ensures ok <==>
      && |points0| == |rows|
      && old(|r0.mult.choiceBits| > 0 && r0.mult.otIdx + r0.numPoints * r0.depth <= r0.mult.totalMults)
    ensures ok ==> |out0| == |out1| == |words| == |base0| == |base1| == |rows|
    ensures ok ==> D.Log2Ceil(r0.domain) >= 1 && forall k :: 0 <= k < |rows| ==>
      && Upper(rows[k][xas[k]], p0.depth) < r0.domain
      && IsDenseBase(base0[k], r0.g, 0, r0.domain, D.RootOf(r0.g, seed0, k), D.RootOf(r0.g, seed1, k), Upper(rows[k][xas[k]], p0.depth))
      && IsDenseBase(base1[k], r0.g, 1, r0.domain, D.RootOf(r0.g, seed0, k), D.RootOf(r0.g, seed1, k), Upper(rows[k][xas[k]], p0.depth))
    ensures ok ==> forall k :: 0 <= k < |rows| ==>
      && Walked(rows[k], p0.g, base0[k], p0.depth, words[k], out0[k])
      && Walked(rows[k], p0.g, base1[k], p0.depth, words[k], out1[k])
    ensures ok ==> forall k :: 0 <= k < |rows| ==>
      TreeOpens(r0.g, r0.domain, D.RootOf(r0.g, seed0, k), D.RootOf(r0.g, seed1, k), rows[k], xas[k], p0.depth,
                Xor(values0[k], values1[k]), out0[k], out1[k])
  {
    hide Xor, Inv, M.Transferred, SharesOf, Upper, DenseShares, Alone, D.Log2Ceil, R.SharesPoint, R.SharesPoints, SharesRows,
      AllInv, AllStarts, Began, DenseDifference, TreeOpens, Increasing, Below, D.RootOf, AllFit, Walked, AllTraced, IsDenseBase;
    out0, out1, words, base0, base1 := [], [], [], [], [];
    ok := |points0| == |rows|;
    if !ok { return; }
    D.RowsFit(r0.domain);
    DenseList(rows, xas, points0, points1, p0.depth, denseDepth, r0.domain);
    ghost var bins := Bins(rows, xas, p0.depth);
    var seeds0, seeds1, tags0, tags1;
    ok, seeds0, seeds1, tags0, tags1 := ExpandBins(r0, r1, Uppers(points0, p0.depth), Uppers(points1, p0.depth), seed0, seed1, bins);
    if !ok { return; }
    AllSeedsFit(rows, p0.depth, seeds0, tags0, r0.domain);
    AllSeedsFit(rows, p0.depth, seeds1, tags1, r0.domain);
    ghost var spots := StartBins(p0, p1, rows, seeds0, seeds1, tags0, tags1, xas, r0.domain, values0, values1);
    base0, base1 := DenseOf(seeds0, tags0), DenseOf(seeds1, tags1);
    out0, out1, words := Finish(p0, p1, points0, points1, values0, values1, rows, fill0, fill1, xas, spots, base0, base1);
    AllBinsOpen(r0.g, r0.domain, seed0, seed1, rows, xas, p0.depth, R.Shared(values0, values1), spots,
                p0.leafValues, p1.leafValues, p0.leafTags, p1.leafTags, seeds0, seeds1, out0, out1);
  }

  /** What the parties hold at the end, tree by tree. */
  lemma AllBinsOpen(g: Prg, domain: nat, seed0: Block, seed1: Block, rows: seq<seq<nat>>, xas: seq<nat>, depth: nat, values: seq<Block>,
                    spots: seq<Spot>, v0: seq<seq<Block>>, v1: seq<seq<Block>>, u0: seq<seq<bool>>, u1: seq<seq<bool>>,
                    seeds0: seq<seq<Block>>, seeds1: seq<seq<Block>>,
                    out0: seq<seq<(Block, bool)>>, out1: seq<seq<(Block, bool)>>)
    requires domain >= 2 && D.Log2Ceil(domain) >= 1
    requires |rows| == |xas| == |values| == |spots| == |seeds0| == |seeds1| == |out0| == |out1|
    requires |rows| == |v0| == |v1| == |u0| == |u1|
    requires forall k :: 0 <= k < |rows| ==>
      && xas[k] < |rows[k]| && Upper(rows[k][xas[k]], depth) < domain == |seeds0[k]| == |seeds1[k]|
      && xas[k] < |v0[k]| && xas[k] < |v1[k]|
    requires forall k :: 0 <= k < |rows| ==> var bin := Upper(rows[k][xas[k]], depth);
      Xor(seeds0[k][bin], seeds1[k][bin]) == DenseDifference(g, domain, D.RootOf(g, seed0, k), D.RootOf(g, seed1, k), bin)
    requires forall k :: 0 <= k < |rows| ==>
      Began(rows[k], xas[k], depth, spots[k], v0[k], v1[k], u0[k], u1[k],
            seeds0[k], seeds1[k])
    requires forall k :: 0 <= k < |rows| ==> SharesOf(out0[k], out1[k], |rows[k]|, xas[k],
      OpensTo(spots[k].path.Some?, v0[k][xas[k]], v1[k][xas[k]], values[k]))
    ensures forall k :: 0 <= k < |rows| ==>
      TreeOpens(g, domain, D.RootOf(g, seed0, k), D.RootOf(g, seed1, k), rows[k], xas[k], depth, values[k], out0[k], out1[k])
  {
    hide *;
    forall k | 0 <= k < |rows|
      ensures TreeOpens(g, domain, D.RootOf(g, seed0, k), D.RootOf(g, seed1, k), rows[k], xas[k], depth, values[k], out0[k], out1[k])
    {
      BinOpens(g, domain, D.RootOf(g, seed0, k), D.RootOf(g, seed1, k), rows[k], xas[k], depth, values[k], spots[k],
               v0[k], v1[k], u0[k], u1[k],
               seeds0[k], seeds1[k], out0[k], out1[k]);
    }
  }

  lemma BlankStarts(pts: seq<nat>, xa: nat, depth: nat, seeds0: seq<Block>, seeds1: seq<Block>, tags0: seq<bool>, tags1: seq<bool>)
    requires Increasing(pts) && xa < |pts| && Upper(pts[xa], depth) < |seeds0| == |seeds1| == |tags0| == |tags1|
    ensures StartInv(pts, xa, depth, Blank(pts, depth), Blank(pts, depth), 0, None, depth, seeds0, seeds1, tags0, tags1)
    ensures BinStart(pts, 0, depth)
  {
    hide Upper, Inv, Alone;
    EmptyInv(pts, xa, depth);
  }

  lemma BinsFit(pts: seq<nat>, depth: nat, denseDepth: nat)
    requires Below(pts, Pow(2, depth + denseDepth))
    ensures forall x :: 0 <= x < |pts| ==> Upper(pts[x], depth) < Pow(2, denseDepth)
  {
    forall x | 0 <= x < |pts| ensures Upper(pts[x], depth) < Pow(2, denseDepth) {
      PowPositive(2, depth);
      PowAdd(2, depth, denseDepth);
      QuotientBound(pts[x], Pow(2, depth), Pow(2, denseDepth));
    }
  }

  lemma DensePoints(alpha: nat, point0: nat, point1: nat, depth: nat, denseDepth: nat)
    requires R.SharesPoint(alpha, point0, point1, depth + denseDepth)
    ensures R.SharesPoint(Upper(alpha, depth), Upper(point0, depth), Upper(point1, depth), denseDepth)
  {
    hide Bit, Upper;
    forall i: nat | i < denseDepth
      ensures Bit(Upper(alpha, depth), i) == (Bit(Upper(point0, depth), i) != Bit(Upper(point1, depth), i))
    {
      ShiftedBit(alpha, depth, i);
      ShiftedBit(point0, depth, i);
      ShiftedBit(point1, depth, i);
    }
  }

  lemma {:induction false} LogOfPower(d: nat)
    ensures Pow(2, d) >= 1 && D.Log2Ceil(Pow(2, d)) == d
  {
    if d > 0 { LogOfPower(d - 1); }
  }
}
