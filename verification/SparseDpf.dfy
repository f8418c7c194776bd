/**
 SparseDpf.h, one party: the start from dense bins or from random seeds, the level loop, and the leaves, for a
 list of trees with their own sparse points.
 */
module SparseDpf {
  import opened Numbers
  import opened Wrappers
  import opened Blocks
  import opened DpfTree
  import opened SparseTree
  import M = DpfMult

  /** What the start leaves behind: the tree and the leaves that need no tree. */
  datatype Start = Start(tree: Tree, values: seq<Block>, tags: seq<bool>)

  /** The end of the bin that starts at `x`, searched from `y` on. */
  function BinEnd(pts: seq<nat>, x: nat, y: nat, depth: nat): (e: nat)
    requires x < y <= |pts|
    ensures y <= e <= |pts| && (e < |pts| ==> Upper(pts[e], depth) != Upper(pts[x], depth))
    ensures forall k :: y <= k < e ==> Upper(pts[k], depth) == Upper(pts[x], depth)
    decreases |pts| - y
  {
    if y == |pts| || Upper(pts[y], depth) != Upper(pts[x], depth) then y else BinEnd(pts, x, y + 1, depth)
  }

  ghost predicate Fits(pts: seq<nat>, depth: nat, seeds: seq<Block>, tags: seq<bool>, s: Start)
  {
    && Sized(s.tree, depth) && |s.values| == |s.tags| == |pts| && |seeds| == |tags|
    && forall y :: 0 <= y < |pts| ==> Upper(pts[y], depth) < |seeds|
  }

  /** One dense bin: a lone point takes the bin's seed, several points become a split range. */
  function BinStep(pts: seq<nat>, g: Hash, depth: nat, seeds: seq<Block>, tags: seq<bool>, s: Start, x: nat): (r: Start)
    requires x < |pts| && Fits(pts, depth, seeds, tags, s)
    ensures Fits(pts, depth, seeds, tags, r)
  {
    var bin, e := Upper(pts[x], depth), BinEnd(pts, x, x + 1, depth);
    if e == x + 1 then s.(values := s.values[x := seeds[bin]], tags := s.tags[x := tags[bin]])
    else
      var r := PartitionOf(pts, x, e, depth);
      if x < r.1 < e then s.(tree := Expanded(pts, s.tree, r.0, x, r.1, e, HashPair(g, seeds[bin]), tags[bin])) else s
  }

  function DenseFrom(pts: seq<nat>, g: Hash, depth: nat, seeds: seq<Block>, tags: seq<bool>, s: Start, x: nat): (r: Start)
    requires x <= |pts| && Fits(pts, depth, seeds, tags, s)
    ensures Fits(pts, depth, seeds, tags, r)
    decreases |pts| - x
  {
    if x == |pts| then s
    else DenseFrom(pts, g, depth, seeds, tags, BinStep(pts, g, depth, seeds, tags, s, x), BinEnd(pts, x, x + 1, depth))
  }

  /** The first `i` nodes of a level, worked off in order. */
  ghost function Processed(pts: seq<nat>, g: Hash, t: Tree, depth: nat, dn: nat, i: nat): Tree
    requires Sized(t, depth) && dn <= depth && i <= |t.levels[dn]|
  {
    if i == 0 then t
    else
      var p := Processed(pts, g, t, depth, dn, i - 1);
      if Sized(p, depth) && i - 1 < |p.levels[dn]| then StepNode(pts, g, p, dn, i - 1) else p
  }

  /** The nodes of a level are split ranges below later levels. */
  ghost predicate Splittable(pts: seq<nat>, t: Tree, depth: nat, dn: nat, i: nat)
    requires Sized(t, depth) && dn <= depth
  {
    forall k :: i <= k < |t.levels[dn]| ==>
      var n := t.levels[dn][k]; IsSplit(pts, n.lo, n.mid, n.hi, dn) && n.parent <= depth
  }

  datatype Leaves = Leaves(values: seq<Block>, tags: seq<bool>, gamma: Block)

  /** One leaf node: its corrected value and tag go to its point, the value into the sum. */
  function LeafStep(t: Tree, l: Leaves, i: nat): (r: Leaves)
    requires |t.levels| == |t.sigma| == |t.tau| > 0 && i < |t.levels[0]| && |l.values| == |l.tags|
    ensures |r.values| == |r.tags| == |l.values|
  {
    var n := t.levels[0][i];
    if n.lo < |l.values| && n.parent < |t.sigma| then
      var v := CorrectedSeed(t, n);
      Leaves(l.values[n.lo := v], l.tags[n.lo := CorrectedTag(t, n)], Xor(l.gamma, v))
    else l
  }

  function LeafFold(t: Tree, l: Leaves, i: nat): (r: Leaves)
    requires |t.levels| == |t.sigma| == |t.tau| > 0 && i <= |t.levels[0]| && |l.values| == |l.tags|
    ensures |r.values| == |r.tags| == |l.values|
  {
    if i == 0 then l else LeafStep(t, LeafFold(t, l, i - 1), i - 1)
  }

  /** A party's share of a level's word: the product's inputs and the tag messages. */
  datatype Masked = Masked(x: bool, y: Block, tau: (bool, bool))

  function MaskedOf(t: Tree, point: nat, partyIdx: nat, d: nat): Masked
    requires 1 <= d < |t.z|
  {
    Masked(Bit(point, d - 1) != (partyIdx == 1), Xor(t.z[d].0, t.z[d].1),
           ((Lsb(t.z[d].0) != Bit(point, d - 1)) != (partyIdx == 1), Lsb(t.z[d].1) != Bit(point, d - 1)))
  }

  class Party {
    const g: Hash
    const partyIdx: nat
    const depth: nat
    const numPoints: nat
    const mult: M.DpfMult
    var trees: seq<Tree>
    var leafValues: seq<seq<Block>>
    var leafTags: seq<seq<bool>>

    constructor (g: Hash, partyIdx: nat, depth: nat, numPoints: nat)
      requires partyIdx <= 1
      ensures this.g == g && this.partyIdx == partyIdx && this.depth == depth && this.numPoints == numPoints
      ensures fresh(mult) && mult.Valid() && mult.partyIdx == partyIdx && mult.totalMults == depth * numPoints && mult.otIdx == 0
    {
      MulNonNeg(depth, numPoints);
      this.g, this.partyIdx, this.depth, this.numPoints := g, partyIdx, depth, numPoints;
      var m := new M.DpfMult();
      var ok := m.Init(partyIdx, depth * numPoints);
      mult := m;
      trees, leafValues, leafTags := [], [], [];
    }

    ghost predicate AllSized()
      reads this
    {
      |trees| == numPoints && forall k :: 0 <= k < numPoints ==> Sized(trees[k], depth)
    }

    /** Both halves of a split range are partitioned and queued. */
    method ExpandRange(pts: seq<nat>, t: Tree, delta: nat, lo: nat, mid: nat, hi: nat, c: (Block, Block), tag: bool)
      returns (r: Tree)
      requires Increasing(pts) && IsSplit(pts, lo, mid, hi, delta) && 1 <= delta <= depth && Sized(t, depth) && mid < hi
      ensures lo < mid < hi <= |pts| && r == Expanded(pts, t, delta, lo, mid, hi, c, tag) && Sized(r, depth)
    {
      hide Xor, PartitionOf, IsSplit;
      SplitShape(pts, lo, mid, hi, delta);
      HalvesSplit(pts, lo, mid, hi, delta);
      r := Summed(t, delta, c);
      var delta2, m := Partition(pts, lo, mid, delta);
      r := Push(r, delta2, Node(lo, m, mid, 0, delta, c.0, tag));
      delta2, m := Partition(pts, mid, hi, delta);
      r := Push(r, delta2, Node(mid, m, hi, 1, delta, c.1, tag));
    }

    /** The start on the leaves of the dense trees, row by row and bin by bin. */
    method DenseStart(rows: seq<seq<nat>>, seeds: seq<seq<Block>>, tags: seq<seq<bool>>)
      requires |rows| == |seeds| == |tags| == numPoints
      requires forall k :: 0 <= k < numPoints ==>
        Increasing(rows[k]) && Fits(rows[k], depth, seeds[k], tags[k], Blank(rows[k], depth))
      modifies this
      ensures |trees| == |leafValues| == |leafTags| == numPoints
      ensures forall k :: 0 <= k < numPoints ==>
        Start(trees[k], leafValues[k], leafTags[k]) == DenseFrom(rows[k], g, depth, seeds[k], tags[k], Blank(rows[k], depth), 0)
    {
      hide Fits, DenseFrom, Blank;
      var ts: seq<Tree>, vs: seq<seq<Block>>, us: seq<seq<bool>>, r := [], [], [], 0;
      while r < numPoints
        invariant 0 <= r <= numPoints && |ts| == |vs| == |us| == r
        invariant forall k :: 0 <= k < r ==>
          Start(ts[k], vs[k], us[k]) == DenseFrom(rows[k], g, depth, seeds[k], tags[k], Blank(rows[k], depth), 0)
      {
        var s := DenseBins(rows[r], seeds[r], tags[r]);
        ts, vs, us := ts + [s.tree], vs + [s.values], us + [s.tags];
        r := r + 1;
      }
      trees, leafValues, leafTags := ts, vs, us;
    }

    method DenseBins(pts: seq<nat>, seeds: seq<Block>, tags: seq<bool>) returns (s: Start)
      requires Increasing(pts) && Fits(pts, depth, seeds, tags, Blank(pts, depth))
      ensures s == DenseFrom(pts, g, depth, seeds, tags, Blank(pts, depth), 0)
    {
      hide Upper, Expanded, HashPair, PartitionOf;
      s := Blank(pts, depth);
      var x := 0;
      while x < |pts|
        invariant 0 <= x <= |pts| && Fits(pts, depth, seeds, tags, s)
        invariant DenseFrom(pts, g, depth, seeds, tags, s, x) == DenseFrom(pts, g, depth, seeds, tags, Blank(pts, depth), 0)
      {
        var bin := Upper(pts[x], depth);
        var e := BinEnd(pts, x, x + 1, depth);
        ghost var before := s;
        if e == x + 1 {
          s := s.(values := s.values[x := seeds[bin]], tags := s.tags[x := tags[bin]]);
        } else {
          BinSplits(pts, x, depth);
          var delta, mid := Partition(pts, x, e, depth);
          var t := ExpandRange(pts, s.tree, delta, x, mid, e, HashPair(g, seeds[bin]), tags[bin]);
          s := s.(tree := t);
        }
        assert s == BinStep(pts, g, depth, seeds, tags, before, x);
        x := e;
      }
    }

    /** The start without a dense tree: two random seeds for the halves of every row. */
    method SparseStart(rows: seq<seq<nat>>, c: seq<(Block, Block)>)
      requires |rows| == |c| == numPoints && depth >= 1
      requires forall k :: 0 <= k < numPoints ==>
        Increasing(rows[k]) && |rows[k]| >= 2 && SharesUpper(rows[k], 0, |rows[k]|, depth)
      modifies this
      ensures |trees| == |leafValues| == |leafTags| == numPoints
      ensures forall k :: 0 <= k < numPoints ==> IsRoot(rows[k], depth, c[k], partyIdx == 1, trees[k])
      ensures forall k :: 0 <= k < numPoints ==>
        leafValues[k] == Blank(rows[k], depth).values && leafTags[k] == Blank(rows[k], depth).tags
    {
      hide Expanded, IsSplit, PartitionOf, EmptyTree;
      var ts: seq<Tree>, r := [], 0;
      while r < numPoints
        invariant 0 <= r <= numPoints && |ts| == r
        invariant forall k :: 0 <= k < r ==> IsRoot(rows[k], depth, c[k], partyIdx == 1, ts[k])
      {
        var n := |rows[r]|;
        PartitionSplits(rows[r], 0, n, depth);
        var delta, mid := Partition(rows[r], 0, n, depth);
        RootSplits(rows[r], mid, delta);
        var t := ExpandRange(rows[r], EmptyTree(depth), delta, 0, mid, n, c[r], partyIdx == 1);
        ts := ts + [t];
        r := r + 1;
      }
      trees := ts;
      leafValues := seq(numPoints, k requires 0 <= k < numPoints => Blank(rows[k], depth).values);
      leafTags := seq(numPoints, k requires 0 <= k < numPoints => Blank(rows[k], depth).tags);
    }

    // ---------------------------------------------------------- the level loop

    /** Trees that do not use level `d` get random sums; whether any tree uses it. */
    method FillLevel(d: nat, z: seq<(Block, Block)>) returns (used: bool)
      requires AllSized() && 1 <= d <= depth && |z| == numPoints
      modifies this`trees
      ensures AllSized()
      ensures forall k :: 0 <= k < numPoints ==>
        trees[k] == if old(trees)[k].c[d] then old(trees)[k] else Resummed(old(trees)[k], d, z[k])
      ensures used <==> exists k :: 0 <= k < numPoints && old(trees)[k].c[d]
    {
      var ts, r := trees, 0;
      used := false;
      while r < numPoints
        invariant 0 <= r <= numPoints && |ts| == numPoints && trees == old(trees)
        invariant forall k :: 0 <= k < r ==> ts[k] == if trees[k].c[d] then trees[k] else Resummed(trees[k], d, z[k])
        invariant forall k :: r <= k < numPoints ==> ts[k] == trees[k]
        invariant used <==> exists k :: 0 <= k < r && trees[k].c[d]
      {
        if ts[r].c[d] { used := true; } else { ts := ts[r := ts[r].(z := ts[r].z[d := z[r]])]; }
        r := r + 1;
      }
      trees := ts;
    }

    /** The inputs of the multiplication and the tag messages of level `d`, for all trees. */
    method Mask(points: seq<nat>, d: nat) returns (x: seq<bool>, y: seq<Block>, tau: seq<(bool, bool)>)
      requires AllSized() && 1 <= d <= depth && |points| == numPoints
      ensures |x| == |y| == |tau| == numPoints
      ensures forall k :: 0 <= k < numPoints ==> Masked(x[k], y[k], tau[k]) == MaskedOf(trees[k], points[k], partyIdx, d)
    {
      hide Xor, Lsb, Bit;
      x, y, tau := [], [], [];
      var r := 0;
      while r < numPoints
        invariant 0 <= r <= numPoints && |x| == |y| == |tau| == r
        invariant forall k :: 0 <= k < r ==> Masked(x[k], y[k], tau[k]) == MaskedOf(trees[k], points[k], partyIdx, d)
      {
        var t := trees[r];
        var alphaD := Bit(points[r], d - 1);
        tau := tau + [((Lsb(t.z[d].0) != alphaD) != (partyIdx == 1), Lsb(t.z[d].1) != alphaD)];
        x := x + [alphaD != (partyIdx == 1)];
        y := y + [Xor(t.z[d].0, t.z[d].1)];
        r := r + 1;
      }
    }

    /** The revealed words of level `d`, in all trees. */
    method SetLevel(d: nat, sigma: seq<Block>, tau: seq<(bool, bool)>)
      requires AllSized() && 1 <= d <= depth && |sigma| == |tau| == numPoints
      modifies this`trees
      ensures AllSized()
      ensures forall k :: 0 <= k < numPoints ==> trees[k] == Worded(old(trees)[k], d, sigma[k], tau[k])
    {
      var ts, r := trees, 0;
      while r < numPoints
        invariant 0 <= r <= numPoints && |ts| == numPoints && trees == old(trees)
        invariant forall k :: 0 <= k < r ==> ts[k] == Worded(trees[k], d, sigma[k], tau[k])
        invariant forall k :: r <= k < numPoints ==> ts[k] == trees[k]
      {
        ts := ts[r := ts[r].(sigma := ts[r].sigma[d := sigma[r]], tau := ts[r].tau[d := tau[r]])];
        r := r + 1;
      }
      trees := ts;
    }

    /** All nodes of level `dn` of every tree: corrected, expanded, their halves queued below. */
    method ProcessLevel(rows: seq<seq<nat>>, dn: nat)
      requires AllSized() && 1 <= dn <= depth && |rows| == numPoints
      requires forall k :: 0 <= k < numPoints ==> Increasing(rows[k]) && Splittable(rows[k], trees[k], depth, dn, 0)
      modifies this`trees
      ensures AllSized()
      ensures forall k :: 0 <= k < numPoints ==>
        trees[k] == Processed(rows[k], g, old(trees)[k], depth, dn, |old(trees)[k].levels[dn]|)
    {
      hide Processed, Splittable;
      var ts, r := trees, 0;
      while r < numPoints
        invariant 0 <= r <= numPoints && |ts| == numPoints && trees == old(trees)
        invariant forall k :: 0 <= k < r ==>
          Sized(ts[k], depth) && ts[k] == Processed(rows[k], g, trees[k], depth, dn, |trees[k].levels[dn]|)
        invariant forall k :: r <= k < numPoints ==> ts[k] == trees[k]
      {
        var t := Nodes(rows[r], ts[r], dn);
        ts := ts[r := t];
        r := r + 1;
      }
      trees := ts;
    }

    method Nodes(pts: seq<nat>, start: Tree, dn: nat) returns (t: Tree)
      requires Increasing(pts) && Sized(start, depth) && 1 <= dn <= depth && Splittable(pts, start, depth, dn, 0)
      ensures t == Processed(pts, g, start, depth, dn, |start.levels[dn]|) && Sized(t, depth)
    {
      hide Xor, Bit, Lsb, And, Saturated, IsSplit, CorrectedSeed, CorrectedTag, HashPair, Expanded;
      t := start;
      var i := 0;
      while i < |t.levels[dn]|
        invariant Sized(t, depth) && |t.levels[dn]| == |start.levels[dn]| && 0 <= i <= |t.levels[dn]|
        invariant Splittable(pts, t, depth, dn, i) && t == Processed(pts, g, start, depth, dn, i)
      {
        var n := t.levels[dn][i];
        SplitShape(pts, n.lo, n.mid, n.hi, dn);
        var seed, tag := CorrectedSeed(t, n), CorrectedTag(t, n);
        ghost var before := t;
        t := Reseeded(t, dn, i, seed);
        ReseedKeeps(pts, before, depth, dn, i, seed);
        ghost var reseeded := t;
        t := ExpandRange(pts, t, dn, n.lo, n.mid, n.hi, HashPair(g, seed), tag);
        ExpandKeeps(pts, reseeded, depth, dn, n.lo, n.mid, n.hi, HashPair(g, seed), tag);
        i := i + 1;
      }
    }

    // ------------------------------------------------------------------ leaves

    /** The leaf nodes of one tree: values, tags and the sum with the value share. */
    method CollectTree(tree: Tree, values: seq<Block>, tags: seq<bool>, value: Block) returns (l: Leaves)
      requires Sized(tree, depth) && |values| == |tags|
      requires forall k :: 0 <= k < |tree.levels[0]| ==>
        tree.levels[0][k].lo < |values| && tree.levels[0][k].parent <= depth
      ensures l == LeafFold(tree, Leaves(values, tags, value), |tree.levels[0]|)
    {
      hide Xor, CorrectedSeed, CorrectedTag;
      l := Leaves(values, tags, value);
      var i := 0;
      while i < |tree.levels[0]|
        invariant 0 <= i <= |tree.levels[0]| && |l.values| == |l.tags| == |values|
        invariant l == LeafFold(tree, Leaves(values, tags, value), i)
      {
        var n := tree.levels[0][i];
        var v := CorrectedSeed(tree, n);
        l := Leaves(l.values[n.lo := v], l.tags[n.lo := CorrectedTag(tree, n)], Xor(l.gamma, v));
        i := i + 1;
      }
    }

    /** The output calls of one tree, for its points in order. */
    method OutputTree(l: Leaves, gamma: Block) returns (out: seq<(Block, bool)>)
      requires |l.values| == |l.tags|
      ensures |out| == |l.values|
      ensures forall x :: 0 <= x < |out| ==> out[x] == (Xor(l.values[x], And(Saturated(l.tags[x]), gamma)), l.tags[x])
    {
      out := [];
      var x := 0;
      while x < |l.values|
        invariant 0 <= x <= |l.values| && |out| == x
        invariant forall y :: 0 <= y < x ==> out[y] == (Xor(l.values[y], And(Saturated(l.tags[y]), gamma)), l.tags[y])
      {
        out := out + [(Xor(l.values[x], And(Saturated(l.tags[x]), gamma)), l.tags[x])];
        x := x + 1;
      }
    }

    method CollectLeaves(value: seq<Block>) returns (l: seq<Leaves>)
      requires AllSized() && |leafValues| == |leafTags| == |value| == numPoints
      requires forall k :: 0 <= k < numPoints ==> CanCollect(trees[k], depth, |leafValues[k]|) && |leafValues[k]| == |leafTags[k]|
      ensures |l| == numPoints
      ensures forall k :: 0 <= k < numPoints ==>
        l[k] == LeafFold(trees[k], Leaves(leafValues[k], leafTags[k], value[k]), |trees[k].levels[0]|)
    {
      hide LeafFold;
      l := [];
      var r := 0;
      while r < numPoints
        invariant 0 <= r <= numPoints && |l| == r
        invariant forall k :: 0 <= k < r ==>
          l[k] == LeafFold(trees[k], Leaves(leafValues[k], leafTags[k], value[k]), |trees[k].levels[0]|)
      {
        var x := CollectTree(trees[r], leafValues[r], leafTags[r], value[r]);
        l := l + [x];
        r := r + 1;
      }
    }

    method Output(l: seq<Leaves>, gamma: seq<Block>) returns (out: seq<seq<(Block, bool)>>)
      requires |l| == |gamma| == numPoints && forall k :: 0 <= k < numPoints ==> |l[k].values| == |l[k].tags|
      ensures |out| == numPoints
      ensures forall k :: 0 <= k < numPoints ==> IsOutput(out[k], l[k], gamma[k])
    {
      out := [];
      var r := 0;
      while r < numPoints
        invariant 0 <= r <= numPoints && |out| == r && forall k :: 0 <= k < r ==> IsOutput(out[k], l[k], gamma[k])
      {
        var o := OutputTree(l[r], gamma[r]);
        out := out + [o];
        r := r + 1;
      }
    }
  }

  /** The output calls of one tree. */
  ghost predicate IsOutput(out: seq<(Block, bool)>, l: Leaves, gamma: Block)
  {
    && |out| == |l.values| == |l.tags|
    && forall x :: 0 <= x < |out| ==> out[x] == (Xor(l.values[x], And(Saturated(l.tags[x]), gamma)), l.tags[x])
  }

  /** The leaf nodes have places among `n` points and parents in the tree. */
  ghost predicate CanCollect(t: Tree, depth: nat, n: nat)
    requires Sized(t, depth)
  {
    forall k :: 0 <= k < |t.levels[0]| ==> t.levels[0][k].lo < n && t.levels[0][k].parent <= depth
  }

  /** The tree of a row whose root was split with the seeds `c`. */
  ghost predicate IsRoot(pts: seq<nat>, depth: nat, c: (Block, Block), tag: bool, t: Tree)
    requires |pts| >= 2
  {
    var r := PartitionOf(pts, 0, |pts|, depth);
    && IsSplit(pts, 0, r.1, |pts|, r.0) && 0 < r.1 < |pts| && 1 <= r.0
    && t == Expanded(pts, EmptyTree(depth), r.0, 0, r.1, |pts|, c, tag)
  }

  lemma RootSplits(pts: seq<nat>, mid: nat, delta: nat)
    requires |pts| >= 2 && IsSplit(pts, 0, mid, |pts|, delta)
    ensures 0 < mid < |pts| && delta >= 1
  {}

  function Blank(pts: seq<nat>, depth: nat): Start
  {
    Start(EmptyTree(depth), seq(|pts|, _ => ZERO), seq(|pts|, _ => false))
  }

  /** The points of one bin share the bits above the tree depth, and split below it. */
  lemma BinSplits(pts: seq<nat>, x: nat, depth: nat)
    requires x < |pts| && Increasing(pts) && BinEnd(pts, x, x + 1, depth) != x + 1
    ensures var e := BinEnd(pts, x, x + 1, depth);
      && SharesUpper(pts, x, e, depth)
      && var r := PartitionOf(pts, x, e, depth);
      IsSplit(pts, x, r.1, e, r.0) && x < r.1 < e && 1 <= r.0
  {
    hide Upper, Bit;
    PartitionSplits(pts, x, BinEnd(pts, x, x + 1, depth), depth);
  }

  /** The dense bin of a point holds no other point. */
  ghost predicate Alone(pts: seq<nat>, x: nat, depth: nat)
    requires x < |pts|
  {
    forall y :: 0 <= y < |pts| && y != x ==> Upper(pts[y], depth) != Upper(pts[x], depth)
  }

  /** `x` starts a bin: the points before it lie in lower bins. */
  ghost predicate BinStart(pts: seq<nat>, x: nat, depth: nat)
  {
    forall y :: 0 <= y < x && x < |pts| && y < |pts| ==> Upper(pts[y], depth) < Upper(pts[x], depth)
  }

  lemma NextBin(pts: seq<nat>, x: nat, depth: nat)
    requires Increasing(pts) && x < |pts| && BinStart(pts, x, depth)
    ensures BinStart(pts, BinEnd(pts, x, x + 1, depth), depth)
  {
    hide Upper;
    var e := BinEnd(pts, x, x + 1, depth);
    if e < |pts| {
      UpperMonotone(pts[x], pts[e], depth);
      forall y | 0 <= y < e ensures Upper(pts[y], depth) < Upper(pts[e], depth) {
        UpperMonotone(pts[y], pts[e], depth);
      }
    }
  }

  /** The bin at `x` belongs to a point alone exactly when it has one point. */
  lemma AloneBin(pts: seq<nat>, x: nat, xa: nat, depth: nat)
    requires Increasing(pts) && x < |pts| && x <= xa < BinEnd(pts, x, x + 1, depth) && BinStart(pts, x, depth)
    ensures xa < |pts| && Upper(pts[xa], depth) == Upper(pts[x], depth)
    ensures Alone(pts, xa, depth) <==> BinEnd(pts, x, x + 1, depth) == x + 1
  {
    hide Upper;
    var e := BinEnd(pts, x, x + 1, depth);
    if e == x + 1 {
      forall y | 0 <= y < |pts| && y != xa ensures Upper(pts[y], depth) != Upper(pts[xa], depth) {
        if y >= e { UpperMonotone(pts[xa], pts[e], depth); UpperMonotone(pts[e], pts[y], depth); }
      }
    } else {
      assert Upper(pts[x], depth) == Upper(pts[x + 1], depth);
      assert x != xa || x + 1 != xa;
    }
  }

  lemma ReseedKeeps(pts: seq<nat>, t: Tree, depth: nat, dn: nat, i: nat, seed: Block)
    requires Sized(t, depth) && dn <= depth && i < |t.levels[dn]| && Splittable(pts, t, depth, dn, i)
    ensures Splittable(pts, Reseeded(t, dn, i, seed), depth, dn, i + 1)
  {
    hide IsSplit;
  }

  /** Expanding a node queues its halves strictly below. */
  lemma ExpandKeeps(pts: seq<nat>, t: Tree, depth: nat, dn: nat, lo: nat, mid: nat, hi: nat, c: (Block, Block), tag: bool)
    requires Increasing(pts) && Sized(t, depth) && 1 <= dn <= depth && lo < mid < hi <= |pts| && IsSplit(pts, lo, mid, hi, dn)
    ensures var r := Expanded(pts, t, dn, lo, mid, hi, c, tag);
      Sized(r, depth) && r.levels[dn] == t.levels[dn]
  {
    hide IsSplit, Xor, PartitionOf;
    HalvesSplit(pts, lo, mid, hi, dn);
  }
}
