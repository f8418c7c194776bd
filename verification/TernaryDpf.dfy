/**
 TernaryDpf.h, for a list of points with one tree each and values in blocks under XOR: each correction round is,
 for every tree, a one-of-three transfer built from two one-of-two transfers in each direction.
 */
module TernaryDpf {
  import opened Numbers
  import opened Wrappers
  import opened Blocks
  import T = DpfTree
  import M = DpfMult

  type Triple = s: seq<Block> | |s| == 3 witness [ZERO, ZERO, ZERO]

  /** The three child functions, the leaf function, and the expansion of a transferred key. */
  datatype Prg = Prg(child: (Block, nat) -> Block, leaf: Block -> Block, keys: Block -> Triple)

  function Child(g: Prg, b: Block, j: nat): (c: Block)
    ensures c == g.child(b, j)
  {
    g.child(b, j)
  }

  function Leaf(g: Prg, b: Block): (l: Block)
    ensures l == g.leaf(b)
  {
    g.leaf(b)
  }

  function Keys(g: Prg, b: Block): (k: Triple)
    ensures k == g.keys(b)
  {
    g.keys(b)
  }

  function XorT(a: Triple, b: Triple): Triple
  {
    [Xor(a[0], b[0]), Xor(a[1], b[1]), Xor(a[2], b[2])]
  }

  /** `r` added at position `i`. */
  function AddAt(a: Triple, i: nat, r: Block): Triple
    requires i < 3
  {
    a[i := Xor(a[i], r)]
  }

  // ------------------------------------------------------------------ trits

  function Digit(v: nat, i: nat): nat
  {
    PowPositive(4, i);
    v / Pow(4, i) % 4
  }

  function Trit(alpha: nat, i: nat): nat
  {
    PowPositive(3, i);
    alpha / Pow(3, i) % 3
  }

  lemma DigitsWritten(x: nat, i: nat)
    ensures Pow(4, i) > 0 && Digit(x, i) == x / Pow(4, i) % 4
    ensures Pow(3, i) > 0 && Trit(x, i) == x / Pow(3, i) % 3
  {}

  function Prefix(alpha: nat, depth: nat, iter: nat): nat
    requires iter <= depth
  {
    PowPositive(3, depth - iter);
    alpha / Pow(3, depth - iter)
  }

  lemma PrefixStep(alpha: nat, depth: nat, iter: nat)
    requires 1 <= iter <= depth
    ensures Prefix(alpha, depth, iter) == 3 * Prefix(alpha, depth, iter - 1) + Trit(alpha, depth - iter)
  {
    var m := Pow(3, depth - iter);
    PowPositive(3, depth - iter);
    assert Pow(3, depth - iter + 1) == 3 * m;
    DivideTwice(alpha, m, 3);
  }

  lemma PrefixEnds(alpha: nat, depth: nat)
    requires alpha < Pow(3, depth)
    ensures Prefix(alpha, depth, 0) == 0 && Prefix(alpha, depth, depth) == alpha
  {
    ModUnique(alpha, 0, alpha, Pow(3, depth));
  }

  function Log3Ceil(n: nat): nat
  {
    if n <= 1 then 0 else 1 + Log3Ceil((n + 2) / 3)
  }

  lemma {:induction false} Log3CeilBound(n: nat)
    ensures Pow(3, Log3Ceil(n)) >= n && (n > 1 ==> Log3Ceil(n) >= 1 && Pow(3, Log3Ceil(n) - 1) < n)
  {
    if n > 1 {
      var d := Log3Ceil((n + 2) / 3);
      Log3CeilBound((n + 2) / 3);
      assert Log3Ceil(n) == d + 1 && Pow(3, d + 1) == 3 * Pow(3, d);
      if d > 0 { assert Pow(3, d) == 3 * Pow(3, d - 1); } else { assert Pow(3, 0) == 1; }
    }
  }

  // ------------------------------------------------- two parties, one level

  function Corrected(raw: seq<Block>, tags: seq<Block>, sigma: Triple): (s: seq<Block>)
    requires |raw| == 3 * |tags|
    ensures |s| == |raw|
  {
    seq(|raw|, i requires 0 <= i < |raw| => Xor(raw[i], And(tags[i / 3], sigma[i % 3])))
  }

  function Children(g: Prg, s: seq<Block>): (c: seq<Block>)
    ensures |c| == 3 * |s|
  {
    seq(3 * |s|, i requires 0 <= i < 3 * |s| => Child(g, s[i / 3], i % 3))
  }

  function Descend(g: Prg, s: seq<Block>): (l: T.Level)
    ensures |l.raw| == 3 * |l.tags|
  {
    T.Level(T.Tags(s), Children(g, s))
  }

  ghost predicate Raw(l0: T.Level, l1: T.Level, a: nat)
  {
    && |l0.raw| == |l1.raw| == 3 * |l0.tags| && a < |l0.tags| == |l1.tags|
    && (exists x: bool :: l0.tags[a] == Saturated(x) && l1.tags[a] == Saturated(!x))
    && (forall i :: 0 <= i < |l0.tags| && i != a ==> l0.tags[i] == l1.tags[i])
    && forall i :: 0 <= i < |l0.raw| && i / 3 != a ==> l0.raw[i] == l1.raw[i]
  }

  /** The word of one round: the difference of the sums, shifted at the digit by both draws. */
  ghost predicate IsWord(sigma: Triple, z0: Triple, z1: Triple, d: nat, draw0: Block, draw1: Block)
  {
    forall j :: 0 <= j < 3 ==>
      sigma[j] == Xor(Xor(z0[j], z1[j]), if j == d then Xor(WithLsb(draw0, false), WithLsb(draw1, true)) else ZERO)
  }

  /** Such a word reveals the differences off the digit, and an odd shift of them there. */
  lemma WordReveals(sigma: Triple, z0: Triple, z1: Triple, d: nat, draw0: Block, draw1: Block)
    requires d < 3 && IsWord(sigma, z0, z1, d, draw0, draw1)
    ensures Reveals(sigma, XorT(z0, z1), d)
  {
    hide Xor, Lsb, WithLsb;
    var shift := Xor(WithLsb(draw0, false), WithLsb(draw1, true));
    DrawnLsb(draw0, draw1);
    LsbXor(WithLsb(draw0, false), WithLsb(draw1, true));
    LsbXor(Xor(z0[d], z1[d]), shift);
    forall j | 0 <= j < 3 && j != d ensures sigma[j] == XorT(z0, z1)[j] { XorZero(Xor(z0[j], z1[j]), ZERO); }
  }

  /** A correction reveals the children's differences off the path, and an odd shift of it on the path. */
  ghost predicate Reveals(sigma: Triple, z: Triple, d: nat)
  {
    && d < 3 && Lsb(sigma[d]) != Lsb(z[d])
    && forall j :: 0 <= j < 3 && j != d ==> sigma[j] == z[j]
  }

  /** The differences of the path children. */
  ghost function PathDifference(l0: T.Level, l1: T.Level, a: nat): Triple
    requires Raw(l0, l1, a)
  {
    [Xor(l0.raw[3 * a], l1.raw[3 * a]), Xor(l0.raw[3 * a + 1], l1.raw[3 * a + 1]), Xor(l0.raw[3 * a + 2], l1.raw[3 * a + 2])]
  }

  /** What the correction does to one child of the path parent. */
  lemma PathChild(c0: Block, c1: Block, x: bool, sigma: Block)
    ensures var s0, s1 := Xor(c0, And(Saturated(x), sigma)), Xor(c1, And(Saturated(!x), sigma));
      (sigma == Xor(c0, c1) ==> s0 == s1) && (Lsb(s0) != Lsb(s1) <==> Lsb(sigma) != Lsb(Xor(c0, c1)))
  {
    var s0, s1 := Xor(c0, And(Saturated(x), sigma)), Xor(c1, And(Saturated(!x), sigma));
    CorrectOpposite(c0, c1, x, sigma);
    XorZero(s0, s1);
    XorZero(Xor(c0, c1), sigma);
    LsbXor(s0, s1);
    LsbXor(Xor(c0, c1), sigma);
  }

  lemma LevelCorrects(l0: T.Level, l1: T.Level, a: nat, d: nat, sigma: Triple)
    requires Raw(l0, l1, a) && Reveals(sigma, PathDifference(l0, l1, a), d)
    ensures T.Agree(Corrected(l0.raw, l0.tags, sigma), Corrected(l1.raw, l1.tags, sigma), 3 * a + d)
  {
    hide Xor, And, Saturated, Lsb;
    var s0, s1 := Corrected(l0.raw, l0.tags, sigma), Corrected(l1.raw, l1.tags, sigma);
    var x: bool :| l0.tags[a] == Saturated(x) && l1.tags[a] == Saturated(!x);
    PathChild(l0.raw[3 * a], l1.raw[3 * a], x, sigma[0]);
    PathChild(l0.raw[3 * a + 1], l1.raw[3 * a + 1], x, sigma[1]);
    PathChild(l0.raw[3 * a + 2], l1.raw[3 * a + 2], x, sigma[2]);
    var z := PathDifference(l0, l1, a);
    assert z[0] == Xor(l0.raw[3 * a], l1.raw[3 * a]) && z[1] == Xor(l0.raw[3 * a + 1], l1.raw[3 * a + 1]);
    forall i | 0 <= i < |s0| && i != 3 * a + d ensures s0[i] == s1[i] {
      if i / 3 == a { assert i == 3 * a || i == 3 * a + 1 || i == 3 * a + 2; }
    }
  }

  lemma LevelExpands(g: Prg, s0: seq<Block>, s1: seq<Block>, a: nat)
    requires T.Agree(s0, s1, a)
    ensures Raw(Descend(g, s0), Descend(g, s1), a)
  {
    hide Saturated, Lsb;
    assert T.Tags(s0)[a] == Saturated(Lsb(s0[a])) && T.Tags(s1)[a] == Saturated(!Lsb(s0[a]));
  }

  lemma FirstLevel(root0: Triple, root1: Triple)
    ensures Raw(T.Level([Saturated(false)], root0), T.Level([Saturated(true)], root1), 0)
  {
    assert T.Level([Saturated(true)], root1).tags[0] == Saturated(!false);
  }

  /** Summing a level leaves the difference of the path children alone. */
  lemma {:induction false} SumDifference(c0: seq<Block>, c1: seq<Block>, j: nat, a: nat, n: nat)
    requires |c0| == |c1| >= 3 * n && j < 3 && 3 * a + 2 < |c0|
    requires forall i :: 0 <= i < |c0| && i / 3 != a ==> c0[i] == c1[i]
    ensures Xor(XorSum(c0, 3, j, n), XorSum(c1, 3, j, n)) == if a < n then Xor(c0[3 * a + j], c1[3 * a + j]) else ZERO
  {
    hide Xor;
    if n == 0 {
      XorZero(ZERO, ZERO);
    } else {
      var i := (n - 1) * 3 + j;
      assert i / 3 == n - 1;
      SumDifference(c0, c1, j, a, n - 1);
      XorSwap(XorSum(c0, 3, j, n - 1), c0[i], XorSum(c1, 3, j, n - 1), c1[i]);
      XorZero(c0[i], c1[i]);
      XorZero(Xor(c0[i], c1[i]), ZERO);
      XorZero(Xor(XorSum(c0, 3, j, n - 1), XorSum(c1, 3, j, n - 1)), ZERO);
    }
  }

  function Sums(l: T.Level): Triple
    requires |l.raw| == 3 * |l.tags|
  {
    [XorSum(l.raw, 3, 0, |l.tags|), XorSum(l.raw, 3, 1, |l.tags|), XorSum(l.raw, 3, 2, |l.tags|)]
  }

  lemma SumsDifference(l0: T.Level, l1: T.Level, a: nat)
    requires Raw(l0, l1, a)
    ensures XorT(Sums(l0), Sums(l1)) == PathDifference(l0, l1, a)
  {
    hide Xor, XorSum;
    SumDifference(l0.raw, l1.raw, 0, a, |l0.tags|);
    SumDifference(l0.raw, l1.raw, 1, a, |l0.tags|);
    SumDifference(l0.raw, l1.raw, 2, a, |l0.tags|);
  }

  // ------------------------------------------------- one party's whole tree

  /** What a party holds of a tree in front of the correction of level `iter`. */
  function LevelAt(g: Prg, party: nat, root: Triple, words: seq<Triple>, iter: nat): (l: T.Level)
    requires 1 <= iter <= |words| + 1
    ensures |l.raw| == 3 * |l.tags|
    decreases iter, 0
  {
    if iter == 1 then T.Level([Saturated(party == 1)], root) else Descend(g, SeedsAt(g, party, root, words, iter - 1))
  }

  /** The corrected seeds of level `iter`. */
  function SeedsAt(g: Prg, party: nat, root: Triple, words: seq<Triple>, iter: nat): (s: seq<Block>)
    requires 1 <= iter <= |words|
    decreases iter, 1
  {
    var l := LevelAt(g, party, root, words, iter);
    Corrected(l.raw, l.tags, words[iter - 1])
  }

  lemma {:induction false} LevelSize(g: Prg, party: nat, root: Triple, words: seq<Triple>, iter: nat)
    requires 1 <= iter <= |words| + 1
    ensures |LevelAt(g, party, root, words, iter).raw| == Pow(3, iter)
    ensures iter <= |words| ==> |SeedsAt(g, party, root, words, iter)| == Pow(3, iter)
  {
    assert Pow(3, iter) == 3 * Pow(3, iter - 1) && Pow(3, 0) == 1;
    if iter > 1 { LevelSize(g, party, root, words, iter - 1); }
  }

  /** Only the words of earlier levels matter. */
  lemma {:induction false} LevelPrefix(g: Prg, party: nat, root: Triple, words: seq<Triple>, more: seq<Triple>, iter: nat)
    requires 1 <= iter <= |words| + 1 && words <= more
    ensures LevelAt(g, party, root, words, iter) == LevelAt(g, party, root, more, iter)
  {
    if iter > 1 { LevelPrefix(g, party, root, words, more, iter - 1); }
  }

  /**
   The corrected seeds of every level, written out. Level 1 is the root, corrected by the second party; below, the three
   children of a seed are its expansions, corrected where its low bit is set.
   */
  lemma SeedsWritten(g: Prg, party: nat, root: Triple, words: seq<Triple>, iter: nat, a: nat, j: nat)
    requires 1 <= iter <= |words| && a < Pow(3, iter - 1) && j < 3
    ensures |SeedsAt(g, party, root, words, iter)| == Pow(3, iter) >= 3 * a + 3
    ensures iter == 1 ==> SeedsAt(g, party, root, words, 1)[j] == Xor(root[j], if party == 1 then words[0][j] else ZERO)
    ensures iter > 1 ==>
      && |SeedsAt(g, party, root, words, iter - 1)| == Pow(3, iter - 1)
      && var s := SeedsAt(g, party, root, words, iter - 1)[a];
      SeedsAt(g, party, root, words, iter)[3 * a + j] == Xor(g.child(s, j), if s[0] then words[iter - 1][j] else ZERO)
  {
    hide Xor, And, Saturated;
    LevelSize(g, party, root, words, iter);
    assert Pow(3, iter) == 3 * Pow(3, iter - 1) && Pow(3, 1) == 3 * Pow(3, 0);
    if iter == 1 {
      T.MaskedWord(party == 1, words[0][j]);
      assert a == 0 && j / 3 == 0 && j % 3 == j;
    } else {
      LevelSize(g, party, root, words, iter - 1);
      var s := SeedsAt(g, party, root, words, iter - 1);
      assert LevelAt(g, party, root, words, iter) == T.Level(T.Tags(s), Children(g, s));
      ChildEntry(g, s, a, j, words[iter - 1]);
    }
  }

  lemma ChildEntry(g: Prg, s: seq<Block>, a: nat, j: nat, w: Triple)
    requires a < |s| && j < 3
    ensures Corrected(Children(g, s), T.Tags(s), w)[3 * a + j] == Xor(g.child(s[a], j), if s[a][0] then w[j] else ZERO)
  {
    hide Xor, And, Saturated;
    T.MaskedWord(Lsb(s[a]), w[j]);
    assert (3 * a + j) / 3 == a && (3 * a + j) % 3 == j;
  }

  /** What a party outputs for one tree: the expansion of each last seed, corrected where its low bit is set, and that bit. */
  ghost predicate IsEvaluated(out: seq<(Block, bool)>, g: Prg, seeds: seq<Block>, gamma: Option<Block>, domain: nat)
  {
    && |out| == domain <= |seeds|
    && forall i :: 0 <= i < domain ==>
         out[i] == (Xor(g.leaf(seeds[i]), if seeds[i][0] && gamma.Some? then gamma.value else ZERO), seeds[i][0])
  }

  lemma OutputsMean(out: seq<(Block, bool)>, g: Prg, seeds: seq<Block>, gamma: Option<Block>, domain: nat, i: nat)
    requires IsEvaluated(out, g, seeds, gamma, domain) && i < domain
    ensures |out| == domain <= |seeds|
    ensures out[i] == (Xor(g.leaf(seeds[i]), if seeds[i][0] && gamma.Some? then gamma.value else ZERO), seeds[i][0])
  {}

  /** Leaf values, tags and output calls add up to that. */
  lemma EvaluatedIs(g: Prg, seeds: seq<Block>, domain: nat, leaves: seq<Block>, tags: seq<bool>, sum: Block, gamma: Option<Block>,
                    out: seq<(Block, bool)>)
    requires IsLastLayer(g, seeds, domain, leaves, tags, sum) && IsOutput(out, leaves, tags, gamma)
    ensures IsEvaluated(out, g, seeds, gamma, domain)
  {
    hide Xor, And, Saturated, XorSum;
    forall i | 0 <= i < domain
      ensures out[i] == (Xor(g.leaf(seeds[i]), if seeds[i][0] && gamma.Some? then gamma.value else ZERO), seeds[i][0])
    {
      XorZero(leaves[i], ZERO);
      if gamma.Some? {
        AndCommutes(gamma.value, Saturated(tags[i]));
        T.MaskedWord(tags[i], gamma.value);
        XorCommutes(leaves[i], if tags[i] then gamma.value else ZERO);
      }
    }
  }

  lemma AndCommutes(a: Block, b: Block)
    ensures And(a, b) == And(b, a)
  {}

  // ------------------------------------------------------------- one party

  /** The rows and sums of one tree in front of the correction of level `iter`. */
  ghost predicate Stands(s: seq<seq<Block>>, z: Triple, l: T.Level, iter: nat)
    requires |l.raw| == 3 * |l.tags|
  {
    iter >= 1 && |s| == 3 && z == Sums(l) && s[(iter - 1) % 3] == l.tags && s[iter % 3] == l.raw
  }

  ghost predicate IsLevels(ls: seq<T.Level>, n: nat)
  {
    |ls| == n && forall k :: 0 <= k < n ==> |ls[k].raw| == 3 * |ls[k].tags|
  }

  /** One party; `s[k]`, `z[k]` and `sigma[k]` are the three rows, the sums and the word of tree `k`. */
  class Party {
    const g: Prg
    const partyIdx: nat
    const domain: nat
    const depth: nat
    const numPoints: nat
    var otIdx: nat
    var sendOts: seq<(Block, Block)>
    var recvOts: seq<Block>
    var choices: seq<bool>
    var s: seq<seq<seq<Block>>>
    var z: seq<Triple>
    var sigma: seq<Triple>

    constructor (g: Prg, partyIdx: nat, domain: nat, numPoints: nat)
      requires partyIdx <= 1 && domain >= 1 && numPoints >= 1
      ensures this.g == g && this.partyIdx == partyIdx && this.domain == domain && this.numPoints == numPoints
      ensures Valid() && otIdx == 0
    {
      this.g, this.partyIdx, this.domain, this.depth, this.numPoints := g, partyIdx, domain, Log3Ceil(domain), numPoints;
      otIdx, sendOts, recvOts, choices := 0, [], [], [];
      s, z, sigma := [], [], [];
    }

    ghost predicate Valid()
    {
      partyIdx <= 1 && domain >= 1 && numPoints >= 1 && depth == Log3Ceil(domain)
    }

    method SetBaseOts(send: seq<(Block, Block)>, recv: seq<Block>, choice: seq<bool>) returns (ok: bool)
      modifies this`sendOts, this`recvOts, this`choices
      ensures ok <==> |send| == |recv| == |choice| == depth * numPoints * 2
      ensures ok ==> sendOts == send && recvOts == recv && choices == choice
      ensures !ok ==> unchanged(this)
    {
      var count := depth * numPoints * 2;
      if |send| != count || |recv| != count || |choice| != count { return false; }
      sendOts, recvOts, choices := send, recv, choice;
      ok := true;
    }

    /** Point shares are `depth` two-bit digits below three. */
    method PointsValid(points: seq<nat>) returns (ok: bool)
      ensures ok <==> forall k :: 0 <= k < |points| ==> IsPoint(points[k], depth)
    {
      hide IsPoint;
      var k := 0;
      while k < |points|
        invariant 0 <= k <= |points| && forall j :: 0 <= j < k ==> IsPoint(points[j], depth)
      {
        var fine := PointValid(points[k]);
        if !fine { return false; }
        k := k + 1;
      }
      ok := true;
    }

    method PointValid(point: nat) returns (ok: bool)
      ensures ok <==> IsPoint(point, depth)
    {
      var v := point;
      var j := 0;
      assert Pow(4, 0) == 1;
      while j < depth
        invariant 0 <= j <= depth && Pow(4, j) > 0 && v == point / Pow(4, j)
        invariant forall i: nat :: i < j ==> Digit(point, i) != 3
      {
        if v % 4 == 3 { assert Digit(point, j) == 3; return false; }
        DivideAgain(point, j);
        v := v / 4;
        j := j + 1;
      }
      ok := v == 0;
    }

    /** Every tree stands in front of the correction of level `iter`. */
    ghost predicate Holds(ls: seq<T.Level>, iter: nat)
      requires IsLevels(ls, numPoints)
      reads this
    {
      1 <= iter <= depth && |s| == |z| == numPoints && forall k :: 0 <= k < numPoints ==> Stands(s[k], z[k], ls[k], iter)
    }

    /** Level 1 of every tree is random, its parent tag the party index. */
    method Start(roots: seq<Triple>)
      requires Valid() && |roots| == numPoints
      modifies this`s, this`z
      ensures |s| == |z| == numPoints
      ensures forall k :: 0 <= k < numPoints ==> Stands(s[k], z[k], T.Level([Saturated(partyIdx == 1)], roots[k]), 1)
    {
      hide Saturated, Sums;
      var rows: seq<seq<seq<Block>>>, k := [], 0;
      while k < numPoints
        invariant 0 <= k <= numPoints && |rows| == k
        invariant forall j :: 0 <= j < k ==> Stands(rows[j], roots[j], T.Level([Saturated(partyIdx == 1)], roots[j]), 1)
      {
        SumsOfOne([Saturated(partyIdx == 1)], roots[k]);
        rows := rows + [[[Saturated(partyIdx == 1)], roots[k], []]];
        k := k + 1;
      }
      s, z := rows, roots;
    }

    // ---------------------------------------------------------- correctionWord

    /** The receiver's message: its digits, masked by its random choices. */
    method Correction(a: seq<nat>) returns (c: seq<(bool, bool)>)
      requires |a| == numPoints && (forall k :: 0 <= k < |a| ==> a[k] < 3) && otIdx + 2 * numPoints <= |choices|
      ensures |c| == numPoints
      ensures forall k :: 0 <= k < numPoints ==>
        c[k] == (Low(a[k]) != choices[otIdx + 2 * k], High(a[k]) != choices[otIdx + 2 * k + 1])
    {
      c := [];
      var k := 0;
      while k < numPoints
        invariant 0 <= k <= numPoints && |c| == k
        invariant forall j :: 0 <= j < k ==>
          c[j] == (Low(a[j]) != choices[otIdx + 2 * j], High(a[j]) != choices[otIdx + 2 * j + 1])
      {
        c := c + [(Low(a[k]) != choices[otIdx + 2 * k], High(a[k]) != choices[otIdx + 2 * k + 1])];
        k := k + 1;
      }
    }

    /** The sender's masks and its two rows to a tree; a draw's low bit is the party index. */
    method SendAll(a: seq<nat>, c: seq<(bool, bool)>, draws: seq<Block>) returns (mask: seq<Triple>, rows: seq<(Triple, Triple)>)
      requires |a| == |c| == |draws| == numPoints && (forall k :: 0 <= k < |a| ==> a[k] < 3) && otIdx + 2 * numPoints <= |sendOts|
      ensures |mask| == |rows| == numPoints
      ensures forall k :: 0 <= k < numPoints ==>
        IsSent(g, sendOts, otIdx + 2 * k, a[k], c[k], WithLsb(draws[k], partyIdx == 1), mask[k], rows[k])
    {
      hide Xor, WithLsb, IsSent;
      mask, rows := [], [];
      var k := 0;
      while k < numPoints
        invariant 0 <= k <= numPoints && |mask| == |rows| == k
        invariant forall j :: 0 <= j < k ==>
          IsSent(g, sendOts, otIdx + 2 * j, a[j], c[j], WithLsb(draws[j], partyIdx == 1), mask[j], rows[j])
      {
        var m, r := SendRows(otIdx + 2 * k, a[k], c[k], draws[k]);
        mask, rows := mask + [m], rows + [r];
        k := k + 1;
      }
    }

    method SendRows(i: nat, a: nat, c: (bool, bool), draw: Block) returns (mask: Triple, rows: (Triple, Triple))
      requires a < 3 && i + 2 <= |sendOts|
      ensures IsSent(g, sendOts, i, a, c, WithLsb(draw, partyIdx == 1), mask, rows)
    {
      hide Xor, WithLsb, KeyFor, Keys;
      var r := WithLsb(draw, partyIdx == 1);
      mask := AddAt(Keys(g, KeyFor(sendOts[i], sendOts[i + 1], 0, c)), a, r);
      var row1 := XorT(Keys(g, KeyFor(sendOts[i], sendOts[i + 1], 1, c)), mask);
      var row2 := XorT(Keys(g, KeyFor(sendOts[i], sendOts[i + 1], 2, c)), mask);
      rows := (AddAt(row1, (1 + a) % 3, r), AddAt(row2, (2 + a) % 3, r));
    }

    /** The shares of the correction words from the received rows. */
    method ShareAll(a: seq<nat>, mask: seq<Triple>, rows: seq<(Triple, Triple)>) returns (share: seq<Triple>)
      requires |a| == |mask| == |rows| == |z| == numPoints && (forall k :: 0 <= k < |a| ==> a[k] < 3)
      requires otIdx + 2 * numPoints <= |recvOts|
      ensures |share| == numPoints
      ensures forall k :: 0 <= k < numPoints ==>
        share[k] == SigmaShare(g, Xor(recvOts[otIdx + 2 * k], recvOts[otIdx + 2 * k + 1]), a[k], mask[k], z[k], rows[k])
    {
      hide Xor, SigmaShare;
      share := [];
      var k := 0;
      while k < numPoints
        invariant 0 <= k <= numPoints && |share| == k
        invariant forall j :: 0 <= j < k ==>
          share[j] == SigmaShare(g, Xor(recvOts[otIdx + 2 * j], recvOts[otIdx + 2 * j + 1]), a[j], mask[j], z[j], rows[j])
      {
        var one := ShareSigma(otIdx + 2 * k, a[k], mask[k], z[k], rows[k]);
        share := share + [one];
        k := k + 1;
      }
    }

    method ShareSigma(i: nat, a: nat, mask: Triple, sums: Triple, rows: (Triple, Triple)) returns (share: Triple)
      requires a < 3 && i + 2 <= |recvOts|
      ensures share == SigmaShare(g, Xor(recvOts[i], recvOts[i + 1]), a, mask, sums, rows)
    {
      hide Xor;
      share := XorT(XorT(Keys(g, Xor(recvOts[i], recvOts[i + 1])), mask), sums);
      if a != 0 { share := XorT(share, if a == 1 then rows.0 else rows.1); }
    }

    method OpenSigma(share: seq<Triple>, received: seq<Triple>)
      requires |share| == |received| == numPoints
      modifies this`sigma, this`otIdx
      ensures |sigma| == numPoints && forall k :: 0 <= k < numPoints ==> sigma[k] == XorT(share[k], received[k])
      ensures otIdx == old(otIdx) + 2 * numPoints
    {
      hide Xor;
      sigma := seq(numPoints, k requires 0 <= k < numPoints => XorT(share[k], received[k]));
      otIdx := otIdx + numPoints * 2;
    }

    // ---------------------------------------------------------------- expansion

    method Advance(ghost ls: seq<T.Level>, iter: nat)
      requires IsLevels(ls, numPoints) && Holds(ls, iter) && iter < depth && |sigma| == numPoints
      modifies this`s, this`z
      ensures |s| == |z| == numPoints
      ensures forall k :: 0 <= k < numPoints ==>
        Stands(s[k], z[k], Descend(g, Corrected(ls[k].raw, ls[k].tags, sigma[k])), iter + 1)
    {
      hide Xor, And, Lsb, Saturated, Corrected, Children, XorSum, Descend;
      var rows, all, k := s, z, 0;
      while k < numPoints
        invariant 0 <= k <= numPoints && |rows| == |all| == numPoints && s == old(s) && z == old(z)
        invariant forall j :: 0 <= j < k ==>
          Stands(rows[j], all[j], Descend(g, Corrected(ls[j].raw, ls[j].tags, sigma[j])), iter + 1)
        invariant forall j :: k <= j < numPoints ==> rows[j] == s[j] && all[j] == z[j]
      {
        assert Stands(s[k], z[k], ls[k], iter);
        var tags, children, sums := Expand(rows[k][(iter - 1) % 3], rows[k][iter % 3], sigma[k]);
        rows := rows[k := rows[k][iter % 3 := tags][(iter + 1) % 3 := children]];
        all := all[k := sums];
        k := k + 1;
      }
      s, z := rows, all;
    }

    method Expand(tp: seq<Block>, raw: seq<Block>, w: Triple) returns (sc: seq<Block>, sg: seq<Block>, sums: Triple)
      requires |raw| == 3 * |tp|
      ensures T.Level(sc, sg) == Descend(g, Corrected(raw, tp, w)) && |sg| == 3 * |sc|
      ensures sums == Sums(T.Level(sc, sg))
    {
      hide Xor, And, Lsb, Saturated, Corrected, Children, XorSum, AreChildren, Child;
      ghost var c := Corrected(raw, tp, w);
      sc, sg := raw, [];
      NoChildren(g, c);
      var z0, z1, z2 := ZERO, ZERO, ZERO;
      SumEmpty(Children(g, c));
      var i := 0;
      while i < |sc|
        invariant 0 <= i <= |sc| == |raw| == |c| && |sg| == 3 * i
        invariant forall k :: 0 <= k < i ==> sc[k] == TagBit(c[k])
        invariant forall k :: i <= k < |sc| ==> sc[k] == raw[k]
        invariant AreChildren(g, c, sg)
        invariant z0 == XorSum(Children(g, c), 3, 0, i) && z1 == XorSum(Children(g, c), 3, 1, i)
        invariant z2 == XorSum(Children(g, c), 3, 2, i)
      {
        var current := Xor(sc[i], And(tp[i / 3], w[i % 3]));
        CorrectedEntry(raw, tp, w, i);
        var w0, w1, w2 := Child(g, current, 0), Child(g, current, 1), Child(g, current, 2);
        ChildrenSnoc(g, c, sg, i);
        sg := sg + [w0, w1, w2];
        z0, z1, z2 := Xor(z0, w0), Xor(z1, w1), Xor(z2, w2);
        ChildrenSum(g, c, i);
        sc := sc[i := TagBit(current)];
        i := i + 1;
      }
      DescendIs(g, c, sc, sg);
      sums := [z0, z1, z2];
    }

    /** The last layer over the rows of the domain: leaf values, tags and their sums. */
    method LastLayer(ghost ls: seq<T.Level>) returns (leaves: seq<seq<Block>>, tags: seq<seq<bool>>, sum: seq<Block>)
      requires IsLevels(ls, numPoints) && Holds(ls, depth) && |sigma| == numPoints
      requires forall k :: 0 <= k < numPoints ==> |ls[k].raw| >= domain
      ensures |leaves| == |tags| == |sum| == numPoints
      ensures forall k :: 0 <= k < numPoints ==>
        IsLastLayer(g, Corrected(ls[k].raw, ls[k].tags, sigma[k]), domain, leaves[k], tags[k], sum[k])
    {
      hide Corrected, IsLastLayer;
      leaves, tags, sum := [], [], [];
      var k := 0;
      while k < numPoints
        invariant 0 <= k <= numPoints && |leaves| == |tags| == |sum| == k
        invariant forall j :: 0 <= j < k ==>
          IsLastLayer(g, Corrected(ls[j].raw, ls[j].tags, sigma[j]), domain, leaves[j], tags[j], sum[j])
      {
        assert Stands(s[k], z[k], ls[k], depth);
        var l, t, d := CorrectLeaves(s[k][(depth - 1) % 3], s[k][depth % 3], sigma[k]);
        leaves, tags, sum := leaves + [l], tags + [t], sum + [d];
        k := k + 1;
      }
    }

    method CorrectLeaves(tp: seq<Block>, sc: seq<Block>, w: Triple) returns (leaves: seq<Block>, tags: seq<bool>, sum: Block)
      requires |sc| == 3 * |tp| && |sc| >= domain
      ensures IsLastLayer(g, Corrected(sc, tp, w), domain, leaves, tags, sum)
    {
      hide Xor, And, Lsb, Saturated, Corrected, XorSum;
      ghost var c := Corrected(sc, tp, w);
      leaves, tags, sum := [], [], ZERO;
      LeafSumEmpty(leaves);
      var i := 0;
      while i < domain
        invariant 0 <= i <= domain && |leaves| == |tags| == i && sum == XorSum(leaves, 1, 0, i)
        invariant forall k :: 0 <= k < i ==> leaves[k] == Leaf(g, c[k]) && tags[k] == Lsb(c[k])
      {
        var temp := Xor(sc[i], And(tp[i / 3], w[i % 3]));
        CorrectedEntry(sc, tp, w, i);
        tags := tags + [Lsb(temp)];
        LeafSumSnoc(leaves, Leaf(g, temp));
        leaves := leaves + [Leaf(g, temp)];
        sum := Xor(sum, Leaf(g, temp));
        i := i + 1;
      }
    }

    /** The output calls, one pair for each tree and each point of the domain. */
    method Output(leaves: seq<seq<Block>>, tags: seq<seq<bool>>, gamma: seq<Block>) returns (out: seq<seq<(Block, bool)>>)
      requires |leaves| == |tags| == numPoints && (gamma == [] || |gamma| == numPoints)
      requires forall k :: 0 <= k < numPoints ==> |leaves[k]| == |tags[k]|
      ensures |out| == numPoints
      ensures forall k :: 0 <= k < numPoints ==> IsOutput(out[k], leaves[k], tags[k], Entry(gamma, k))
    {
      hide IsOutput;
      out := [];
      var k := 0;
      while k < numPoints
        invariant 0 <= k <= numPoints && |out| == k
        invariant forall j :: 0 <= j < k ==> IsOutput(out[j], leaves[j], tags[j], Entry(gamma, j))
      {
        var o := OutputTree(leaves[k], tags[k], Entry(gamma, k));
        out := out + [o];
        k := k + 1;
      }
    }

    method OutputTree(leaves: seq<Block>, tags: seq<bool>, gamma: Option<Block>) returns (out: seq<(Block, bool)>)
      requires |leaves| == |tags|
      ensures IsOutput(out, leaves, tags, gamma)
    {
      out := [];
      var i := 0;
      while i < |leaves|
        invariant 0 <= i <= |leaves| && |out| == i && forall k :: 0 <= k < i ==>
          out[k] == (if gamma.Some? then Xor(And(gamma.value, Saturated(tags[k])), leaves[k]) else leaves[k], tags[k])
      {
        out := out + [(if gamma.Some? then Xor(And(gamma.value, Saturated(tags[i])), leaves[i]) else leaves[i], tags[i])];
        i := i + 1;
      }
    }
  }

  /** Entry k of a list that may be missing as a whole. */
  function Entry(s: seq<Block>, k: nat): Option<Block>
    requires s == [] || k < |s|
  {
    if s == [] then None else Some(s[k])
  }

  /** The leaf values and tags of one tree below the domain, and the sum of the values. */
  ghost predicate IsLastLayer(g: Prg, c: seq<Block>, domain: nat, leaves: seq<Block>, tags: seq<bool>, sum: Block)
  {
    && |leaves| == |tags| == domain <= |c| && sum == XorSum(leaves, 1, 0, domain)
    && forall i :: 0 <= i < domain ==> leaves[i] == Leaf(g, c[i]) && tags[i] == Lsb(c[i])
  }

  /** The output calls of one tree. */
  ghost predicate IsOutput(out: seq<(Block, bool)>, leaves: seq<Block>, tags: seq<bool>, gamma: Option<Block>)
  {
    && |out| == |leaves| == |tags|
    && forall i :: 0 <= i < |out| ==>
         out[i] == (if gamma.Some? then Xor(And(gamma.value, Saturated(tags[i])), leaves[i]) else leaves[i], tags[i])
  }

  /** What a sender computes for one tree from the transfers at `i` and `i + 1`. */
  ghost predicate IsSent(g: Prg, send: seq<(Block, Block)>, i: nat, a: nat, c: (bool, bool), r: Block, mask: Triple, rows: (Triple, Triple))
    requires a < 3 && i + 2 <= |send|
  {
    && mask == Mask(g, send[i], send[i + 1], a, c, r)
    && rows == (Row(g, send[i], send[i + 1], a, c, r, 1), Row(g, send[i], send[i + 1], a, c, r, 2))
  }

  /** init: a party index above one, an empty domain and an empty list of points are refused. */
  method NewParty(g: Prg, partyIdx: nat, domain: nat, numPoints: nat) returns (p: Party?)
    ensures p == null <==> partyIdx > 1 || domain == 0 || numPoints == 0
    ensures p != null ==> fresh(p) && p.Valid() && p.g == g && p.partyIdx == partyIdx && p.domain == domain && p.otIdx == 0
    ensures p != null ==> p.numPoints == numPoints
  {
    if partyIdx > 1 || domain == 0 || numPoints == 0 { return null; }
    p := new Party(g, partyIdx, domain, numPoints);
  }

  ghost predicate IsPoint(point: nat, depth: nat)
  {
    && (forall i: nat :: i < depth ==> Digit(point, i) != 3)
    && Pow(4, depth) > 0 && point / Pow(4, depth) == 0
  }

  lemma DivideAgain(point: nat, j: nat)
    ensures Pow(4, j) > 0 && Pow(4, j + 1) > 0 && point / Pow(4, j) / 4 == point / Pow(4, j + 1)
  {
    PowPositive(4, j);
    assert Pow(4, j + 1) == 4 * Pow(4, j);
    DivideTwice(point, Pow(4, j), 4);
  }

  function Low(a: nat): bool { a % 2 == 1 }

  function High(a: nat): bool { a / 2 % 2 == 1 }

  /** The sender's key for the receiver's digit `j`, given the receiver's correction bits. */
  function KeyFor(keys0: (Block, Block), keys1: (Block, Block), j: nat, c: (bool, bool)): Block
  {
    Xor(if Low(j) != c.0 then keys0.1 else keys0.0, if High(j) != c.1 then keys1.1 else keys1.0)
  }

  function Mask(g: Prg, keys0: (Block, Block), keys1: (Block, Block), a: nat, c: (bool, bool), r: Block): Triple
    requires a < 3
  {
    AddAt(Keys(g, KeyFor(keys0, keys1, 0, c)), a, r)
  }

  /** What a receiver with digit `j` is sent: its own key's expansion, the mask, and `r` at the summed digit. */
  function Row(g: Prg, keys0: (Block, Block), keys1: (Block, Block), a: nat, c: (bool, bool), r: Block, j: nat): Triple
    requires a < 3
  {
    AddAt(XorT(Keys(g, KeyFor(keys0, keys1, j, c)), Mask(g, keys0, keys1, a, c, r)), (j + a) % 3, r)
  }

  function SigmaShare(g: Prg, k: Block, a: nat, mask: Triple, z: Triple, rows: (Triple, Triple)): Triple
  {
    var share := XorT(XorT(Keys(g, k), mask), z);
    if a == 0 then share else XorT(share, if a == 1 then rows.0 else rows.1)
  }

  lemma SumsOfOne(tags: seq<Block>, root: Triple)
    requires |tags| == 1
    ensures Sums(T.Level(tags, root)) == root
  {
    hide Xor;
    assert XorSum(root, 3, 0, 0) == ZERO == XorSum(root, 3, 1, 0) == XorSum(root, 3, 2, 0);
    XorZero(root[0], ZERO);
    XorZero(root[1], ZERO);
    XorZero(root[2], ZERO);
    assert XorSum(root, 3, 0, 1) == root[0] && XorSum(root, 3, 1, 1) == root[1] && XorSum(root, 3, 2, 1) == root[2];
  }

  lemma CorrectedEntry(raw: seq<Block>, tags: seq<Block>, w: Triple, i: nat)
    requires |raw| == 3 * |tags| && i < |raw|
    ensures Corrected(raw, tags, w)[i] == Xor(raw[i], And(tags[i / 3], w[i % 3]))
  {}

  lemma SumEmpty(c: seq<Block>)
    ensures XorSum(c, 3, 0, 0) == XorSum(c, 3, 1, 0) == XorSum(c, 3, 2, 0) == ZERO
  {}

  lemma ChildrenSum(g: Prg, c: seq<Block>, i: nat)
    requires i < |c|
    ensures 3 * i + 3 <= |Children(g, c)|
    ensures XorSum(Children(g, c), 3, 0, i + 1) == Xor(XorSum(Children(g, c), 3, 0, i), Child(g, c[i], 0))
    ensures XorSum(Children(g, c), 3, 1, i + 1) == Xor(XorSum(Children(g, c), 3, 1, i), Child(g, c[i], 1))
    ensures XorSum(Children(g, c), 3, 2, i + 1) == Xor(XorSum(Children(g, c), 3, 2, i), Child(g, c[i], 2))
  {
    hide Xor, Child, XorSum, Children;
    var s := Children(g, c);
    ChildrenAt(g, c, i);
    SumNext(s, 0, i);
    SumNext(s, 1, i);
    SumNext(s, 2, i);
  }

  lemma ChildrenAt(g: Prg, c: seq<Block>, i: nat)
    requires i < |c|
    ensures var s := Children(g, c);
      s[i * 3] == Child(g, c[i], 0) && s[i * 3 + 1] == Child(g, c[i], 1) && s[i * 3 + 2] == Child(g, c[i], 2)
  {
    hide Child;
  }

  lemma SumNext(s: seq<Block>, j: nat, i: nat)
    requires j < 3 && i * 3 + 3 <= |s|
    ensures XorSum(s, 3, j, i + 1) == Xor(XorSum(s, 3, j, i), s[i * 3 + j])
  {}

  /** The children computed so far. */
  ghost predicate AreChildren(g: Prg, c: seq<Block>, sg: seq<Block>)
  {
    |sg| <= 3 * |c| && forall k :: 0 <= k < |sg| ==> sg[k] == Child(g, c[k / 3], k % 3)
  }

  lemma NoChildren(g: Prg, c: seq<Block>)
    ensures AreChildren(g, c, [])
  {}

  lemma ChildrenSnoc(g: Prg, c: seq<Block>, sg: seq<Block>, i: nat)
    requires i < |c| && |sg| == 3 * i && AreChildren(g, c, sg)
    ensures AreChildren(g, c, sg + [Child(g, c[i], 0), Child(g, c[i], 1), Child(g, c[i], 2)])
  {
    hide Child;
  }

  lemma DescendIs(g: Prg, c: seq<Block>, tags: seq<Block>, children: seq<Block>)
    requires |tags| == |c| && |children| == 3 * |c| && AreChildren(g, c, children)
    requires forall k :: 0 <= k < |c| ==> tags[k] == TagBit(c[k])
    ensures Descend(g, c) == T.Level(tags, children) && children == Children(g, c)
  {
    hide Lsb, Saturated, Child;
    assert tags == T.Tags(c) && children == Children(g, c);
  }

  lemma LeafSumEmpty(s: seq<Block>)
    ensures XorSum(s, 1, 0, 0) == ZERO
  {}

  lemma LeafSumSnoc(s: seq<Block>, b: Block)
    ensures XorSum(s + [b], 1, 0, |s| + 1) == Xor(XorSum(s, 1, 0, |s|), b)
  {
    hide Xor;
    LeafSumPrefix(s, b, |s|);
  }

  lemma {:induction false} LeafSumPrefix(s: seq<Block>, b: Block, n: nat)
    requires n <= |s|
    ensures XorSum(s + [b], 1, 0, n) == XorSum(s, 1, 0, n)
  {
    hide Xor;
    if n > 0 { LeafSumPrefix(s, b, n - 1); }
  }

  // ------------------------------------------------------- the two parties

  ghost predicate Parties(p0: Party, p1: Party)
    reads p0, p1
  {
    && p0 != p1 && p0.Valid() && p1.Valid() && p0.partyIdx == 0 && p1.partyIdx == 1
    && p0.g == p1.g && p0.domain == p1.domain && p0.numPoints == p1.numPoints && p0.otIdx == p1.otIdx
    && M.Transferred(p0.recvOts, p0.choices, p1.sendOts) && M.Transferred(p1.recvOts, p1.choices, p0.sendOts)
  }

  /** The two transfers hand the receiver exactly the sender's key for its digit. */
  lemma TransferredKey(keys0: (Block, Block), keys1: (Block, Block), c0: bool, c1: bool, r0: Block, r1: Block, a: nat)
    requires a < 3 && r0 == (if c0 then keys0.1 else keys0.0) && r1 == (if c1 then keys1.1 else keys1.0)
    ensures KeyFor(keys0, keys1, a, (Low(a) != c0, High(a) != c1)) == Xor(r0, r1)
  {
    hide Xor;
  }

  /** One bit of a share with digit 0, and with digit 1 or 2. */
  lemma ShareBlock(e: Block, e0: Block, own: Block, z: Block, r: Block, atMask: bool, at: bool)
    ensures var m := if atMask then Xor(e0, r) else e0;
      var row := if at then Xor(Xor(e, m), r) else Xor(e, m);
      Xor(Xor(Xor(e, own), z), row) == if at then Xor(Xor(Xor(own, m), z), r) else Xor(Xor(own, m), z)
    ensures Xor(Xor(e, own), z) == if atMask then Xor(Xor(Xor(own, Xor(e, r)), z), r) else Xor(Xor(own, e), z)
  {
    var m := if atMask then Xor(e0, r) else e0;
    var row := if at then Xor(Xor(e, m), r) else Xor(e, m);
    assert Xor(Xor(Xor(e, own), z), row) == if at then Xor(Xor(Xor(own, m), z), r) else Xor(Xor(own, m), z);
    assert Xor(Xor(e, own), z) == if atMask then Xor(Xor(Xor(own, Xor(e, r)), z), r) else Xor(Xor(own, e), z);
  }

  /** A share of the correction: both masks, the party's sums, and the other's draw at the summed digit. */
  lemma ShareMeans(g: Prg, keys0: (Block, Block), keys1: (Block, Block), c: (bool, bool), k: Block, own: Triple, z: Triple,
                   a: nat, b: nat, r: Block)
    requires a < 3 && b < 3 && k == KeyFor(keys0, keys1, a, c)
    ensures SigmaShare(g, k, a, own, z, (Row(g, keys0, keys1, b, c, r, 1), Row(g, keys0, keys1, b, c, r, 2)))
         == AddAt(XorT(XorT(own, Mask(g, keys0, keys1, b, c, r)), z), (a + b) % 3, r)
  {
    hide Xor, KeyFor, Keys;
    var e, e0 := Keys(g, k), Keys(g, KeyFor(keys0, keys1, 0, c));
    var at := (a + b) % 3;
    ShareBlock(e[0], e0[0], own[0], z[0], r, b == 0, at == 0);
    ShareBlock(e[1], e0[1], own[1], z[1], r, b == 1, at == 1);
    ShareBlock(e[2], e0[2], own[2], z[2], r, b == 2, at == 2);
    var l := SigmaShare(g, k, a, own, z, (Row(g, keys0, keys1, b, c, r, 1), Row(g, keys0, keys1, b, c, r, 2)));
    var m := AddAt(XorT(XorT(own, Mask(g, keys0, keys1, b, c, r)), z), at, r);
    assert l[0] == m[0] && l[1] == m[1] && l[2] == m[2];
  }

  /** The share that a party computes from its transfers and the rows it is sent. */
  lemma ReceivedShare(g: Prg, recv: seq<Block>, choices: seq<bool>, send: seq<(Block, Block)>, i: nat, a: nat, b: nat,
                      own: Triple, z: Triple, r: Block)
    requires M.Transferred(recv, choices, send) && i + 2 <= |recv| && a < 3 && b < 3
    ensures var c := (Low(a) != choices[i], High(a) != choices[i + 1]);
      SigmaShare(g, Xor(recv[i], recv[i + 1]), a, own, z,
                 (Row(g, send[i], send[i + 1], b, c, r, 1), Row(g, send[i], send[i + 1], b, c, r, 2)))
        == AddAt(XorT(XorT(own, Mask(g, send[i], send[i + 1], b, c, r)), z), (a + b) % 3, r)
  {
    hide Xor, KeyFor, Keys, Mask, Row, SigmaShare, AddAt, XorT, Low, High;
    TransferredKey(send[i], send[i + 1], choices[i], choices[i + 1], recv[i], recv[i + 1], a);
    ShareMeans(g, send[i], send[i + 1], (Low(a) != choices[i], High(a) != choices[i + 1]),
               Xor(recv[i], recv[i + 1]), own, z, a, b, r);
  }

  /** The opened word is the summed children's difference, shifted at the summed digit by both draws. */
  lemma OpenedReveals(m0: Triple, m1: Triple, z0: Triple, z1: Triple, d: nat, draw0: Block, draw1: Block)
    requires d < 3
    ensures var share0 := AddAt(XorT(XorT(m0, m1), z0), d, WithLsb(draw1, true));
      var share1 := AddAt(XorT(XorT(m1, m0), z1), d, WithLsb(draw0, false));
      && XorT(share0, share1) == XorT(share1, share0) && IsWord(XorT(share0, share1), z0, z1, d, draw0, draw1)
  {
    hide Xor, Lsb, WithLsb;
    var r0, r1 := WithLsb(draw0, false), WithLsb(draw1, true);
    var share0 := AddAt(XorT(XorT(m0, m1), z0), d, r1);
    var share1 := AddAt(XorT(XorT(m1, m0), z1), d, r0);
    var sigma := XorT(share0, share1);
    OpenedBlock(m0[0], m1[0], z0[0], z1[0], r0, r1);
    OpenedBlock(m0[1], m1[1], z0[1], z1[1], r0, r1);
    OpenedBlock(m0[2], m1[2], z0[2], z1[2], r0, r1);
    XorCommutes(share0[0], share1[0]); XorCommutes(share0[1], share1[1]); XorCommutes(share0[2], share1[2]);
    assert sigma == XorT(share1, share0);
    forall j | 0 <= j < 3 ensures sigma[j] == Xor(Xor(z0[j], z1[j]), if j == d then Xor(r0, r1) else ZERO) {
      XorZero(Xor(z0[j], z1[j]), ZERO);
      assert j == 0 || j == 1 || j == 2;
    }
  }

  lemma OpenedBlock(m0: Block, m1: Block, z0: Block, z1: Block, r0: Block, r1: Block)
    ensures Xor(Xor(Xor(m0, m1), z0), Xor(Xor(m1, m0), z1)) == Xor(z0, z1)
    ensures Xor(Xor(Xor(Xor(m0, m1), z0), r1), Xor(Xor(Xor(m1, m0), z1), r0)) == Xor(Xor(z0, z1), Xor(r0, r1))
  {
    assert Xor(Xor(Xor(m0, m1), z0), Xor(Xor(m1, m0), z1)) == Xor(z0, z1);
    assert Xor(Xor(Xor(Xor(m0, m1), z0), r1), Xor(Xor(Xor(m1, m0), z1), r0)) == Xor(Xor(z0, z1), Xor(r0, r1));
  }

  /** One tree of a correction round. */
  lemma RoundOpens(g: Prg, send0: seq<(Block, Block)>, recv0: seq<Block>, choices0: seq<bool>,
                   send1: seq<(Block, Block)>, recv1: seq<Block>, choices1: seq<bool>, i: nat, a0: nat, a1: nat,
                   draw0: Block, draw1: Block, z0: Triple, z1: Triple, mask0: Triple, mask1: Triple,
                   rows0: (Triple, Triple), rows1: (Triple, Triple))
    requires M.Transferred(recv0, choices0, send1) && M.Transferred(recv1, choices1, send0) && a0 < 3 && a1 < 3
    requires i + 2 <= |recv0| && i + 2 <= |recv1| && |choices0| == |recv0| && |choices1| == |recv1|
    requires |send0| == |recv1| && |send1| == |recv0|
    requires IsSent(g, send0, i, a0, (Low(a1) != choices1[i], High(a1) != choices1[i + 1]), WithLsb(draw0, false), mask0, rows0)
    requires IsSent(g, send1, i, a1, (Low(a0) != choices0[i], High(a0) != choices0[i + 1]), WithLsb(draw1, true), mask1, rows1)
    ensures var share0 := SigmaShare(g, Xor(recv0[i], recv0[i + 1]), a0, mask0, z0, rows1);
      var share1 := SigmaShare(g, Xor(recv1[i], recv1[i + 1]), a1, mask1, z1, rows0);
      && XorT(share0, share1) == XorT(share1, share0) && IsWord(XorT(share0, share1), z0, z1, (a0 + a1) % 3, draw0, draw1)
  {
    hide Xor, Lsb, WithLsb, KeyFor, Keys, Mask, Row, SigmaShare, AddAt, XorT, IsWord, Low, High, M.Transferred;
    ReceivedShare(g, recv0, choices0, send1, i, a0, a1, mask0, z0, WithLsb(draw1, true));
    ReceivedShare(g, recv1, choices1, send0, i, a1, a0, mask1, z1, WithLsb(draw0, false));
    assert (a1 + a0) % 3 == (a0 + a1) % 3;
    OpenedReveals(mask0, mask1, z0, z1, (a0 + a1) % 3, draw0, draw1);
  }

  /**
   One correction round: for any digit shares and draws both parties end with the same word for every tree, the
   difference of the sums off the summed digit, and shifted by both draws there. Tree k uses the transfers at
   otIdx + 2 k and otIdx + 2 k + 1.
   */
  method CorrectionRound(p0: Party, p1: Party, a0: seq<nat>, a1: seq<nat>, draws0: seq<Block>, draws1: seq<Block>)
    requires Parties(p0, p1) && |a0| == |a1| == |draws0| == |draws1| == |p0.z| == |p1.z| == p0.numPoints
    requires forall k :: 0 <= k < p0.numPoints ==> a0[k] < 3 && a1[k] < 3
    requires p0.otIdx + 2 * p0.numPoints <= |p0.choices| && p0.otIdx + 2 * p0.numPoints <= |p1.choices|
    requires |p0.recvOts| == |p0.choices| == |p1.sendOts| && |p1.recvOts| == |p1.choices| == |p0.sendOts|
    modifies p0`sigma, p0`otIdx, p1`sigma, p1`otIdx
    ensures Parties(p0, p1) && p0.otIdx == old(p0.otIdx) + 2 * p0.numPoints
    ensures p0.sigma == p1.sigma && |p0.sigma| == p0.numPoints
    ensures forall k :: 0 <= k < p0.numPoints ==>
      IsWord(p0.sigma[k], p0.z[k], p1.z[k], (a0[k] + a1[k]) % 3, draws0[k], draws1[k])
  {
    hide Xor, Lsb, WithLsb, IsSent, SigmaShare, XorT, IsWord, Low, High, M.Transferred, Log3Ceil;
    ghost var i := p0.otIdx;
    var c0 := p0.Correction(a0);
    var c1 := p1.Correction(a1);
    var mask0, rows0 := p0.SendAll(a0, c1, draws0);
    var mask1, rows1 := p1.SendAll(a1, c0, draws1);
    var share0 := p0.ShareAll(a0, mask0, rows1);
    var share1 := p1.ShareAll(a1, mask1, rows0);
    forall k | 0 <= k < p0.numPoints
      ensures XorT(share0[k], share1[k]) == XorT(share1[k], share0[k])
      ensures IsWord(XorT(share0[k], share1[k]), p0.z[k], p1.z[k], (a0[k] + a1[k]) % 3, draws0[k], draws1[k])
    {
      RoundOpens(p0.g, p0.sendOts, p0.recvOts, p0.choices, p1.sendOts, p1.recvOts, p1.choices, i + 2 * k, a0[k], a1[k],
                 draws0[k], draws1[k], p0.z[k], p1.z[k], mask0[k], mask1[k], rows0[k], rows1[k]);
    }
    p0.OpenSigma(share0, share1);
    p1.OpenSigma(share1, share0);
  }

  lemma DrawnLsb(a: Block, b: Block)
    ensures !Lsb(WithLsb(a, false)) && Lsb(WithLsb(b, true))
  {}
}
