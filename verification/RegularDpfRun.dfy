/**
 RegularDpf.h: the two parties together, on a list of points. Interactive expansion, interactive key
 generation and the dealer's key generation all yield shares of the same point functions; the trees share
 one seed stream to a party, one multiplication to a level and one pool of transfers.
 */
module RegularDpfRun {
  import opened Numbers
  import opened Wrappers
  import opened Blocks
  import opened DpfTree
  import opened RegularDpf
  import M = DpfMult

  /** The two points are XOR shares of alpha, as far as the depth reads them. */
  ghost predicate SharesPoint(alpha: nat, point0: nat, point1: nat, depth: nat)
  {
    forall i: nat :: i < depth ==> Bit(alpha, i) == (Bit(point0, i) != Bit(point1, i))
  }

  /** The shared points are the listed ones, all inside the domain. */
  ghost predicate SharesPoints(alphas: seq<nat>, points0: seq<nat>, points1: seq<nat>, domain: nat)
  {
    && |alphas| == |points0| == |points1|
    && forall k :: 0 <= k < |alphas| ==> alphas[k] < domain && SharesPoint(alphas[k], points0[k], points1[k], Log2Ceil(domain))
  }

  ghost predicate Parties(p0: Party, p1: Party)
    reads p0.mult, p1.mult
  {
    && p0 != p1 && p0.mult != p1.mult && p0.Valid() && p1.Valid() && p0.partyIdx == 0 && p1.partyIdx == 1
    && p0.g == p1.g && p0.domain == p1.domain && p0.numPoints == p1.numPoints && M.Paired(p0.mult, p1.mult)
  }

  // ------------------------------------------------------- one correction word

  lemma OpenedBits(b0: bool, b1: bool, u0: bool, u1: bool, v0: bool, v1: bool, q0: bool, q1: bool, low: bool)
    requires (q0 != q1) == (if b0 == b1 then !low && ((u0 != v0) != (u1 != v1)) else false)
    ensures var one0, one1 := low && b0, low && !b1;
      (((q1 != u1) != one1) != ((q0 != u0) != one0))
        == (if low then (u0 != u1) != (b0 == b1) else if b0 != b1 then u0 != u1 else v0 != v1)
  {}

  /** Opening the two messages gives both parties the word for the summed children. */
  lemma OpenedWord(b0: bool, b1: bool, u0: Block, v0: Block, u1: Block, v1: Block, q0: Block, q1: Block)
    requires Xor(q0, q1) == if b0 != (b1 != true) then Xor(WithLsb(Xor(u0, v0), false), WithLsb(Xor(u1, v1), false)) else ZERO
    ensures var share0, share1 := Xor(Xor(q0, u0), OneBit(b0)), Xor(Xor(q1, u1), OneBit(!b1));
      var w := WordFor(Xor(u0, u1), Xor(v0, v1), b0 != b1);
      && Xor(share1, share0) == Xor(share0, share1) == w.cw
      && ((Lsb(v1) != b1) != (Lsb(v0) != b0)) == ((Lsb(v0) != b0) != (Lsb(v1) != b1)) == w.bit
  {
    var share0, share1 := Xor(Xor(q0, u0), OneBit(b0)), Xor(Xor(q1, u1), OneBit(!b1));
    var w := WordFor(Xor(u0, u1), Xor(v0, v1), b0 != b1);
    forall i | 0 <= i < WIDTH ensures Xor(share1, share0)[i] == w.cw[i] {
      assert Xor(q0, q1)[i] == (q0[i] != q1[i]);
      OpenedBits(b0, b1, u0[i], u1[i], v0[i], v1[i], q0[i], q1[i], i == 0);
    }
    assert Xor(share1, share0) == w.cw;
    XorCommutes(share0, share1);
    LsbXor(v0, v1);
  }

  /** The multiplication and the opening of one level: one product to a tree, all from the shared pool. */
  method ShareWords(p0: Party, p1: Party, points0: seq<nat>, points1: seq<nat>, iter: nat) returns (ok: bool, w: seq<Word>)
    requires Parties(p0, p1) && p0.HasSums() && p1.HasSums() && 1 <= iter <= p0.depth
    requires |points0| == |points1| == p0.numPoints
    modifies p0`sigma, p1`sigma, p0.mult`otIdx, p1.mult`otIdx
    ensures ok <==> old(|p0.mult.choiceBits| > 0 && p0.mult.otIdx + p0.numPoints <= p0.mult.totalMults)
    ensures ok ==> Parties(p0, p1) && p0.mult.otIdx == old(p0.mult.otIdx) + p0.numPoints
    ensures ok ==> |w| == p0.numPoints && p0.sigma == p1.sigma == w
    ensures ok ==> forall k :: 0 <= k < p0.numPoints ==>
      w[k] == WordFor(Xor(p0.z[k][0], p1.z[k][0]), Xor(p0.z[k][1], p1.z[k][1]),
                      Bit(points0[k], p0.depth - iter) != Bit(points1[k], p0.depth - iter))
  {
    hide Xor, Lsb, WithLsb, OneBit, Bit, WordFor, Log2Ceil, M.Transferred;
    var x0, diff0 := p0.Masked(points0, iter);
    var x1, diff1 := p1.Masked(points1, iter);
    var r := M.Multiply(p0.mult, p1.mult, x0, diff0, x1, diff1);
    if r.Err? { return false, []; }
    var q0, q1 := r.value.0, r.value.1;
    var share0, bit0 := p0.SigmaMessages(points0, iter, q0);
    var share1, bit1 := p1.SigmaMessages(points1, iter, q1);
    p0.OpenSigma(points0, iter, share0, share1, bit1);
    p1.OpenSigma(points1, iter, share1, share0, bit0);
    forall k | 0 <= k < p0.numPoints
      ensures p0.sigma[k] == p1.sigma[k]
        == WordFor(Xor(p0.z[k][0], p1.z[k][0]), Xor(p0.z[k][1], p1.z[k][1]),
                   Bit(points0[k], p0.depth - iter) != Bit(points1[k], p0.depth - iter))
    {
      OpenedWord(Bit(points0[k], p0.depth - iter), Bit(points1[k], p0.depth - iter),
                 p0.z[k][0], p0.z[k][1], p1.z[k][0], p1.z[k][1], q0[k], q1[k]);
    }
    ok, w := true, p0.sigma;
  }

  /** Level sums hide everything but the path: the interactive word is the dealer's. */
  lemma SummedWord(g: Prg, root0: (Block, Block), root1: (Block, Block), alpha: nat, depth: nat, iter: nat,
                   l0: Level, l1: Level)
    requires 1 <= iter <= depth && alpha < Pow(2, depth)
    requires l0 == LevelAt(g, 0, root0, PathWords(g, root0, root1, alpha, depth, iter - 1), iter)
    requires l1 == LevelAt(g, 1, root1, PathWords(g, root0, root1, alpha, depth, iter - 1), iter)
    ensures |l0.tags| == |l1.tags|
    ensures PathWords(g, root0, root1, alpha, depth, iter) == PathWords(g, root0, root1, alpha, depth, iter - 1)
      + [WordFor(Xor(XorSum(l0.raw, 2, 0, |l0.tags|), XorSum(l1.raw, 2, 0, |l1.tags|)),
                 Xor(XorSum(l0.raw, 2, 1, |l0.tags|), XorSum(l1.raw, 2, 1, |l1.tags|)), Bit(alpha, depth - iter))]
  {
    hide Xor, XorSum, WordFor, Bit, LevelAt, Prefix, PathAt;
    TreesOnPath(g, root0, root1, alpha, depth, iter);
    var a := Prefix(alpha, depth, iter - 1);
    SumDifference(l0.raw, l1.raw, 0, a, |l0.tags|);
    SumDifference(l0.raw, l1.raw, 1, a, |l0.tags|);
  }

  // ------------------------------------------------------------- all trees

  /** One tree of the list: what the two parties draw for it, and its point. */
  datatype Tree = Tree(root0: (Block, Block), root1: (Block, Block), alpha: nat)

  function TreeAt(g: Prg, seed0: Block, seed1: Block, alphas: seq<nat>, k: nat): Tree
    requires k < |alphas|
  {
    Tree(RootOf(g, seed0, k), RootOf(g, seed1, k), alphas[k])
  }

  function WordsOf(g: Prg, t: Tree, depth: nat, n: nat): (w: seq<Word>)
    requires n <= depth
    ensures |w| == n
  {
    PathWords(g, t.root0, t.root1, t.alpha, depth, n)
  }

  /** The dealer's words of the first `n` levels, tree by tree. */
  function AllWords(g: Prg, seed0: Block, seed1: Block, alphas: seq<nat>, depth: nat, n: nat): (w: seq<seq<Word>>)
    requires n <= depth
    ensures |w| == |alphas| && forall k :: 0 <= k < |w| ==> |w[k]| == n
    ensures forall k :: 0 <= k < |w| ==> w[k] == WordsOf(g, TreeAt(g, seed0, seed1, alphas, k), depth, n)
  {
    seq(|alphas|, k requires 0 <= k < |alphas| => WordsOf(g, TreeAt(g, seed0, seed1, alphas, k), depth, n))
  }

  function Appended(words: seq<seq<Word>>, w: seq<Word>): (r: seq<seq<Word>>)
    requires |words| == |w|
    ensures |r| == |words| && forall k :: 0 <= k < |words| ==> r[k] == words[k] + [w[k]]
  {
    seq(|words|, k requires 0 <= k < |words| => words[k] + [w[k]])
  }

  /** What a party holds of all trees in front of level `iter`. */
  ghost function Levels(g: Prg, party: nat, seed: Block, words: seq<seq<Word>>, n: nat, iter: nat): (ls: seq<Level>)
    requires |words| == n && iter >= 1 && forall k :: 0 <= k < n ==> iter <= |words[k]| + 1
    ensures IsLevels(ls, n)
    ensures forall k :: 0 <= k < n ==> ls[k] == LevelAt(g, party, RootOf(g, seed, k), words[k], iter)
  {
    KeyLevels(g, party, Key(seed, words, []), n, iter)
  }

  /** Both parties stand in front of level `iter` of every tree, given the words of the levels above. */
  ghost predicate AtLevel(p0: Party, p1: Party, seed0: Block, seed1: Block, words: seq<seq<Word>>, iter: nat)
    requires |words| == p0.numPoints == p1.numPoints && iter >= 1
    requires forall k :: 0 <= k < |words| ==> iter <= |words[k]| + 1
    reads p0, p1
  {
    && p0.Holds(Levels(p0.g, 0, seed0, words, p0.numPoints, iter), iter)
    && p1.Holds(Levels(p0.g, 1, seed1, words, p0.numPoints, iter), iter)
  }

  /** The correction words of one level become known to both, and are the dealer's. */
  method OpenLevel(p0: Party, p1: Party, points0: seq<nat>, points1: seq<nat>, seed0: Block, seed1: Block,
                   ghost alphas: seq<nat>, words: seq<seq<Word>>, iter: nat)
    returns (ok: bool, w: seq<Word>)
    requires Parties(p0, p1) && |alphas| == p0.numPoints && SharesPoints(alphas, points0, points1, p0.domain)
    requires 1 <= iter <= p0.depth && words == AllWords(p0.g, seed0, seed1, alphas, p0.depth, iter - 1)
    requires AtLevel(p0, p1, seed0, seed1, words, iter)
    modifies p0`sigma, p1`sigma, p0.mult`otIdx, p1.mult`otIdx
    ensures ok <==> old(|p0.mult.choiceBits| > 0 && p0.mult.otIdx + p0.numPoints <= p0.mult.totalMults)
    ensures ok ==> Parties(p0, p1) && p0.mult.otIdx == old(p0.mult.otIdx) + p0.numPoints
    ensures ok ==> |w| == p0.numPoints && p0.sigma == p1.sigma == w
    ensures ok ==> Appended(words, w) == AllWords(p0.g, seed0, seed1, alphas, p0.depth, iter)
    ensures ok ==> AtLevel(p0, p1, seed0, seed1, Appended(words, w), iter)
  {
    hide Xor, Lsb, WithLsb, Bit, WordFor, Log2Ceil, LevelAt, XorSum, PathWords, M.Transferred;
    var n, depth := p0.numPoints, p0.depth;
    ghost var l0, l1 := Levels(p0.g, 0, seed0, words, n, iter), Levels(p0.g, 1, seed1, words, n, iter);
    HoldsSums(p0, l0, iter);
    HoldsSums(p1, l1, iter);
    ok, w := ShareWords(p0, p1, points0, points1, iter);
    if ok {
      forall k | 0 <= k < n
        ensures Appended(words, w)[k] == WordsOf(p0.g, TreeAt(p0.g, seed0, seed1, alphas, k), depth, iter)
      {
        var t := TreeAt(p0.g, seed0, seed1, alphas, k);
        InDomain(alphas[k], p0.domain);
        SummedWord(p0.g, t.root0, t.root1, t.alpha, depth, iter, l0[k], l1[k]);
        assert Bit(t.alpha, depth - iter) == (Bit(points0[k], depth - iter) != Bit(points1[k], depth - iter));
      }
      SameLevels(p0.g, 0, seed0, words, w, iter);
      SameLevels(p0.g, 1, seed1, words, w, iter);
    }
  }

  /** The word of a level does not change the level itself. */
  lemma SameLevels(g: Prg, party: nat, seed: Block, words: seq<seq<Word>>, w: seq<Word>, iter: nat)
    requires |words| == |w| && iter >= 1 && forall k :: 0 <= k < |words| ==> |words[k]| == iter - 1
    ensures Levels(g, party, seed, words, |words|, iter) == Levels(g, party, seed, Appended(words, w), |words|, iter)
  {
    hide LevelAt;
    forall k | 0 <= k < |words|
      ensures LevelAt(g, party, RootOf(g, seed, k), words[k], iter) == LevelAt(g, party, RootOf(g, seed, k), words[k] + [w[k]], iter)
    {
      LevelPrefix(g, party, RootOf(g, seed, k), words[k], words[k] + [w[k]], iter);
    }
  }

  lemma InDomain(alpha: nat, domain: nat)
    requires domain >= 2 && alpha < domain
    ensures alpha < Pow(2, Log2Ceil(domain))
  {
    RowsFit(domain);
  }

  lemma HoldsSums(p: Party, ls: seq<Level>, iter: nat)
    requires IsLevels(ls, p.numPoints) && p.Holds(ls, iter)
    ensures p.HasSums()
    ensures forall k :: 0 <= k < p.numPoints ==>
      p.z[k][0] == XorSum(ls[k].raw, 2, 0, |ls[k].tags|) && p.z[k][1] == XorSum(ls[k].raw, 2, 1, |ls[k].tags|)
  {
    hide XorSum;
    forall k | 0 <= k < p.numPoints
      ensures |p.z[k]| == 2
      ensures p.z[k][0] == XorSum(ls[k].raw, 2, 0, |ls[k].tags|) && p.z[k][1] == XorSum(ls[k].raw, 2, 1, |ls[k].tags|)
    {
      assert Stands(p.s[k], p.z[k], ls[k], iter);
    }
  }

  /** Both parties move on to the next level. */
  method AdvanceBoth(p0: Party, p1: Party, ghost seed0: Block, ghost seed1: Block, words: seq<seq<Word>>, iter: nat)
    requires p0 != p1 && p0.depth == p1.depth && p0.g == p1.g && 1 <= iter < p0.depth
    requires |words| == p0.numPoints == p1.numPoints && forall k :: 0 <= k < |words| ==> |words[k]| == iter
    requires AtLevel(p0, p1, seed0, seed1, words, iter) && p0.sigma == p1.sigma == WordsAt(words, p0.numPoints, iter)
    modifies p0, p1
    ensures AtLevel(p0, p1, seed0, seed1, words, iter + 1)
    ensures p0.sigma == p1.sigma == WordsAt(words, p0.numPoints, iter)
  {
    hide LevelAt, XorSum, Corrected, Descend, Stands;
    NextKeyLevels(p0.g, 0, Key(seed0, words, []), p0.numPoints, iter);
    NextKeyLevels(p0.g, 1, Key(seed1, words, []), p0.numPoints, iter);
    p0.Advance(Levels(p0.g, 0, seed0, words, p0.numPoints, iter), iter);
    p1.Advance(Levels(p0.g, 1, seed1, words, p0.numPoints, iter), iter);
  }

  method StartBoth(p0: Party, p1: Party, seed0: Block, seed1: Block, words: seq<seq<Word>>)
    requires p0 != p1 && p0.Valid() && p1.Valid() && p0.g == p1.g && p0.partyIdx == 0 && p1.partyIdx == 1
    requires |words| == p0.numPoints == p1.numPoints && p0.domain == p1.domain
    requires forall k :: 0 <= k < |words| ==> words[k] == []
    modifies p0, p1
    ensures AtLevel(p0, p1, seed0, seed1, words, 1)
  {
    hide XorSum, Log2Ceil, Stands, Saturated;
    RowsFit(p0.domain);
    p0.Start(seed0);
    p1.Start(seed1);
    FirstKeyLevels(p0.g, 0, Key(seed0, words, []), p0.numPoints);
    FirstKeyLevels(p0.g, 1, Key(seed1, words, []), p0.numPoints);
  }

  /** The transfers of the first `k` levels. */
  ghost function Uses(n: nat, k: nat): nat
  {
    MulNonNeg(n, k);
    n * k
  }

  lemma NextUse(n: nat, iter: nat, depth: nat)
    requires 1 <= iter <= depth
    ensures Uses(n, 0) == 0 && Uses(n, iter - 1) + n == Uses(n, iter) <= Uses(n, depth) == n * depth
  {
    MulMono(iter, depth, n);
  }

  /** One round of the level loop. */
  method Round(p0: Party, p1: Party, points0: seq<nat>, points1: seq<nat>, seed0: Block, seed1: Block,
               ghost alphas: seq<nat>, words: seq<seq<Word>>, iter: nat)
    returns (ok: bool, next: seq<seq<Word>>)
    requires Parties(p0, p1) && |alphas| == p0.numPoints && SharesPoints(alphas, points0, points1, p0.domain)
    requires 1 <= iter <= p0.depth && words == AllWords(p0.g, seed0, seed1, alphas, p0.depth, iter - 1)
    requires AtLevel(p0, p1, seed0, seed1, words, iter)
    modifies p0, p1, p0.mult`otIdx, p1.mult`otIdx
    ensures ok <==> old(|p0.mult.choiceBits| > 0 && p0.mult.otIdx + p0.numPoints <= p0.mult.totalMults)
    ensures ok ==> Parties(p0, p1) && p0.mult.otIdx == old(p0.mult.otIdx) + p0.numPoints
    ensures ok ==> next == AllWords(p0.g, seed0, seed1, alphas, p0.depth, iter)
    ensures ok ==> p0.sigma == p1.sigma == WordsAt(next, p0.numPoints, iter)
    ensures ok ==> AtLevel(p0, p1, seed0, seed1, next, Min(iter + 1, p0.depth))
  {
    hide Bit, Log2Ceil, LevelAt, WordsOf, M.Transferred, SharesPoints, AtLevel, Stands;
    var w;
    ok, w := OpenLevel(p0, p1, points0, points1, seed0, seed1, alphas, words, iter);
    if !ok { return false, words; }
    next := Appended(words, w);
    assert w == WordsAt(next, p0.numPoints, iter);
    if iter != p0.depth { AdvanceBoth(p0, p1, seed0, seed1, next, iter); }
  }

  /** Every level of the interactive protocol. */
  method RunLevels(p0: Party, p1: Party, points0: seq<nat>, points1: seq<nat>, seed0: Block, seed1: Block, ghost alphas: seq<nat>)
    returns (ok: bool, words: seq<seq<Word>>)
    requires Parties(p0, p1) && |alphas| == p0.numPoints && SharesPoints(alphas, points0, points1, p0.domain)
    modifies p0, p1, p0.mult`otIdx, p1.mult`otIdx
    ensures ok <==> old(|p0.mult.choiceBits| > 0 && p0.mult.otIdx + p0.numPoints * p0.depth <= p0.mult.totalMults)
    ensures ok ==> words == AllWords(p0.g, seed0, seed1, alphas, p0.depth, p0.depth) && Parties(p0, p1)
    ensures ok ==> p0.depth >= 1 && p0.sigma == p1.sigma == WordsAt(words, p0.numPoints, p0.depth)
    ensures ok ==> AtLevel(p0, p1, seed0, seed1, words, p0.depth)
    ensures ok ==> p0.mult.otIdx == old(p0.mult.otIdx) + p0.numPoints * p0.depth
  {
    hide Bit, Log2Ceil, LevelAt, WordsOf, M.Transferred, SharesPoints, AtLevel, Stands, AllWords, WordsAt, Appended, Uses;
    RowsFit(p0.domain);
    var depth, n := p0.depth, p0.numPoints;
    words := seq(n, _ => []);
    StartBoth(p0, p1, seed0, seed1, words);
    assert words == AllWords(p0.g, seed0, seed1, alphas, depth, 0);
    var iter := 1;
    NextUse(n, 1, depth);
    while iter <= depth
      invariant 1 <= iter <= depth + 1 && Parties(p0, p1)
      invariant words == AllWords(p0.g, seed0, seed1, alphas, depth, iter - 1)
      invariant AtLevel(p0, p1, seed0, seed1, words, Min(iter, depth))
      invariant iter > 1 ==> p0.sigma == p1.sigma == WordsAt(words, n, iter - 1)
      invariant p0.mult.otIdx == old(p0.mult.otIdx) + Uses(n, iter - 1)
      invariant p0.mult.choiceBits == old(p0.mult.choiceBits) && p0.mult.totalMults == old(p0.mult.totalMults)
      invariant iter > 1 ==> |p0.mult.choiceBits| > 0 && p0.mult.otIdx <= p0.mult.totalMults
    {
      NextUse(n, iter, depth);
      ok, words := Round(p0, p1, points0, points1, seed0, seed1, alphas, words, iter);
      if !ok { return; }
      iter := iter + 1;
    }
    ok := true;
  }

  // ------------------------------------------------------------ the last layer

  /** The leaf correction: the difference of the path leaves, moved to the shared value. */
  function PathGamma(g: Prg, root0: (Block, Block), root1: (Block, Block), alpha: nat, depth: nat, value: Block): Block
    requires depth >= 1
  {
    var p, d := PathAt(g, root0, root1, alpha, depth, depth), Bit(alpha, 0);
    var w := PathWord(p, d);
    Xor(Xor(Leaf(g, PathSeed(p.s0, p.t0, w, d)), Leaf(g, PathSeed(p.s1, p.t1, w, d))), value)
  }

  lemma {:induction false} LeafSum(c0: seq<Block>, c1: seq<Block>, a: nat, n: nat)
    requires |c0| == |c1| >= n && a < |c0|
    requires forall i :: 0 <= i < |c0| && i != a ==> c0[i] == c1[i]
    ensures Xor(XorSum(c0, 1, 0, n), XorSum(c1, 1, 0, n)) == if a < n then Xor(c0[a], c1[a]) else ZERO
  {
    hide Xor;
    if n == 0 {
      XorZero(ZERO, ZERO);
    } else {
      LeafSum(c0, c1, a, n - 1);
      XorSwap(XorSum(c0, 1, 0, n - 1), c0[n - 1], XorSum(c1, 1, 0, n - 1), c1[n - 1]);
      XorZero(c0[n - 1], c1[n - 1]);
      XorZero(Xor(c0[n - 1], c1[n - 1]), ZERO);
      XorZero(Xor(XorSum(c0, 1, 0, n - 1), XorSum(c1, 1, 0, n - 1)), ZERO);
    }
  }

  /** The opened sums of all leaves are the dealer's leaf correction. */
  lemma SummedGamma(g: Prg, root0: (Block, Block), root1: (Block, Block), alpha: nat, domain: nat, words: seq<Word>,
                    v0: Block, v1: Block, leaves0: seq<Block>, leaves1: seq<Block>, tags0: seq<Block>, tags1: seq<Block>,
                    sum0: Block, sum1: Block)
    requires domain >= 2 && alpha < domain && words == PathWords(g, root0, root1, alpha, Log2Ceil(domain), Log2Ceil(domain))
    requires 1 <= |words|
    requires IsLastLayer(g, SeedsAt(g, 0, root0, words, |words|), domain, leaves0, tags0, sum0)
    requires IsLastLayer(g, SeedsAt(g, 1, root1, words, |words|), domain, leaves1, tags1, sum1)
    ensures Xor(Xor(sum0, v0), Xor(sum1, v1)) == PathGamma(g, root0, root1, alpha, Log2Ceil(domain), Xor(v0, v1))
  {
    hide Xor, XorSum, Bit, SeedsAt, PathAt, PathWord, PathSeed, PathWords, Prefix;
    var depth := Log2Ceil(domain);
    RowsFit(domain);
    assert words[..depth] == words;
    CorrectedOnPath(g, root0, root1, alpha, depth, depth, words);
    PrefixEnds(alpha, depth);
    LastWord(g, root0, root1, alpha, depth);
    LeafSum(leaves0, leaves1, alpha, |leaves0|);
    XorSwap(sum0, v0, sum1, v1);
  }

  lemma LastWord(g: Prg, root0: (Block, Block), root1: (Block, Block), alpha: nat, depth: nat)
    requires depth >= 1
    ensures PathWords(g, root0, root1, alpha, depth, depth)[depth - 1]
         == PathWord(PathAt(g, root0, root1, alpha, depth, depth), Bit(alpha, 0))
  {
    hide PathWord, PathAt, Bit;
  }

  /** The two keys' material of one tree. */
  function PathColumn(g: Prg, party: nat, root0: (Block, Block), root1: (Block, Block), alpha: nat, domain: nat, value: Option<Block>): Column
    requires Log2Ceil(domain) >= 1
  {
    var depth := Log2Ceil(domain);
    Column(if party == 0 then root0 else root1, PathWords(g, root0, root1, alpha, depth, depth),
        if value.None? then None else Some(PathGamma(g, root0, root1, alpha, depth, value.value)))
  }

  /** Shares of the point function: `value` and tag one at alpha, nothing elsewhere. */
  ghost predicate SharesOf(out0: seq<(Block, Block)>, out1: seq<(Block, Block)>, domain: nat, alpha: nat, value: Option<Block>)
  {
    && |out0| == |out1| == domain
    && forall i :: 0 <= i < domain ==>
         && Xor(out0[i].1, out1[i].1) == Saturated(i == alpha)
         && (i != alpha ==> Xor(out0[i].0, out1[i].0) == ZERO)
         && (i == alpha && value.Some? ==> Xor(out0[i].0, out1[i].0) == value.value)
  }

  /** Evaluating one tree of the two keys gives shares of the point function, for every domain, point and value. */
  lemma ColumnsEvaluate(g: Prg, root0: (Block, Block), root1: (Block, Block), alpha: nat, domain: nat, value: Option<Block>)
    requires domain >= 2 && alpha < domain && Log2Ceil(domain) >= 1
    ensures SharesOf(Evaluated(g, 0, PathColumn(g, 0, root0, root1, alpha, domain, value), domain),
                     Evaluated(g, 1, PathColumn(g, 1, root0, root1, alpha, domain, value), domain), domain, alpha, value)
  {
    hide Xor, XorSum, Bit, SeedsAt, PathAt, PathWord, PathSeed, PathWords, Prefix, And, Saturated, Lsb, Log2Ceil;
    RowsFit(domain);
    var depth := Log2Ceil(domain);
    var words := PathWords(g, root0, root1, alpha, depth, depth);
    assert words[..depth] == words;
    CorrectedOnPath(g, root0, root1, alpha, depth, depth, words);
    PrefixEnds(alpha, depth);
    LastWord(g, root0, root1, alpha, depth);
    var s0, s1 := SeedsAt(g, 0, root0, words, depth), SeedsAt(g, 1, root1, words, depth);
    var k0, k1 := PathColumn(g, 0, root0, root1, alpha, domain, value), PathColumn(g, 1, root0, root1, alpha, domain, value);
    LevelSize(g, 0, root0, words, depth);
    LevelSize(g, 1, root1, words, depth);
    forall i | 0 <= i < domain
      ensures Evaluated(g, 0, k0, domain)[i] == OutputOf(g, s0[i], k0.leaf)
      ensures Evaluated(g, 1, k1, domain)[i] == OutputOf(g, s1[i], k1.leaf)
    {}
    forall i | 0 <= i < domain
      ensures Xor(OutputOf(g, s0[i], k0.leaf).1, OutputOf(g, s1[i], k1.leaf).1) == Saturated(i == alpha)
      ensures i != alpha ==> Xor(OutputOf(g, s0[i], k0.leaf).0, OutputOf(g, s1[i], k1.leaf).0) == ZERO
      ensures i == alpha && value.Some? ==> Xor(OutputOf(g, s0[i], k0.leaf).0, OutputOf(g, s1[i], k1.leaf).0) == value.value
    {
      if i == alpha {
        OppositeTags(s0[i], s1[i]);
        if value.Some? {
          LeafOpens(g, s0[i], s1[i], value.value, k0.leaf.value);
        }
      } else {
        XorZero(TagBit(s0[i]), TagBit(s1[i]));
        XorZero(OutputOf(g, s0[i], k0.leaf).0, OutputOf(g, s1[i], k1.leaf).0);
      }
    }
  }

  lemma OppositeTags(s0: Block, s1: Block)
    requires Lsb(s0) != Lsb(s1)
    ensures Xor(TagBit(s0), TagBit(s1)) == Saturated(true)
  {}

  /** On the path the leaf correction is applied by exactly one party. */
  lemma LeafOpens(g: Prg, s0: Block, s1: Block, value: Block, gamma: Block)
    requires Lsb(s0) != Lsb(s1) && gamma == Xor(Xor(Leaf(g, s0), Leaf(g, s1)), value)
    ensures Xor(OutputOf(g, s0, Some(gamma)).0, OutputOf(g, s1, Some(gamma)).0) == value
  {
    hide Xor, And, Saturated, Lsb;
    var l0, l1 := Leaf(g, s0), Leaf(g, s1);
    CorrectOpposite(l0, l1, Lsb(s0), gamma);
    XorAssociates(Xor(l0, l1), Xor(l0, l1), value);
    XorZero(Xor(l0, l1), Xor(l0, l1));
    XorZero(value, ZERO);
  }

  // ------------------------------------------------------------ whole protocols

  /** The shared values, if there are any. */
  function Shared(values0: seq<Block>, values1: seq<Block>): (v: seq<Block>)
    requires |values0| == |values1|
    ensures |v| == |values0| && forall k :: 0 <= k < |v| ==> v[k] == Xor(values0[k], values1[k])
  {
    seq(|values0|, k requires 0 <= k < |values0| => Xor(values0[k], values1[k]))
  }

  /** The leaf corrections of all trees, or none without values. */
  function Gammas(g: Prg, seed0: Block, seed1: Block, alphas: seq<nat>, depth: nat, values: seq<Block>): (r: seq<Block>)
    requires depth >= 1 && |values| <= |alphas|
    ensures |r| == |values|
    ensures forall k :: 0 <= k < |r| ==>
      r[k] == PathGamma(g, RootOf(g, seed0, k), RootOf(g, seed1, k), alphas[k], depth, values[k])
  {
    seq(|values|, k requires 0 <= k < |values| =>
      PathGamma(g, RootOf(g, seed0, k), RootOf(g, seed1, k), alphas[k], depth, values[k]))
  }

  /** The key of a party for a list of points; without values it has no leaf corrections. */
  function KeyOf(g: Prg, party: nat, seed0: Block, seed1: Block, alphas: seq<nat>, domain: nat, values: seq<Block>): Key
    requires Log2Ceil(domain) >= 1 && |values| <= |alphas|
  {
    Key(if party == 0 then seed0 else seed1, AllWords(g, seed0, seed1, alphas, Log2Ceil(domain), Log2Ceil(domain)),
        Gammas(g, seed0, seed1, alphas, Log2Ceil(domain), values))
  }

  lemma KeyShape(g: Prg, party: nat, seed0: Block, seed1: Block, alphas: seq<nat>, domain: nat, values: seq<Block>)
    requires Log2Ceil(domain) >= 1 && (values == [] || |values| == |alphas|) && party < 2
    ensures var key := KeyOf(g, party, seed0, seed1, alphas, domain, values);
      && IsKey(key, |alphas|, Log2Ceil(domain))
      && forall k :: 0 <= k < |alphas| ==>
           ColumnOf(g, key, k) == PathColumn(g, party, RootOf(g, seed0, k), RootOf(g, seed1, k), alphas[k], domain, Entry(values, k))
  {
    hide PathWords, PathGamma, Log2Ceil;
  }

  /** Shares of every point function of the list. */
  ghost predicate SharesOfAll(out0: seq<seq<(Block, Block)>>, out1: seq<seq<(Block, Block)>>, domain: nat, alphas: seq<nat>,
                              values: seq<Block>)
    requires values == [] || |values| == |alphas|
  {
    && |out0| == |out1| == |alphas|
    && forall k :: 0 <= k < |alphas| ==> SharesOf(out0[k], out1[k], domain, alphas[k], Entry(values, k))
  }

  /** A party's outputs are the evaluation of its key. */
  ghost predicate Evaluates(out: seq<seq<(Block, Block)>>, g: Prg, party: nat, key: Key, domain: nat)
    requires domain >= 2
  {
    && IsKey(key, |out|, Log2Ceil(domain))
    && forall k :: 0 <= k < |out| ==> out[k] == Evaluated(g, party, ColumnOf(g, key, k), domain)
  }

  /** The outputs of tree `k` at position `i`, bit by bit: the value and a set tag at alpha, nothing elsewhere. */
  lemma SharesMean(out0: seq<seq<(Block, Block)>>, out1: seq<seq<(Block, Block)>>, domain: nat, alphas: seq<nat>, values: seq<Block>,
                   k: nat, i: nat, j: nat)
    requires (values == [] || |values| == |alphas|) && SharesOfAll(out0, out1, domain, alphas, values)
    requires k < |alphas| && i < domain && j < 128
    ensures |out0| == |out1| == |alphas| && |out0[k]| == |out1[k]| == domain
    ensures out0[k][i].1[j] != out1[k][i].1[j] <==> i == alphas[k]
    ensures i != alphas[k] ==> out0[k][i].0 == out1[k][i].0
    ensures i == alphas[k] && values != [] ==> values[k][j] == (out0[k][i].0[j] != out1[k][i].0[j])
  {
    assert SharesOf(out0[k], out1[k], domain, alphas[k], Entry(values, k));
    XorZero(out0[k][i].0, out1[k][i].0);
    BlockBits(out0[k][i].1, out1[k][i].1, i == alphas[k], j);
    BlockBits(out0[k][i].0, out1[k][i].0, true, j);
  }

  /** One output of a key: the expansion of the last seed, corrected where its low bit is set, and that bit. */
  lemma EvaluatesMeans(out: seq<seq<(Block, Block)>>, g: Prg, party: nat, key: Key, domain: nat, k: nat, i: nat)
    requires domain >= 2 && Evaluates(out, g, party, key, domain) && k < |out| && i < domain
    ensures |key.words| == |out| && (key.leaf == [] || |key.leaf| == |out|) && |key.words[k]| == Log2Ceil(domain) >= 1
    ensures var seeds := SeedsAt(g, party, (g.stream(key.seed, 2 * k), g.stream(key.seed, 2 * k + 1)), key.words[k], Log2Ceil(domain));
      && |out[k]| == domain <= |seeds|
      && out[k][i] == (Xor(g.leaf(seeds[i]), if seeds[i][0] && key.leaf != [] then key.leaf[k] else ZERO), seq(128, _ => seeds[i][0]))
  {
    hide SeedsAt, Evaluated, Xor, Log2Ceil;
    RowsFit(domain);
    RootWritten(g, key.seed, k);
    EvaluatedWritten(g, party, ColumnOf(g, key, k), domain, i);
  }

  /** A shared point, bit by bit. */
  lemma PointMeans(alpha: nat, point0: nat, point1: nat, depth: nat, i: nat)
    requires SharesPoint(alpha, point0, point1, depth) && i < depth
    ensures Pow(2, i) > 0
    ensures (alpha / Pow(2, i) % 2 == 1) == ((point0 / Pow(2, i) % 2 == 1) != (point1 / Pow(2, i) % 2 == 1))
  {
    BitWritten(alpha, i);
    BitWritten(point0, i);
    BitWritten(point1, i);
    hide Pow, Bit;
  }

  lemma PointFrom(alpha: nat, point0: nat, point1: nat, depth: nat)
    requires forall i: nat :: Pow(2, i) > 0
    requires forall i: nat :: i < depth ==>
      (alpha / Pow(2, i) % 2 == 1) == ((point0 / Pow(2, i) % 2 == 1) != (point1 / Pow(2, i) % 2 == 1))
    ensures SharesPoint(alpha, point0, point1, depth)
  {
    hide Pow, Bit;
    forall i: nat | i < depth ensures Bit(alpha, i) == (Bit(point0, i) != Bit(point1, i)) {
      BitWritten(alpha, i);
      BitWritten(point0, i);
      BitWritten(point1, i);
    }
  }

  lemma PointsMean(alphas: seq<nat>, points0: seq<nat>, points1: seq<nat>, domain: nat)
    ensures SharesPoints(alphas, points0, points1, domain) <==>
      && |alphas| == |points0| == |points1|
      && forall k :: 0 <= k < |alphas| ==> alphas[k] < domain && SharesPoint(alphas[k], points0[k], points1[k], Log2Ceil(domain))
  {
    hide SharesPoint, Log2Ceil;
  }

  /** Evaluating the two keys gives shares of the point functions, for every domain, list of points and values. */
  lemma KeysEvaluate(g: Prg, seed0: Block, seed1: Block, alphas: seq<nat>, domain: nat, values: seq<Block>,
                     out0: seq<seq<(Block, Block)>>, out1: seq<seq<(Block, Block)>>)
    requires domain >= 2 && Log2Ceil(domain) >= 1 && (values == [] || |values| == |alphas|)
    requires forall k :: 0 <= k < |alphas| ==> alphas[k] < domain
    requires Evaluates(out0, g, 0, KeyOf(g, 0, seed0, seed1, alphas, domain, values), domain)
    requires Evaluates(out1, g, 1, KeyOf(g, 1, seed0, seed1, alphas, domain, values), domain)
    ensures SharesOfAll(out0, out1, domain, alphas, values)
  {
    hide SharesOf, Evaluated, PathColumn, ColumnOf, Log2Ceil;
    KeyShape(g, 0, seed0, seed1, alphas, domain, values);
    KeyShape(g, 1, seed0, seed1, alphas, domain, values);
    forall k | 0 <= k < |alphas| ensures SharesOf(out0[k], out1[k], domain, alphas[k], Entry(values, k)) {
      ColumnsEvaluate(g, RootOf(g, seed0, k), RootOf(g, seed1, k), alphas[k], domain, Entry(values, k));
    }
  }

  /** The last layers of a party. */
  ghost predicate AllLast(g: Prg, party: nat, seed: Block, words: seq<seq<Word>>, domain: nat,
                          leaves: seq<seq<Block>>, tags: seq<seq<Block>>, diff: seq<Block>)
  {
    && |leaves| == |tags| == |diff| == |words|
    && forall k :: 0 <= k < |words| ==>
         && |words[k]| >= 1
         && IsLastLayer(g, SeedsAt(g, party, RootOf(g, seed, k), words[k], |words[k]|), domain, leaves[k], tags[k], diff[k])
  }

  /** The last layer of one party. */
  method LastRound(p: Party, words: seq<seq<Word>>, seed: Block)
    returns (leaves: seq<seq<Block>>, tags: seq<seq<Block>>, diff: seq<Block>)
    requires p.Valid() && p.depth >= 1 && |words| == p.numPoints && forall k :: 0 <= k < |words| ==> |words[k]| == p.depth
    requires p.sigma == WordsAt(words, p.numPoints, p.depth)
    requires p.Holds(Levels(p.g, p.partyIdx, seed, words, p.numPoints, p.depth), p.depth)
    modifies p
    ensures AllLast(p.g, p.partyIdx, seed, words, p.domain, leaves, tags, diff)
    ensures |leaves| == |tags| == p.numPoints
    ensures forall k :: 0 <= k < p.numPoints ==> p.domain <= |leaves[k]| == |tags[k]|
  {
    hide Log2Ceil, LevelAt, Corrected, IsLastLayer, RoundUpEven, Stands;
    RowsFit(p.domain);
    ghost var ls := Levels(p.g, p.partyIdx, seed, words, p.numPoints, p.depth);
    forall k | 0 <= k < p.numPoints ensures |ls[k].raw| >= RoundUpEven(p.domain) {
      LevelSize(p.g, p.partyIdx, RootOf(p.g, seed, k), words[k], p.depth);
    }
    leaves, tags, diff := p.LastLayer(ls);
    LastSizes(p.g, ls, p.sigma, p.numPoints, p.domain, leaves, tags, diff);
  }

  /** The masked sums and their opening. */
  method OpenGammas(g: Prg, domain: nat, ghost alphas: seq<nat>, seed0: Block, seed1: Block, ghost words: seq<seq<Word>>,
                    values0: seq<Block>, values1: seq<Block>, diff0: seq<Block>, diff1: seq<Block>,
                    ghost leaves0: seq<seq<Block>>, ghost leaves1: seq<seq<Block>>,
                    ghost tags0: seq<seq<Block>>, ghost tags1: seq<seq<Block>>)
    returns (gamma0: seq<Block>, gamma1: seq<Block>)
    requires domain >= 2 && Log2Ceil(domain) >= 1 && |values0| == |values1| == |alphas|
    requires forall k :: 0 <= k < |alphas| ==> alphas[k] < domain
    requires words == AllWords(g, seed0, seed1, alphas, Log2Ceil(domain), Log2Ceil(domain))
    requires AllLast(g, 0, seed0, words, domain, leaves0, tags0, diff0) && AllLast(g, 1, seed1, words, domain, leaves1, tags1, diff1)
    ensures gamma0 == gamma1 == Gammas(g, seed0, seed1, alphas, Log2Ceil(domain), Shared(values0, values1))
  {
    hide Xor, IsLastLayer, PathGamma, PathWords, SeedsAt, Log2Ceil;
    var sent0, sent1 := Shared(diff0, values0), Shared(diff1, values1);
    gamma0, gamma1 := Shared(sent1, sent0), Shared(sent0, sent1);
    forall k | 0 <= k < |alphas|
      ensures gamma0[k] == gamma1[k] == PathGamma(g, RootOf(g, seed0, k), RootOf(g, seed1, k), alphas[k], Log2Ceil(domain),
                                                  Shared(values0, values1)[k])
    {
      SummedGamma(g, RootOf(g, seed0, k), RootOf(g, seed1, k), alphas[k], domain, words[k], values0[k], values1[k],
                  leaves0[k], leaves1[k], tags0[k], tags1[k], diff0[k], diff1[k]);
      XorCommutes(sent0[k], sent1[k]);
    }
  }

  /**
   implExpand by two parties without a key, for a list of points. Refused exactly on lists of a wrong size or when
   the pool does not hold a transfer for every tree and level.
   */
  method ExpandShared(p0: Party, p1: Party, points0: seq<nat>, points1: seq<nat>, values0: seq<Block>, values1: seq<Block>,
                      seed0: Block, seed1: Block, ghost alphas: seq<nat>)
    returns (ok: bool, out0: seq<seq<(Block, Block)>>, out1: seq<seq<(Block, Block)>>)
    requires Parties(p0, p1) && |values0| == |values1| && SharesPoints(alphas, points0, points1, p0.domain)
    modifies p0, p1, p0.mult`otIdx, p1.mult`otIdx
    ensures ok <==>
      && |points0| == p0.numPoints && (|values0| == 0 || |values0| == p0.numPoints)
      && old(|p0.mult.choiceBits| > 0 && p0.mult.otIdx + p0.numPoints * p0.depth <= p0.mult.totalMults)
    ensures ok ==> p0.depth >= 1 && p0.mult.otIdx == old(p0.mult.otIdx) + p0.numPoints * p0.depth && Parties(p0, p1)
    ensures ok ==> |out0| == |out1| == p0.numPoints
    ensures ok ==> Evaluates(out0, p0.g, 0, KeyOf(p0.g, 0, seed0, seed1, alphas, p0.domain, Shared(values0, values1)), p0.domain)
    ensures ok ==> Evaluates(out1, p0.g, 1, KeyOf(p0.g, 1, seed0, seed1, alphas, p0.domain, Shared(values0, values1)), p0.domain)
    ensures ok ==> SharesOfAll(out0, out1, p0.domain, alphas, Shared(values0, values1))
  {
    hide Xor, Bit, Log2Ceil, LevelAt, WordsOf, Corrected, IsLastLayer, M.Transferred, SeedsAt, SharesOf, Evaluated, PathGamma,
      SharesPoint, AllLast, SharesOfAll, Stands;
    out0, out1 := [], [];
    ok := |points0| == p0.numPoints && (|values0| == 0 || |values0| == p0.numPoints);
    if !ok { return; }
    RowsFit(p0.domain);
    var words;
    ok, words := RunLevels(p0, p1, points0, points1, seed0, seed1, alphas);
    if !ok { return; }
    var leaves0, tags0, diff0 := LastRound(p0, words, seed0);
    var leaves1, tags1, diff1 := LastRound(p1, words, seed1);
    var gamma0, gamma1: seq<Block> := [], [];
    if |values0| != 0 {
      gamma0, gamma1 := OpenGammas(p0.g, p0.domain, alphas, seed0, seed1, words, values0, values1, diff0, diff1,
                                   leaves0, leaves1, tags0, tags1);
    }
    assert gamma0 == gamma1 == Gammas(p0.g, seed0, seed1, alphas, p0.depth, Shared(values0, values1));
    out0 := p0.Output(leaves0, tags0, gamma0);
    out1 := p1.Output(leaves1, tags1, gamma1);
    OutputEvaluates(p0.g, 0, KeyOf(p0.g, 0, seed0, seed1, alphas, p0.domain, Shared(values0, values1)), p0.domain, leaves0, tags0, diff0, out0);
    OutputEvaluates(p0.g, 1, KeyOf(p0.g, 1, seed0, seed1, alphas, p0.domain, Shared(values0, values1)), p0.domain, leaves1, tags1, diff1, out1);
    KeysEvaluate(p0.g, seed0, seed1, alphas, p0.domain, Shared(values0, values1), out0, out1);
  }

  /** Last layers and output calls add up to the evaluation of a key. */
  lemma OutputEvaluates(g: Prg, party: nat, key: Key, domain: nat, leaves: seq<seq<Block>>, tags: seq<seq<Block>>, diff: seq<Block>,
                        out: seq<seq<(Block, Block)>>)
    requires domain >= 2 && IsKey(key, |out|, Log2Ceil(domain)) && Log2Ceil(domain) >= 1
    requires AllLast(g, party, key.seed, key.words, domain, leaves, tags, diff)
    requires forall k :: 0 <= k < |out| ==> IsOutput(out[k], leaves[k], tags[k], Entry(key.leaf, k), domain)
    ensures Evaluates(out, g, party, key, domain)
  {
    hide IsLastLayer, IsOutput, Evaluated, SeedsAt, Log2Ceil;
    forall k | 0 <= k < |out| ensures out[k] == Evaluated(g, party, ColumnOf(g, key, k), domain) {
      EvaluatedIs(g, party, ColumnOf(g, key, k), domain, leaves[k], tags[k], diff[k], out[k]);
    }
  }

  /** Interactive key generation for a list of points: whole-level sums and shared multiplication. */
  method GenerateShared(p0: Party, p1: Party, points0: seq<nat>, points1: seq<nat>, values0: seq<Block>, values1: seq<Block>,
                        seed0: Block, seed1: Block, ghost alphas: seq<nat>)
    returns (ok: bool, key0: Key, key1: Key)
    requires Parties(p0, p1) && |values0| == |values1| && SharesPoints(alphas, points0, points1, p0.domain)
    modifies p0, p1, p0.mult`otIdx, p1.mult`otIdx
    ensures ok <==>
      && |points0| == p0.numPoints && (|values0| == 0 || |values0| == p0.numPoints)
      && old(|p0.mult.choiceBits| > 0 && p0.mult.otIdx + p0.numPoints * p0.depth <= p0.mult.totalMults)
    ensures ok ==> p0.depth >= 1 && p0.mult.otIdx == old(p0.mult.otIdx) + p0.numPoints * p0.depth
    ensures ok ==> key0 == KeyOf(p0.g, 0, seed0, seed1, alphas, p0.domain, Shared(values0, values1))
    ensures ok ==> key1 == KeyOf(p0.g, 1, seed0, seed1, alphas, p0.domain, Shared(values0, values1))
  {
    hide Xor, Bit, Log2Ceil, LevelAt, WordsOf, Corrected, IsLastLayer, M.Transferred, SeedsAt, PathGamma, SharesPoint, AllLast,
      Stands;
    key0, key1 := Key(seed0, [], []), Key(seed1, [], []);
    ok := |points0| == p0.numPoints && (|values0| == 0 || |values0| == p0.numPoints);
    if !ok { return; }
    RowsFit(p0.domain);
    var words;
    ok, words := RunLevels(p0, p1, points0, points1, seed0, seed1, alphas);
    if !ok { return; }
    key0, key1 := key0.(words := words), key1.(words := words);
    if |values0| == 0 {
      assert Gammas(p0.g, seed0, seed1, alphas, p0.depth, Shared(values0, values1)) == [];
      return;
    }
    var leaves0, tags0, diff0 := LastRound(p0, words, seed0);
    var leaves1, tags1, diff1 := LastRound(p1, words, seed1);
    var gamma0, gamma1 := OpenGammas(p0.g, p0.domain, alphas, seed0, seed1, words, values0, values1, diff0, diff1,
                                     leaves0, leaves1, tags0, tags1);
    key0, key1 := key0.(leaf := gamma0), key1.(leaf := gamma1);
  }

  /** The state of the dealer's loop: both parties' two children of the path parent, and its tags. */
  method DealerWord(p: Path, a: bool) returns (w: Word, n0: (Block, Block), n1: (Block, Block))
    ensures w == PathWord(p, a)
    ensures n0 == (Xor(p.s0.0, And(p.t0, Sigma(w, 0))), Xor(p.s0.1, And(p.t0, Sigma(w, 1))))
    ensures n1 == (Xor(p.s1.0, And(p.t1, Sigma(w, 0))), Xor(p.s1.1, And(p.t1, Sigma(w, 1))))
  {
    hide Xor, And, Lsb, WithLsb;
    var diff := if a then Xor(p.s0.0, p.s1.0) else Xor(p.s0.1, p.s1.1);
    var tau0 := Lsb(Xor(p.s0.0, p.s1.0)) != !a;
    var tau1 := Lsb(Xor(p.s0.1, p.s1.1)) != a;
    diff := WithLsb(diff, tau0);
    w := Word(diff, tau1);
    n0 := (Xor(p.s0.0, And(p.t0, Sigma(w, 0))), Xor(p.s0.1, And(p.t0, Sigma(w, 1))));
    n1 := (Xor(p.s1.0, And(p.t1, Sigma(w, 0))), Xor(p.s1.1, And(p.t1, Sigma(w, 1))));
  }

  /** The path parent's tags are opposite at every level. */
  lemma {:induction false} PathTagsOpposite(g: Prg, root0: (Block, Block), root1: (Block, Block), alpha: nat, depth: nat, iter: nat)
    requires 1 <= iter <= depth
    ensures var p := PathAt(g, root0, root1, alpha, depth, iter);
      exists x: bool :: p.t0 == Saturated(x) && p.t1 == Saturated(!x)
  {
    hide Xor, And, WithLsb, Saturated, Bit;
    if iter == 1 {
      assert Saturated(true) == Saturated(!false);
    } else {
      PathTagsOpposite(g, root0, root1, alpha, depth, iter - 1);
      var p, a := PathAt(g, root0, root1, alpha, depth, iter - 1), Bit(alpha, depth - (iter - 1));
      DealerChecks(p, a);
    }
  }

  /** The dealer's three sanity checks never fail. */
  lemma DealerChecks(p: Path, a: bool)
    requires exists x: bool :: p.t0 == Saturated(x) && p.t1 == Saturated(!x)
    ensures var w := PathWord(p, a);
      && PathSeed(p.s0, p.t0, w, !a) == PathSeed(p.s1, p.t1, w, !a)
      && Lsb(PathSeed(p.s0, p.t0, w, a)) != Lsb(PathSeed(p.s1, p.t1, w, a))
  {
    hide Xor, And, Lsb, WithLsb, Saturated, WordFor, Sigma;
    var x: bool :| p.t0 == Saturated(x) && p.t1 == Saturated(!x);
    var w := PathWord(p, a);
    CorrectOpposite(p.s0.0, p.s1.0, x, Sigma(w, 0));
    CorrectOpposite(p.s0.1, p.s1.1, x, Sigma(w, 1));
    WordCorrects(Xor(p.s0.0, p.s1.0), Xor(p.s0.1, p.s1.1), a);
    XorZero(PathSeed(p.s0, p.t0, w, !a), PathSeed(p.s1, p.t1, w, !a));
    XorZero(Sigma(w, 0), Sigma(w, 0));
    XorZero(Sigma(w, 1), Sigma(w, 1));
    LsbXor(PathSeed(p.s0, p.t0, w, a), PathSeed(p.s1, p.t1, w, a));
  }

  /** The loop of the static keyGen over the levels of one tree, with its sanity checks. */
  method DealTree(g: Prg, domain: nat, alpha: nat, value: Block, root0: (Block, Block), root1: (Block, Block))
    returns (ok: bool, words: seq<Word>, gamma: Block)
    requires domain >= 2 && alpha < domain
    ensures ok && Log2Ceil(domain) >= 1
    ensures words == PathWords(g, root0, root1, alpha, Log2Ceil(domain), Log2Ceil(domain))
    ensures gamma == PathGamma(g, root0, root1, alpha, Log2Ceil(domain), value)
  {
    hide Xor, And, Lsb, WithLsb, Saturated, Bit, Log2Ceil, PathWord, PathWords, Sigma, PathAt;
    RowsFit(domain);
    var depth := Log2Ceil(domain);
    var p := Path(root0, root1, Saturated(false), Saturated(true));
    FirstPath(g, root0, root1, alpha, depth);
    var last0, last1 := ZERO, ZERO;
    words := [];
    NoWords(g, root0, root1, alpha, depth);
    var iter := 1;
    ok := true;
    while iter <= depth
      invariant 1 <= iter <= depth + 1 && words == PathWords(g, root0, root1, alpha, depth, iter - 1) && ok
      invariant p == PathAt(g, root0, root1, alpha, depth, Min(iter, depth))
      invariant iter == depth + 1 ==>
        var w, a := PathWord(p, Bit(alpha, 0)), Bit(alpha, 0);
        last0 == PathSeed(p.s0, p.t0, w, a) && last1 == PathSeed(p.s1, p.t1, w, a)
    {
      var a := Bit(alpha, depth - iter);
      var w, n0, n1 := DealerWord(p, a);
      PathTagsOpposite(g, root0, root1, alpha, depth, iter);
      DealerChecks(p, a);
      NextWord(g, root0, root1, alpha, depth, iter);
      words := words + [w];
      last0, last1 := if a then n0.1 else n0.0, if a then n1.1 else n1.0;
      if (if a then n0.0 != n1.0 else n0.1 != n1.1) || Lsb(last0) == Lsb(last1) { ok := false; }
      if iter != depth {
        NextPath(g, root0, root1, alpha, depth, iter);
        p := PathBelow(g, last0, last1);
      }
      iter := iter + 1;
    }
    gamma := Xor(Xor(Leaf(g, last0), Leaf(g, last1)), value);
  }

  lemma FirstPath(g: Prg, root0: (Block, Block), root1: (Block, Block), alpha: nat, depth: nat)
    requires depth >= 1
    ensures PathAt(g, root0, root1, alpha, depth, 1) == Path(root0, root1, Saturated(false), Saturated(true))
  {}

  lemma NextWord(g: Prg, root0: (Block, Block), root1: (Block, Block), alpha: nat, depth: nat, iter: nat)
    requires 1 <= iter <= depth
    ensures PathWords(g, root0, root1, alpha, depth, iter) == PathWords(g, root0, root1, alpha, depth, iter - 1)
      + [PathWord(PathAt(g, root0, root1, alpha, depth, iter), Bit(alpha, depth - iter))]
  {}

  lemma NextPath(g: Prg, root0: (Block, Block), root1: (Block, Block), alpha: nat, depth: nat, iter: nat)
    requires 1 <= iter < depth
    ensures var p, a := PathAt(g, root0, root1, alpha, depth, iter), Bit(alpha, depth - iter);
      var w := PathWord(p, a);
      PathAt(g, root0, root1, alpha, depth, iter + 1)
        == PathBelow(g, PathSeed(p.s0, p.t0, w, a), PathSeed(p.s1, p.t1, w, a))
  {
    hide PathWord, Bit, PathSeed;
  }

  lemma NoWords(g: Prg, root0: (Block, Block), root1: (Block, Block), alpha: nat, depth: nat)
    ensures PathWords(g, root0, root1, alpha, depth, 0) == []
  {}

  /** keyGen by a dealer: refused exactly when values are given and do not match the points; a tree needs a value. */
  method DealerKeys(g: Prg, domain: nat, alphas: seq<nat>, values: seq<Block>, seed0: Block, seed1: Block)
    returns (ok: bool, key0: Key, key1: Key)
    requires domain >= 2 && forall k :: 0 <= k < |alphas| ==> alphas[k] < domain
    ensures ok <==> |values| == |alphas| || |values| == 0
    ensures ok ==> Log2Ceil(domain) >= 1
    ensures ok ==> key0 == KeyOf(g, 0, seed0, seed1, alphas[..|values|], domain, values)
    ensures ok ==> key1 == KeyOf(g, 1, seed0, seed1, alphas[..|values|], domain, values)
  {
    hide PathWords, PathGamma, Log2Ceil;
    key0, key1 := Key(seed0, [], []), Key(seed1, [], []);
    ok := |values| == |alphas| || |values| == 0;
    if !ok { return; }
    RowsFit(domain);
    var words: seq<seq<Word>>, leaf: seq<Block>, pos, i := [], [], 0, 0;
    while i < |values|
      invariant 0 <= i <= |values| && |words| == |leaf| == i && pos == 2 * i && ok
      invariant forall k :: 0 <= k < i ==>
        && words[k] == PathWords(g, RootOf(g, seed0, k), RootOf(g, seed1, k), alphas[k], Log2Ceil(domain), Log2Ceil(domain))
        && leaf[k] == PathGamma(g, RootOf(g, seed0, k), RootOf(g, seed1, k), alphas[k], Log2Ceil(domain), values[k])
    {
      var root0 := (g.stream(seed0, pos), g.stream(seed0, pos + 1));
      var root1 := (g.stream(seed1, pos), g.stream(seed1, pos + 1));
      pos := pos + 2;
      var fine, w, gamma := DealTree(g, domain, alphas[i], values[i], root0, root1);
      if !fine { ok := false; }
      words, leaf := words + [w], leaf + [gamma];
      i := i + 1;
    }
    assert words == AllWords(g, seed0, seed1, alphas[..|values|], Log2Ceil(domain), Log2Ceil(domain));
    assert leaf == Gammas(g, seed0, seed1, alphas[..|values|], Log2Ceil(domain), values);
    key0, key1 := Key(seed0, words, leaf), Key(seed1, words, leaf);
  }

  /**
   For every domain, list of points and matching list of values, the same seeds give the same two keys interactively
   and from the dealer, tree by tree, word by word and leaf by leaf.
   */
  method BothKeyGenerations(p0: Party, p1: Party, points0: seq<nat>, points1: seq<nat>, values0: seq<Block>, values1: seq<Block>,
                            seed0: Block, seed1: Block, alphas: seq<nat>)
    returns (ok: bool, shared0: Key, shared1: Key, dealt0: Key, dealt1: Key)
    requires Parties(p0, p1) && |alphas| == |values0| == |values1| == p0.numPoints
    requires SharesPoints(alphas, points0, points1, p0.domain)
    modifies p0, p1, p0.mult`otIdx, p1.mult`otIdx
    ensures ok <==> old(|p0.mult.choiceBits| > 0 && p0.mult.otIdx + p0.numPoints * p0.depth <= p0.mult.totalMults)
    ensures ok ==> shared0 == dealt0 == KeyOf(p0.g, 0, seed0, seed1, alphas, p0.domain, Shared(values0, values1))
    ensures ok ==> shared1 == dealt1 == KeyOf(p0.g, 1, seed0, seed1, alphas, p0.domain, Shared(values0, values1))
    ensures ok ==> p0.depth >= 1 && IsKey(dealt0, p0.numPoints, p0.depth) && IsKey(dealt1, p0.numPoints, p0.depth)
    ensures ok ==> |dealt0.leaf| == p0.numPoints
  {
    hide KeyOf, Log2Ceil, SharesPoint;
    ok, shared0, shared1 := GenerateShared(p0, p1, points0, points1, values0, values1, seed0, seed1, alphas);
    var fine;
    fine, dealt0, dealt1 := DealerKeys(p0.g, p0.domain, alphas, Shared(values0, values1), seed0, seed1);
    assert alphas[..|alphas|] == alphas;
    KeyShape(p0.g, 0, seed0, seed1, alphas, p0.domain, Shared(values0, values1));
    KeyShape(p0.g, 1, seed0, seed1, alphas, p0.domain, Shared(values0, values1));
    KeyLeaves(p0.g, seed0, seed1, alphas, p0.domain, Shared(values0, values1));
  }

  lemma KeyLeaves(g: Prg, seed0: Block, seed1: Block, alphas: seq<nat>, domain: nat, values: seq<Block>)
    requires Log2Ceil(domain) >= 1 && |values| == |alphas|
    ensures |KeyOf(g, 0, seed0, seed1, alphas, domain, values).leaf| == |alphas|
  {}

  /** Expanding dealt keys without interaction gives shares of the point functions. */
  method ExpandDealt(p0: Party, p1: Party, alphas: seq<nat>, values: seq<Block>, seed0: Block, seed1: Block)
    returns (out0: seq<seq<(Block, Block)>>, out1: seq<seq<(Block, Block)>>)
    requires p0 != p1 && p0.Valid() && p1.Valid() && p0.partyIdx == 0 && p1.partyIdx == 1 && p0.g == p1.g
    requires p0.domain == p1.domain && |alphas| == |values| == p0.numPoints == p1.numPoints
    requires forall k :: 0 <= k < |alphas| ==> alphas[k] < p0.domain
    modifies p0, p1
    ensures SharesOfAll(out0, out1, p0.domain, alphas, values)
  {
    hide Log2Ceil, SharesOf, Evaluated, KeyOf;
    var ok, key0, key1 := DealerKeys(p0.g, p0.domain, alphas, values, seed0, seed1);
    assert alphas[..|alphas|] == alphas;
    KeyShape(p0.g, 0, seed0, seed1, alphas, p0.domain, values);
    KeyShape(p0.g, 1, seed0, seed1, alphas, p0.domain, values);
    out0 := p0.ExpandKey(key0);
    out1 := p1.ExpandKey(key1);
    KeysEvaluate(p0.g, seed0, seed1, alphas, p0.domain, values, out0, out1);
  }
}
