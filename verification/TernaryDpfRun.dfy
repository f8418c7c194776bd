/**
 TernaryDpf.h, expand by the two parties on a list of points: every level, the last layer, and the output shares.
 */
module TernaryDpfRun {
  import opened Numbers
  import opened Wrappers
  import opened Blocks
  import opened TernaryDpf
  import T = DpfTree
  import M = DpfMult
  import R = RegularDpfRun

  /** The digits of the two shares add up to the trits of alpha. */
  ghost predicate SharesPoint(alpha: nat, point0: nat, point1: nat, depth: nat)
  {
    forall i: nat :: i < depth ==> Trit(alpha, i) == (Digit(point0, i) + Digit(point1, i)) % 3
  }

  /** The shared points are the listed ones, all inside the domain. */
  ghost predicate SharesPoints(alphas: seq<nat>, points0: seq<nat>, points1: seq<nat>, domain: nat)
  {
    && |alphas| == |points0| == |points1|
    && forall k :: 0 <= k < |alphas| ==> alphas[k] < domain && SharesPoint(alphas[k], points0[k], points1[k], Log3Ceil(domain))
  }

  ghost predicate ArePoints(points: seq<nat>, depth: nat)
  {
    forall k :: 0 <= k < |points| ==> IsPoint(points[k], depth)
  }

  // ------------------------------------------------------------- one tree

  /** One tree of both parties in front of the correction of level `iter`. */
  ghost predicate OnPath(l0: T.Level, l1: T.Level, alpha: nat, depth: nat, iter: nat)
    requires 1 <= iter <= depth
  {
    Raw(l0, l1, Prefix(alpha, depth, iter - 1)) && |l0.raw| == Pow(3, iter)
  }

  /** A correction word of level `iter` that both know. */
  ghost predicate Opened(l0: T.Level, l1: T.Level, sigma: Triple, alpha: nat, depth: nat, iter: nat)
    requires 1 <= iter <= depth
  {
    && OnPath(l0, l1, alpha, depth, iter)
    && Reveals(sigma, PathDifference(l0, l1, Prefix(alpha, depth, iter - 1)), Trit(alpha, depth - iter))
  }

  lemma PathShape(l0: T.Level, l1: T.Level, alpha: nat, depth: nat, iter: nat)
    requires 1 <= iter <= depth && OnPath(l0, l1, alpha, depth, iter)
    ensures |l0.raw| == 3 * |l0.tags| == 3 * |l1.tags| == |l1.raw| == Pow(3, iter)
  {}

  /** A known correction makes the level agree off the path. */
  lemma OpenedAgree(l0: T.Level, l1: T.Level, sigma: Triple, alpha: nat, depth: nat, iter: nat)
    requires 1 <= iter <= depth && Opened(l0, l1, sigma, alpha, depth, iter)
    ensures |l0.raw| == 3 * |l0.tags| == 3 * |l1.tags| == |l1.raw|
    ensures T.Agree(Corrected(l0.raw, l0.tags, sigma), Corrected(l1.raw, l1.tags, sigma), Prefix(alpha, depth, iter))
  {
    hide Reveals, Trit, T.Agree, Corrected, Prefix;
    PrefixStep(alpha, depth, iter);
    assert Raw(l0, l1, Prefix(alpha, depth, iter - 1));
    LevelCorrects(l0, l1, Prefix(alpha, depth, iter - 1), Trit(alpha, depth - iter), sigma);
  }

  lemma NextOnPath(g: Prg, l0: T.Level, l1: T.Level, sigma: Triple, alpha: nat, depth: nat, iter: nat)
    requires 1 <= iter < depth && Opened(l0, l1, sigma, alpha, depth, iter)
    ensures |l0.raw| == 3 * |l0.tags| == 3 * |l1.tags| == |l1.raw|
    ensures OnPath(Descend(g, Corrected(l0.raw, l0.tags, sigma)), Descend(g, Corrected(l1.raw, l1.tags, sigma)), alpha, depth, iter + 1)
  {
    hide Reveals, Trit, T.Agree, Corrected, Prefix, Raw;
    OpenedAgree(l0, l1, sigma, alpha, depth, iter);
    LevelExpands(g, Corrected(l0.raw, l0.tags, sigma), Corrected(l1.raw, l1.tags, sigma), Prefix(alpha, depth, iter));
    PathShape(l0, l1, alpha, depth, iter);
    assert Pow(3, iter + 1) == 3 * Pow(3, iter);
  }

  lemma DigitSmall(point: nat, depth: nat, i: nat)
    requires IsPoint(point, depth) && i < depth
    ensures Digit(point, i) < 3
  {}

  // ------------------------------------------------------------- all trees

  ghost predicate AllOnPath(ls0: seq<T.Level>, ls1: seq<T.Level>, alphas: seq<nat>, depth: nat, iter: nat)
    requires 1 <= iter <= depth
  {
    && IsLevels(ls0, |alphas|) && IsLevels(ls1, |alphas|)
    && forall k :: 0 <= k < |alphas| ==> OnPath(ls0[k], ls1[k], alphas[k], depth, iter)
  }

  ghost predicate AllOpened(ls0: seq<T.Level>, ls1: seq<T.Level>, sigma: seq<Triple>, alphas: seq<nat>, depth: nat, iter: nat)
    requires 1 <= iter <= depth
  {
    && AllOnPath(ls0, ls1, alphas, depth, iter) && |sigma| == |alphas|
    && forall k :: 0 <= k < |alphas| ==> Opened(ls0[k], ls1[k], sigma[k], alphas[k], depth, iter)
  }

  /** The levels below corrected ones. */
  ghost function Descended(g: Prg, ls: seq<T.Level>, sigma: seq<Triple>): (r: seq<T.Level>)
    requires IsLevels(ls, |sigma|)
    ensures IsLevels(r, |sigma|)
    ensures forall k :: 0 <= k < |sigma| ==> r[k] == Descend(g, Corrected(ls[k].raw, ls[k].tags, sigma[k]))
  {
    seq(|sigma|, k requires 0 <= k < |sigma| => Descend(g, Corrected(ls[k].raw, ls[k].tags, sigma[k])))
  }

  lemma AllNext(g: Prg, ls0: seq<T.Level>, ls1: seq<T.Level>, sigma: seq<Triple>, alphas: seq<nat>, depth: nat, iter: nat)
    requires 1 <= iter < depth && AllOpened(ls0, ls1, sigma, alphas, depth, iter)
    ensures IsLevels(ls0, |sigma|) && IsLevels(ls1, |sigma|)
    ensures AllOnPath(Descended(g, ls0, sigma), Descended(g, ls1, sigma), alphas, depth, iter + 1)
  {
    hide Opened, OnPath, Corrected, Descend;
    forall k | 0 <= k < |alphas|
      ensures OnPath(Descended(g, ls0, sigma)[k], Descended(g, ls1, sigma)[k], alphas[k], depth, iter + 1)
    {
      NextOnPath(g, ls0[k], ls1[k], sigma[k], alphas[k], depth, iter);
    }
  }

  /** The digits of all points at one level. */
  function Digits(points: seq<nat>, i: nat): (a: seq<nat>)
    ensures |a| == |points| && forall k :: 0 <= k < |a| ==> a[k] == Digit(points[k], i)
  {
    seq(|points|, k requires 0 <= k < |points| => Digit(points[k], i))
  }

  /** One round of the level loop up to the opened words. */
  method OpenLevel(p0: Party, p1: Party, points0: seq<nat>, points1: seq<nat>, draws0: seq<Block>, draws1: seq<Block>,
                   ghost ls0: seq<T.Level>, ghost ls1: seq<T.Level>, ghost alphas: seq<nat>, iter: nat)
    requires Parties(p0, p1) && 1 <= iter <= p0.depth && |alphas| == p0.numPoints && AllOnPath(ls0, ls1, alphas, p0.depth, iter)
    requires p0.Holds(ls0, iter) && p1.Holds(ls1, iter) && |draws0| == |draws1| == p0.numPoints
    requires ArePoints(points0, p0.depth) && ArePoints(points1, p0.depth) && SharesPoints(alphas, points0, points1, p0.domain)
    requires p0.otIdx + 2 * p0.numPoints <= |p0.choices| && p0.otIdx + 2 * p0.numPoints <= |p1.choices|
    modifies p0`sigma, p0`otIdx, p1`sigma, p1`otIdx
    ensures Parties(p0, p1) && p0.otIdx == old(p0.otIdx) + 2 * p0.numPoints
    ensures p0.sigma == p1.sigma && AllOpened(ls0, ls1, p0.sigma, alphas, p0.depth, iter)
    ensures forall k :: 0 <= k < p0.numPoints ==>
      IsWord(p0.sigma[k], Sums(ls0[k]), Sums(ls1[k]), Trit(alphas[k], p0.depth - iter), draws0[k], draws1[k])
  {
    hide Reveals, IsWord, Trit, Digit, Raw, Sums, IsPoint, Prefix, XorT, PathDifference, Log3Ceil, OnPath, M.Transferred, SharesPoint;
    var a0, a1 := Digits(points0, p0.depth - iter), Digits(points1, p0.depth - iter);
    forall k | 0 <= k < p0.numPoints
      ensures a0[k] < 3 && a1[k] < 3 && p0.z[k] == Sums(ls0[k]) && p1.z[k] == Sums(ls1[k])
    {
      DigitSmall(points0[k], p0.depth, p0.depth - iter);
      DigitSmall(points1[k], p0.depth, p0.depth - iter);
      assert Stands(p0.s[k], p0.z[k], ls0[k], iter) && Stands(p1.s[k], p1.z[k], ls1[k], iter);
    }
    TransferLengths(p0, p1);
    CorrectionRound(p0, p1, a0, a1, draws0, draws1);
    forall k | 0 <= k < p0.numPoints
      ensures Opened(ls0[k], ls1[k], p0.sigma[k], alphas[k], p0.depth, iter)
      ensures IsWord(p0.sigma[k], Sums(ls0[k]), Sums(ls1[k]), Trit(alphas[k], p0.depth - iter), draws0[k], draws1[k])
    {
      TritOf(alphas[k], points0[k], points1[k], p0.depth, p0.depth - iter);
      WordReveals(p0.sigma[k], Sums(ls0[k]), Sums(ls1[k]), (a0[k] + a1[k]) % 3, draws0[k], draws1[k]);
      OpenedTree(ls0[k], ls1[k], p0.sigma[k], alphas[k], points0[k], points1[k], p0.depth, iter);
    }
  }

  lemma TritOf(alpha: nat, point0: nat, point1: nat, depth: nat, i: nat)
    requires SharesPoint(alpha, point0, point1, depth) && i < depth
    ensures Trit(alpha, i) == (Digit(point0, i) + Digit(point1, i)) % 3
  {
    hide Trit, Digit;
  }

  lemma OpenedTree(l0: T.Level, l1: T.Level, sigma: Triple, alpha: nat, point0: nat, point1: nat, depth: nat, iter: nat)
    requires 1 <= iter <= depth && OnPath(l0, l1, alpha, depth, iter) && SharesPoint(alpha, point0, point1, depth)
    requires |l0.raw| == 3 * |l0.tags| && |l1.raw| == 3 * |l1.tags|
    requires Reveals(sigma, XorT(Sums(l0), Sums(l1)), (Digit(point0, depth - iter) + Digit(point1, depth - iter)) % 3)
    ensures Opened(l0, l1, sigma, alpha, depth, iter)
  {
    hide Reveals, Trit, Digit, Sums, XorT, PathDifference, Prefix, Raw;
    SumsDifference(l0, l1, Prefix(alpha, depth, iter - 1));
  }

  lemma TransferLengths(p0: Party, p1: Party)
    requires Parties(p0, p1)
    ensures |p0.recvOts| == |p0.choices| == |p1.sendOts| && |p1.recvOts| == |p1.choices| == |p0.sendOts|
  {}

  /** What a party holds of all trees in front of level `iter`. */
  ghost function Levels(g: Prg, party: nat, roots: seq<Triple>, words: seq<seq<Triple>>, iter: nat): (ls: seq<T.Level>)
    requires |words| == |roots| && iter >= 1 && forall k :: 0 <= k < |words| ==> iter <= |words[k]| + 1
    ensures IsLevels(ls, |roots|)
    ensures forall k :: 0 <= k < |roots| ==> ls[k] == LevelAt(g, party, roots[k], words[k], iter)
  {
    seq(|roots|, k requires 0 <= k < |roots| => LevelAt(g, party, roots[k], words[k], iter))
  }

  ghost function Appended(words: seq<seq<Triple>>, w: seq<Triple>): (r: seq<seq<Triple>>)
    requires |words| == |w|
    ensures |r| == |words| && forall k :: 0 <= k < |words| ==> r[k] == words[k] + [w[k]]
  {
    seq(|words|, k requires 0 <= k < |words| => words[k] + [w[k]])
  }

  /** The words of one tree are those that its levels, its point and the draws determine. */
  ghost predicate HasWords(g: Prg, root0: Triple, root1: Triple, words: seq<Triple>, alpha: nat, depth: nat,
                           draws0: seq<seq<Block>>, draws1: seq<seq<Block>>, k: nat)
  {
    && |words| <= depth && |words| <= |draws0| && |words| <= |draws1|
    && (forall iter :: 0 <= iter < |words| ==> k < |draws0[iter]| && k < |draws1[iter]|)
    && forall iter :: 1 <= iter <= |words| ==>
         IsWord(words[iter - 1], Sums(LevelAt(g, 0, root0, words, iter)), Sums(LevelAt(g, 1, root1, words, iter)),
                Trit(alpha, depth - iter), draws0[iter - 1][k], draws1[iter - 1][k])
  }

  lemma MoreWords(g: Prg, root0: Triple, root1: Triple, words: seq<Triple>, w: Triple, alpha: nat, depth: nat,
                  draws0: seq<seq<Block>>, draws1: seq<seq<Block>>, k: nat)
    requires HasWords(g, root0, root1, words, alpha, depth, draws0, draws1, k)
    requires |words| < depth && |words| < |draws0| && |words| < |draws1| && k < |draws0[|words|]| && k < |draws1[|words|]|
    requires IsWord(w, Sums(LevelAt(g, 0, root0, words, |words| + 1)), Sums(LevelAt(g, 1, root1, words, |words| + 1)),
                    Trit(alpha, depth - |words| - 1), draws0[|words|][k], draws1[|words|][k])
    ensures HasWords(g, root0, root1, words + [w], alpha, depth, draws0, draws1, k)
    ensures LevelAt(g, 0, root0, words + [w], |words| + 1) == LevelAt(g, 0, root0, words, |words| + 1)
    ensures LevelAt(g, 1, root1, words + [w], |words| + 1) == LevelAt(g, 1, root1, words, |words| + 1)
  {
    hide IsWord, Sums, LevelAt, Trit;
    forall iter | 1 <= iter <= |words| + 1
      ensures LevelAt(g, 0, root0, words + [w], iter) == LevelAt(g, 0, root0, words, iter)
      ensures LevelAt(g, 1, root1, words + [w], iter) == LevelAt(g, 1, root1, words, iter)
    {
      LevelPrefix(g, 0, root0, words, words + [w], iter);
      LevelPrefix(g, 1, root1, words, words + [w], iter);
    }
  }

  ghost predicate AllWords(g: Prg, roots0: seq<Triple>, roots1: seq<Triple>, words: seq<seq<Triple>>, alphas: seq<nat>, depth: nat,
                           draws0: seq<seq<Block>>, draws1: seq<seq<Block>>, n: nat)
  {
    && |words| == |roots0| == |roots1| == |alphas|
    && forall k :: 0 <= k < |words| ==>
         |words[k]| == n && HasWords(g, roots0[k], roots1[k], words[k], alphas[k], depth, draws0, draws1, k)
  }

  /**
   The word of level `iter` of tree `k`: the difference of the two parties' sums over all children with the same last
   trit; at alpha's own trit it is shifted by the two draws with opposite low bits.
   */
  lemma WordsMean(g: Prg, roots0: seq<Triple>, roots1: seq<Triple>, words: seq<seq<Triple>>, alphas: seq<nat>, depth: nat,
                  draws0: seq<seq<Block>>, draws1: seq<seq<Block>>, n: nat, k: nat, iter: nat, j: nat)
    requires AllWords(g, roots0, roots1, words, alphas, depth, draws0, draws1, n) && k < |words| && 1 <= iter <= n && j < 3
    ensures |words| == |roots0| == |roots1| == |alphas| && |words[k]| == n <= depth
    ensures n <= |draws0| && n <= |draws1| && k < |draws0[iter - 1]| && k < |draws1[iter - 1]|
    ensures var z0, z1 := Sums(LevelAt(g, 0, roots0[k], words[k], iter)), Sums(LevelAt(g, 1, roots1[k], words[k], iter));
      words[k][iter - 1][j] == Xor(Xor(z0[j], z1[j]), if j == Trit(alphas[k], depth - iter)
        then Xor(draws0[iter - 1][k][0 := false], draws1[iter - 1][k][0 := true]) else ZERO)
  {
    hide LevelAt, Sums, Xor, Trit;
    assert HasWords(g, roots0[k], roots1[k], words[k], alphas[k], depth, draws0, draws1, k);
    assert IsWord(words[k][iter - 1], Sums(LevelAt(g, 0, roots0[k], words[k], iter)), Sums(LevelAt(g, 1, roots1[k], words[k], iter)),
                  Trit(alphas[k], depth - iter), draws0[iter - 1][k], draws1[iter - 1][k]);
  }

  /** The words of a round join those before; the levels are those of the longer lists. */
  lemma AllMore(g: Prg, roots0: seq<Triple>, roots1: seq<Triple>, words: seq<seq<Triple>>, w: seq<Triple>, alphas: seq<nat>,
                depth: nat, draws0: seq<seq<Block>>, draws1: seq<seq<Block>>, n: nat)
    requires AllWords(g, roots0, roots1, words, alphas, depth, draws0, draws1, n) && |w| == |alphas| && n < depth
    requires AreDraws(draws0, depth, |alphas|) && AreDraws(draws1, depth, |alphas|)
    requires forall k :: 0 <= k < |alphas| ==>
      IsWord(w[k], Sums(Levels(g, 0, roots0, words, n + 1)[k]), Sums(Levels(g, 1, roots1, words, n + 1)[k]),
             Trit(alphas[k], depth - (n + 1)), draws0[n][k], draws1[n][k])
    ensures AllWords(g, roots0, roots1, Appended(words, w), alphas, depth, draws0, draws1, n + 1)
    ensures Levels(g, 0, roots0, words, n + 1) == Levels(g, 0, roots0, Appended(words, w), n + 1)
    ensures Levels(g, 1, roots1, words, n + 1) == Levels(g, 1, roots1, Appended(words, w), n + 1)
  {
    hide IsWord, Sums, LevelAt, Trit, HasWords;
    forall k | 0 <= k < |alphas|
      ensures HasWords(g, roots0[k], roots1[k], Appended(words, w)[k], alphas[k], depth, draws0, draws1, k)
      ensures Levels(g, 0, roots0, words, n + 1)[k] == Levels(g, 0, roots0, Appended(words, w), n + 1)[k]
      ensures Levels(g, 1, roots1, words, n + 1)[k] == Levels(g, 1, roots1, Appended(words, w), n + 1)[k]
    {
      MoreWords(g, roots0[k], roots1[k], words[k], w[k], alphas[k], depth, draws0, draws1, k);
    }
  }

  lemma NoWords(g: Prg, roots0: seq<Triple>, roots1: seq<Triple>, words: seq<seq<Triple>>, alphas: seq<nat>, depth: nat,
                draws0: seq<seq<Block>>, draws1: seq<seq<Block>>)
    requires |words| == |roots0| == |roots1| == |alphas| && forall k :: 0 <= k < |words| ==> words[k] == []
    ensures AllWords(g, roots0, roots1, words, alphas, depth, draws0, draws1, 0)
    ensures forall k :: 0 <= k < |words| ==> Levels(g, 0, roots0, words, 1)[k] == T.Level([Saturated(false)], roots0[k])
    ensures forall k :: 0 <= k < |words| ==> Levels(g, 1, roots1, words, 1)[k] == T.Level([Saturated(true)], roots1[k])
  {
    hide Saturated;
  }

  /** Corrected levels give the next ones. */
  lemma LevelsNext(g: Prg, party: nat, roots: seq<Triple>, words: seq<seq<Triple>>, sigma: seq<Triple>, iter: nat)
    requires |words| == |roots| == |sigma| && iter >= 1
    requires forall k :: 0 <= k < |words| ==> |words[k]| == iter && words[k][iter - 1] == sigma[k]
    ensures Descended(g, Levels(g, party, roots, words, iter), sigma) == Levels(g, party, roots, words, iter + 1)
  {
    hide Corrected, Descend;
    var ls := Levels(g, party, roots, words, iter);
    forall k | 0 <= k < |words|
      ensures Descended(g, ls, sigma)[k] == LevelAt(g, party, roots[k], words[k], iter + 1)
    {
      assert LevelAt(g, party, roots[k], words[k], iter + 1) == Descend(g, SeedsAt(g, party, roots[k], words[k], iter));
    }
  }

  lemma FirstOnPath(ls0: seq<T.Level>, ls1: seq<T.Level>, roots0: seq<Triple>, roots1: seq<Triple>, alphas: seq<nat>, depth: nat)
    requires depth >= 1 && |roots0| == |roots1| == |alphas| && forall k :: 0 <= k < |alphas| ==> alphas[k] < Pow(3, depth)
    requires IsLevels(ls0, |alphas|) && IsLevels(ls1, |alphas|)
    requires forall k :: 0 <= k < |alphas| ==> ls0[k] == T.Level([Saturated(false)], roots0[k])
    requires forall k :: 0 <= k < |alphas| ==> ls1[k] == T.Level([Saturated(true)], roots1[k])
    ensures AllOnPath(ls0, ls1, alphas, depth, 1)
  {
    hide Raw, Prefix;
    assert Pow(3, 1) == 3;
    forall k | 0 <= k < |alphas| ensures OnPath(ls0[k], ls1[k], alphas[k], depth, 1) {
      FirstLevel(roots0[k], roots1[k]);
      PrefixEnds(alphas[k], depth);
    }
  }

  ghost predicate AreDraws(draws: seq<seq<Block>>, depth: nat, n: nat)
  {
    |draws| == depth && forall i :: 0 <= i < depth ==> |draws[i]| == n
  }

  /** The transfers of the first `k` levels. */
  ghost function Uses(n: nat, k: nat): nat
  {
    MulNonNeg(2 * n, k);
    2 * n * k
  }

  lemma NextUse(n: nat, iter: nat, depth: nat)
    requires 1 <= iter <= depth
    ensures Uses(n, 0) == 0 && Uses(n, iter - 1) + 2 * n == Uses(n, iter) <= Uses(n, depth) == 2 * n * depth
  {
    MulMono(iter, depth, 2 * n);
  }

  /** Both parties in front of the correction of level `iter`, with the words before it. */
  ghost predicate Standing(p0: Party, p1: Party, roots0: seq<Triple>, roots1: seq<Triple>, words: seq<seq<Triple>>, alphas: seq<nat>,
                           draws0: seq<seq<Block>>, draws1: seq<seq<Block>>, iter: nat)
    reads p0, p1
  {
    && 1 <= iter <= p0.depth && |alphas| == |roots0| == |roots1| == p0.numPoints == p1.numPoints
    && AllWords(p0.g, roots0, roots1, words, alphas, p0.depth, draws0, draws1, iter - 1)
    && var ls0, ls1 := Levels(p0.g, 0, roots0, words, iter), Levels(p0.g, 1, roots1, words, iter);
       AllOnPath(ls0, ls1, alphas, p0.depth, iter) && p0.Holds(ls0, iter) && p1.Holds(ls1, iter)
  }

  method StartBoth(p0: Party, p1: Party, roots0: seq<Triple>, roots1: seq<Triple>, ghost words: seq<seq<Triple>>, ghost alphas: seq<nat>,
                   ghost draws0: seq<seq<Block>>, ghost draws1: seq<seq<Block>>)
    requires Parties(p0, p1) && p0.depth >= 1 && |words| == |alphas| == |roots0| == |roots1| == p0.numPoints
    requires (forall k :: 0 <= k < |alphas| ==> alphas[k] < p0.domain) && forall k :: 0 <= k < |words| ==> words[k] == []
    modifies p0`s, p0`z, p1`s, p1`z
    ensures Standing(p0, p1, roots0, roots1, words, alphas, draws0, draws1, 1)
  {
    hide Stands, Saturated, AllOnPath, Log3Ceil, M.Transferred, LevelAt, HasWords;
    p0.Start(roots0);
    p1.Start(roots1);
    NoWords(p0.g, roots0, roots1, words, alphas, p0.depth, draws0, draws1);
    AllBelow(alphas, p0.domain);
    FirstOnPath(Levels(p0.g, 0, roots0, words, 1), Levels(p0.g, 1, roots1, words, 1), roots0, roots1, alphas, p0.depth);
  }

  /** One round of the level loop and the move to the next level. */
  method Round(p0: Party, p1: Party, points0: seq<nat>, points1: seq<nat>, draws0: seq<seq<Block>>, draws1: seq<seq<Block>>,
               ghost roots0: seq<Triple>, ghost roots1: seq<Triple>, ghost words: seq<seq<Triple>>, ghost alphas: seq<nat>, iter: nat)
    returns (ghost next: seq<seq<Triple>>)
    requires Parties(p0, p1) && iter < p0.depth && Standing(p0, p1, roots0, roots1, words, alphas, draws0, draws1, iter)
    requires ArePoints(points0, p0.depth) && ArePoints(points1, p0.depth) && SharesPoints(alphas, points0, points1, p0.domain)
    requires p0.otIdx + 2 * p0.numPoints <= |p0.choices| && p0.otIdx + 2 * p0.numPoints <= |p1.choices|
    requires AreDraws(draws0, p0.depth, p0.numPoints) && AreDraws(draws1, p0.depth, p0.numPoints)
    modifies p0`sigma, p0`otIdx, p1`sigma, p1`otIdx, p0`s, p0`z, p1`s, p1`z
    ensures Parties(p0, p1) && p0.otIdx == old(p0.otIdx) + 2 * p0.numPoints
    ensures Standing(p0, p1, roots0, roots1, next, alphas, draws0, draws1, iter + 1)
  {
    hide M.Transferred, Log3Ceil, Stands, ArePoints, SharesPoint, HasWords, IsWord, Trit, Sums, LevelAt, AllOnPath, AllOpened, Descend,
      Corrected;
    ghost var ls0, ls1 := Levels(p0.g, 0, roots0, words, iter), Levels(p0.g, 1, roots1, words, iter);
    OpenLevel(p0, p1, points0, points1, draws0[iter - 1], draws1[iter - 1], ls0, ls1, alphas, iter);
    next := Moved(p0, p1, roots0, roots1, words, alphas, draws0, draws1, ls0, ls1, iter);
    p0.Advance(ls0, iter);
    p1.Advance(ls1, iter);
  }

  /** The last round. */
  method LastRound(p0: Party, p1: Party, points0: seq<nat>, points1: seq<nat>, draws0: seq<seq<Block>>, draws1: seq<seq<Block>>,
                   ghost roots0: seq<Triple>, ghost roots1: seq<Triple>, ghost words: seq<seq<Triple>>, ghost alphas: seq<nat>)
    returns (ghost last: seq<seq<Triple>>)
    requires Parties(p0, p1) && Standing(p0, p1, roots0, roots1, words, alphas, draws0, draws1, p0.depth)
    requires ArePoints(points0, p0.depth) && ArePoints(points1, p0.depth) && SharesPoints(alphas, points0, points1, p0.domain)
    requires p0.otIdx + 2 * p0.numPoints <= |p0.choices| && p0.otIdx + 2 * p0.numPoints <= |p1.choices|
    requires AreDraws(draws0, p0.depth, p0.numPoints) && AreDraws(draws1, p0.depth, p0.numPoints)
    modifies p0`sigma, p0`otIdx, p1`sigma, p1`otIdx
    ensures Parties(p0, p1) && p0.otIdx == old(p0.otIdx) + 2 * p0.numPoints
    ensures Finished(p0, p1, roots0, roots1, last, alphas, draws0, draws1)
  {
    hide M.Transferred, Log3Ceil, Stands, ArePoints, SharesPoint, HasWords, IsWord, Trit, Sums, LevelAt, AllOnPath, AllOpened;
    ghost var iter := p0.depth;
    ghost var ls0, ls1 := Levels(p0.g, 0, roots0, words, iter), Levels(p0.g, 1, roots1, words, iter);
    OpenLevel(p0, p1, points0, points1, draws0[p0.depth - 1], draws1[p0.depth - 1], ls0, ls1, alphas, p0.depth);
    Lengths(ls0, ls1, p0.sigma, alphas, iter, iter);
    AllMore(p0.g, roots0, roots1, words, p0.sigma, alphas, iter, draws0, draws1, iter - 1);
    last := Appended(words, p0.sigma);
  }

  /** Both parties after the last correction, with all words. */
  ghost predicate Finished(p0: Party, p1: Party, roots0: seq<Triple>, roots1: seq<Triple>, words: seq<seq<Triple>>, alphas: seq<nat>,
                           draws0: seq<seq<Block>>, draws1: seq<seq<Block>>)
    reads p0, p1
  {
    && p0.depth >= 1 && |alphas| == |roots0| == |roots1| == p0.numPoints == p1.numPoints
    && AllWords(p0.g, roots0, roots1, words, alphas, p0.depth, draws0, draws1, p0.depth)
    && p0.sigma == p1.sigma && |p0.sigma| == p0.numPoints
    && (forall k :: 0 <= k < p0.numPoints ==> |words[k]| == p0.depth && p0.sigma[k] == words[k][p0.depth - 1])
    && p1.depth == p0.depth
    && var ls0, ls1 := Levels(p0.g, 0, roots0, words, p0.depth), Levels(p0.g, 1, roots1, words, p0.depth);
       AllOpened(ls0, ls1, p0.sigma, alphas, p0.depth, p0.depth) && p0.Holds(ls0, p0.depth) && p1.Holds(ls1, p0.depth)
  }

  /** Every level of the protocol; level `iter` uses two transfers to a tree. */
  method RunLevels(p0: Party, p1: Party, points0: seq<nat>, points1: seq<nat>, roots0: seq<Triple>, roots1: seq<Triple>,
                   draws0: seq<seq<Block>>, draws1: seq<seq<Block>>, ghost alphas: seq<nat>)
    returns (ghost words: seq<seq<Triple>>)
    requires Parties(p0, p1) && p0.depth >= 1 && |alphas| == |roots0| == |roots1| == p0.numPoints
    requires ArePoints(points0, p0.depth) && ArePoints(points1, p0.depth) && SharesPoints(alphas, points0, points1, p0.domain)
    requires p0.otIdx + 2 * p0.numPoints * p0.depth <= |p0.choices| && p0.otIdx + 2 * p0.numPoints * p0.depth <= |p1.choices|
    requires AreDraws(draws0, p0.depth, p0.numPoints) && AreDraws(draws1, p0.depth, p0.numPoints)
    modifies p0, p1
    ensures Parties(p0, p1) && p0.otIdx == old(p0.otIdx) + 2 * p0.numPoints * p0.depth
    ensures Finished(p0, p1, roots0, roots1, words, alphas, draws0, draws1)
  {
    hide M.Transferred, Log3Ceil, ArePoints, SharesPoint, Standing, Finished, AreDraws, Uses;
    var depth, n := p0.depth, p0.numPoints;
    words := seq(n, _ => []);
    StartBoth(p0, p1, roots0, roots1, words, alphas, draws0, draws1);
    NextUse(n, 1, depth);
    var iter := 1;
    while iter < depth
      invariant 1 <= iter <= depth && Parties(p0, p1) && Standing(p0, p1, roots0, roots1, words, alphas, draws0, draws1, iter)
      invariant p0.otIdx == old(p0.otIdx) + Uses(n, iter - 1)
      invariant p0.choices == old(p0.choices) && p1.choices == old(p1.choices)
    {
      NextUse(n, iter, depth);
      words := Round(p0, p1, points0, points1, draws0, draws1, roots0, roots1, words, alphas, iter);
      iter := iter + 1;
    }
    NextUse(n, depth, depth);
    words := LastRound(p0, p1, points0, points1, draws0, draws1, roots0, roots1, words, alphas);
  }

  lemma Lengths(ls0: seq<T.Level>, ls1: seq<T.Level>, sigma: seq<Triple>, alphas: seq<nat>, depth: nat, iter: nat)
    requires 1 <= iter <= depth && AllOpened(ls0, ls1, sigma, alphas, depth, iter)
    ensures |sigma| == |alphas|
  {}

  /** The opened words join the lists, and the levels move on with them. */
  lemma Moved(p0: Party, p1: Party, roots0: seq<Triple>, roots1: seq<Triple>, words: seq<seq<Triple>>, alphas: seq<nat>,
              draws0: seq<seq<Block>>, draws1: seq<seq<Block>>, ls0: seq<T.Level>, ls1: seq<T.Level>, iter: nat)
    returns (next: seq<seq<Triple>>)
    requires 1 <= iter < p0.depth && |alphas| == p0.numPoints && p0.sigma == p1.sigma
    requires AllWords(p0.g, roots0, roots1, words, alphas, p0.depth, draws0, draws1, iter - 1)
    requires AreDraws(draws0, p0.depth, |alphas|) && AreDraws(draws1, p0.depth, |alphas|)
    requires ls0 == Levels(p0.g, 0, roots0, words, iter) && ls1 == Levels(p0.g, 1, roots1, words, iter)
    requires AllOpened(ls0, ls1, p0.sigma, alphas, p0.depth, iter)
    requires forall k :: 0 <= k < |alphas| ==>
      IsWord(p0.sigma[k], Sums(ls0[k]), Sums(ls1[k]), Trit(alphas[k], p0.depth - iter), draws0[iter - 1][k], draws1[iter - 1][k])
    ensures AllWords(p0.g, roots0, roots1, next, alphas, p0.depth, draws0, draws1, iter)
    ensures IsLevels(ls0, |p0.sigma|) && IsLevels(ls1, |p0.sigma|) && |p0.sigma| == |alphas|
    ensures Descended(p0.g, ls0, p0.sigma) == Levels(p0.g, 0, roots0, next, iter + 1)
    ensures Descended(p0.g, ls1, p0.sigma) == Levels(p0.g, 1, roots1, next, iter + 1)
    ensures AllOnPath(Descended(p0.g, ls0, p0.sigma), Descended(p0.g, ls1, p0.sigma), alphas, p0.depth, iter + 1)
  {
    hide Reveals, Corrected, Descend, OnPath, Opened, HasWords, IsWord, Trit, Sums, LevelAt;
    next := Appended(words, p0.sigma);
    AllMore(p0.g, roots0, roots1, words, p0.sigma, alphas, p0.depth, draws0, draws1, iter - 1);
    LevelsNext(p0.g, 0, roots0, next, p0.sigma, iter);
    LevelsNext(p0.g, 1, roots1, next, p0.sigma, iter);
    AllNext(p0.g, ls0, ls1, p0.sigma, alphas, p0.depth, iter);
  }

  lemma AllBelow(alphas: seq<nat>, domain: nat)
    requires forall k :: 0 <= k < |alphas| ==> alphas[k] < domain
    ensures forall k :: 0 <= k < |alphas| ==> alphas[k] < Pow(3, Log3Ceil(domain))
  {
    Log3CeilBound(domain);
  }

  /** Shares of the point function: `value` and tag one at alpha, nothing elsewhere. */
  ghost predicate SharesOf(out0: seq<(Block, bool)>, out1: seq<(Block, bool)>, domain: nat, alpha: nat, value: Option<Block>)
  {
    && |out0| == |out1| == domain
    && forall i :: 0 <= i < domain ==>
         && (out0[i].1 != out1[i].1 <==> i == alpha)
         && (i != alpha ==> Xor(out0[i].0, out1[i].0) == ZERO)
         && (i == alpha && value.Some? ==> Xor(out0[i].0, out1[i].0) == value.value)
  }

  /** Shares of every point function of the list. */
  ghost predicate SharesOfAll(out0: seq<seq<(Block, bool)>>, out1: seq<seq<(Block, bool)>>, domain: nat, alphas: seq<nat>, values: seq<Block>)
    requires values == [] || |values| == |alphas|
  {
    && |out0| == |out1| == |alphas|
    && forall k :: 0 <= k < |alphas| ==> SharesOf(out0[k], out1[k], domain, alphas[k], Entry(values, k))
  }

  /** The outputs of tree `k` at position `i`: opposite tags and the value at alpha, nothing elsewhere. */
  lemma SharesMean(out0: seq<seq<(Block, bool)>>, out1: seq<seq<(Block, bool)>>, domain: nat, alphas: seq<nat>, values: seq<Block>,
                   k: nat, i: nat, j: nat)
    requires (values == [] || |values| == |alphas|) && SharesOfAll(out0, out1, domain, alphas, values)
    requires k < |alphas| && i < domain && j < 128
    ensures |out0| == |out1| == |alphas| && |out0[k]| == |out1[k]| == domain
    ensures out0[k][i].1 != out1[k][i].1 <==> i == alphas[k]
    ensures i != alphas[k] ==> out0[k][i].0 == out1[k][i].0
    ensures i == alphas[k] && values != [] ==> values[k][j] == (out0[k][i].0[j] != out1[k][i].0[j])
  {
    assert SharesOf(out0[k], out1[k], domain, alphas[k], Entry(values, k));
    XorZero(out0[k][i].0, out1[k][i].0);
    BlockBits(out0[k][i].0, out1[k][i].0, true, j);
  }

  /** A shared point, trit by trit. */
  lemma PointMeans(alpha: nat, point0: nat, point1: nat, depth: nat, i: nat)
    requires SharesPoint(alpha, point0, point1, depth) && i < depth
    ensures Pow(3, i) > 0 && Pow(4, i) > 0
    ensures alpha / Pow(3, i) % 3 == (point0 / Pow(4, i) % 4 + point1 / Pow(4, i) % 4) % 3
  {
    DigitsWritten(alpha, i);
    DigitsWritten(point0, i);
    DigitsWritten(point1, i);
    hide Pow, Digit, Trit;
  }

  lemma PointFrom(alpha: nat, point0: nat, point1: nat, depth: nat)
    requires forall i: nat :: Pow(3, i) > 0 && Pow(4, i) > 0
    requires forall i: nat :: i < depth ==> alpha / Pow(3, i) % 3 == (point0 / Pow(4, i) % 4 + point1 / Pow(4, i) % 4) % 3
    ensures SharesPoint(alpha, point0, point1, depth)
  {
    hide Pow, Digit, Trit;
    forall i: nat | i < depth ensures Trit(alpha, i) == (Digit(point0, i) + Digit(point1, i)) % 3 {
      DigitsWritten(alpha, i);
      DigitsWritten(point0, i);
      DigitsWritten(point1, i);
    }
  }

  /** What a share may be: base-four digits below three, and nothing above them. */
  lemma ShareDigits(point: nat, depth: nat, i: nat)
    requires IsPoint(point, depth) && i < depth
    ensures Pow(4, i) > 0 && Pow(4, depth) > 0 && point / Pow(4, i) % 4 != 3 && point / Pow(4, depth) == 0
  {
    DigitsWritten(point, i);
    hide Pow, Digit;
  }

  lemma ShareFromDigits(point: nat, depth: nat)
    requires forall i: nat :: Pow(4, i) > 0
    requires point / Pow(4, depth) == 0 && forall i: nat :: i < depth ==> point / Pow(4, i) % 4 != 3
    ensures IsPoint(point, depth)
  {
    hide Pow, Digit;
    forall i: nat | i < depth ensures Digit(point, i) != 3 { DigitsWritten(point, i); }
  }

  lemma PointsMean(alphas: seq<nat>, points0: seq<nat>, points1: seq<nat>, domain: nat)
    ensures SharesPoints(alphas, points0, points1, domain) <==>
      && |alphas| == |points0| == |points1|
      && forall k :: 0 <= k < |alphas| ==> alphas[k] < domain && SharesPoint(alphas[k], points0[k], points1[k], Log3Ceil(domain))
    ensures ArePoints(points0, Log3Ceil(domain)) <==> forall k :: 0 <= k < |points0| ==> IsPoint(points0[k], Log3Ceil(domain))
  {
    hide SharesPoint, IsPoint, Log3Ceil;
  }

  /** The leaves of two trees that agree off alpha. */
  lemma LeavesShare(g: Prg, c0: seq<Block>, c1: seq<Block>, alpha: nat, domain: nat, leaves0: seq<Block>, leaves1: seq<Block>,
                    tags0: seq<bool>, tags1: seq<bool>, sum0: Block, sum1: Block)
    requires T.Agree(c0, c1, alpha) && alpha < domain
    requires IsLastLayer(g, c0, domain, leaves0, tags0, sum0) && IsLastLayer(g, c1, domain, leaves1, tags1, sum1)
    ensures forall i :: 0 <= i < domain && i != alpha ==> leaves0[i] == leaves1[i] && tags0[i] == tags1[i]
    ensures tags0[alpha] != tags1[alpha]
    ensures Xor(sum0, sum1) == Xor(leaves0[alpha], leaves1[alpha])
  {
    hide Xor, Lsb, XorSum;
    R.LeafSum(leaves0, leaves1, alpha, domain);
  }

  /** Exactly one party adds the correction on the path. */
  lemma OutputsShare(leaves0: seq<Block>, leaves1: seq<Block>, tags0: seq<bool>, tags1: seq<bool>, domain: nat, alpha: nat,
                     value: Option<Block>, gamma: Option<Block>, out0: seq<(Block, bool)>, out1: seq<(Block, bool)>)
    requires |leaves0| == |tags0| == |leaves1| == |tags1| == |out0| == |out1| == domain && alpha < domain
    requires forall i :: 0 <= i < domain && i != alpha ==> leaves0[i] == leaves1[i] && tags0[i] == tags1[i]
    requires tags0[alpha] != tags1[alpha]
    requires gamma.Some? <==> value.Some?
    requires gamma.Some? ==> gamma.value == Xor(value.value, Xor(leaves0[alpha], leaves1[alpha]))
    requires IsOutput(out0, leaves0, tags0, gamma) && IsOutput(out1, leaves1, tags1, gamma)
    ensures SharesOf(out0, out1, domain, alpha, value)
  {
    hide Xor, And, Saturated;
    forall i | 0 <= i < domain
      ensures i != alpha ==> Xor(out0[i].0, out1[i].0) == ZERO
      ensures i == alpha && value.Some? ==> Xor(out0[i].0, out1[i].0) == value.value
    {
      if i != alpha {
        XorZero(out0[i].0, out1[i].0);
      } else if value.Some? {
        OneParty(value.value, leaves0[i], leaves1[i], tags0[i]);
      }
    }
  }

  lemma OneParty(v: Block, l0: Block, l1: Block, t: bool)
    ensures Xor(Xor(And(Xor(v, Xor(l0, l1)), Saturated(t)), l0), Xor(And(Xor(v, Xor(l0, l1)), Saturated(!t)), l1)) == v
  {
    assert Xor(Xor(And(Xor(v, Xor(l0, l1)), Saturated(t)), l0), Xor(And(Xor(v, Xor(l0, l1)), Saturated(!t)), l1)) == v;
  }

  /** What both compute from the masked sums of one tree. */
  lemma GammaOpens(v0: Block, v1: Block, sum0: Block, sum1: Block, l0: Block, l1: Block)
    requires Xor(sum0, sum1) == Xor(l0, l1)
    ensures Xor(Xor(Xor(v1, sum1), sum0), v0) == Xor(Xor(Xor(v0, sum0), sum1), v1) == Xor(Xor(v0, v1), Xor(l0, l1))
  {
    assert Xor(Xor(Xor(v1, sum1), sum0), v0) == Xor(Xor(v0, v1), Xor(sum0, sum1));
    assert Xor(Xor(Xor(v0, sum0), sum1), v1) == Xor(Xor(v0, v1), Xor(sum0, sum1));
  }

  /** One tree from its last level to its outputs. */
  lemma TreeShares(g: Prg, l0: T.Level, l1: T.Level, sigma: Triple, alpha: nat, domain: nat, leaves0: seq<Block>, leaves1: seq<Block>,
                   tags0: seq<bool>, tags1: seq<bool>, sum0: Block, sum1: Block, v0: Block, v1: Block, gamma: Option<Block>,
                   out0: seq<(Block, bool)>, out1: seq<(Block, bool)>)
    requires 1 <= Log3Ceil(domain) && alpha < domain && Opened(l0, l1, sigma, alpha, Log3Ceil(domain), Log3Ceil(domain))
    requires |l0.raw| == 3 * |l0.tags| && |l1.raw| == 3 * |l1.tags|
    requires IsLastLayer(g, Corrected(l0.raw, l0.tags, sigma), domain, leaves0, tags0, sum0)
    requires IsLastLayer(g, Corrected(l1.raw, l1.tags, sigma), domain, leaves1, tags1, sum1)
    requires gamma.Some? ==> gamma.value == Xor(Xor(Xor(v1, sum1), sum0), v0)
    requires IsOutput(out0, leaves0, tags0, gamma) && IsOutput(out1, leaves1, tags1, gamma)
    ensures SharesOf(out0, out1, domain, alpha, if gamma.Some? then Some(Xor(v0, v1)) else None)
  {
    hide Xor, Lsb, Opened, Corrected, T.Agree, XorSum, SharesOf, Log3Ceil, Prefix;
    var depth := Log3Ceil(domain);
    Log3CeilBound(domain);
    OpenedAgree(l0, l1, sigma, alpha, depth, depth);
    PrefixEnds(alpha, depth);
    LeavesShare(g, Corrected(l0.raw, l0.tags, sigma), Corrected(l1.raw, l1.tags, sigma), alpha, domain, leaves0, leaves1, tags0, tags1, sum0, sum1);
    GammaOpens(v0, v1, sum0, sum1, leaves0[alpha], leaves1[alpha]);
    OutputsShare(leaves0, leaves1, tags0, tags1, domain, alpha, if gamma.Some? then Some(Xor(v0, v1)) else None, gamma, out0, out1);
  }

  /** The domain of one point: the values or a draw, with the party index as tag. */
  method Trivial(p: Party, values: seq<Block>, roots: seq<Triple>) returns (out: seq<seq<(Block, bool)>>)
    requires |roots| == p.numPoints && (values == [] || |values| == p.numPoints)
    ensures |out| == p.numPoints
    ensures forall k :: 0 <= k < p.numPoints ==> out[k] == [(if values == [] then roots[k][0] else values[k], p.partyIdx == 1)]
  {
    out := [];
    var k := 0;
    while k < p.numPoints
      invariant 0 <= k <= p.numPoints && |out| == k
      invariant forall j :: 0 <= j < k ==> out[j] == [(if values == [] then roots[j][0] else values[j], p.partyIdx == 1)]
    {
      out := out + [[(if |values| != 0 then values[k] else roots[k][0], p.partyIdx == 1)]];
      k := k + 1;
    }
  }

  /** The masked sums, sent and opened. */
  method OpenGammas(values0: seq<Block>, values1: seq<Block>, sum0: seq<Block>, sum1: seq<Block>)
    returns (gamma0: seq<Block>, gamma1: seq<Block>)
    requires |values0| == |values1| == |sum0| == |sum1|
    ensures gamma0 == R.Shared(R.Shared(R.Shared(values1, sum1), sum0), values0)
    ensures gamma1 == R.Shared(R.Shared(R.Shared(values0, sum0), sum1), values1)
  {
    var diff0, diff1 := R.Shared(values0, sum0), R.Shared(values1, sum1);
    gamma0, gamma1 := R.Shared(R.Shared(diff1, sum0), values0), R.Shared(R.Shared(diff0, sum1), values1);
  }

  /** The last layer, the opening of the leaf corrections, and the outputs. */
  method LastLevel(p0: Party, p1: Party, values0: seq<Block>, values1: seq<Block>, ghost roots0: seq<Triple>, ghost roots1: seq<Triple>,
                   ghost words: seq<seq<Triple>>, ghost draws0: seq<seq<Block>>, ghost draws1: seq<seq<Block>>, ghost alphas: seq<nat>)
    returns (out0: seq<seq<(Block, bool)>>, out1: seq<seq<(Block, bool)>>, ghost gammas: seq<Block>)
    requires Parties(p0, p1) && p0.domain > 1 && Finished(p0, p1, roots0, roots1, words, alphas, draws0, draws1)
    requires |values0| == |values1| && (|values0| == 0 || |values0| == p0.numPoints)
    requires forall k :: 0 <= k < |alphas| ==> alphas[k] < p0.domain
    ensures |out0| == |out1| == |words| == p0.numPoints && |gammas| == |values0|
    ensures forall k :: 0 <= k < p0.numPoints ==>
      && |words[k]| == p0.depth >= 1
      && SharesOf(out0[k], out1[k], p0.domain, alphas[k], Entry(R.Shared(values0, values1), k))
      && IsEvaluated(out0[k], p0.g, SeedsAt(p0.g, 0, roots0[k], words[k], p0.depth), Entry(gammas, k), p0.domain)
      && IsEvaluated(out1[k], p0.g, SeedsAt(p0.g, 1, roots1[k], words[k], p0.depth), Entry(gammas, k), p0.domain)
  {
    hide Xor, Corrected, M.Transferred, Log3Ceil, Pow, Opened, SharesOf, SharesPoint, IsLastLayer, IsOutput, IsPoint, Stands, OnPath,
      HasWords, IsEvaluated, SeedsAt, LevelAt, AllOnPath;
    DepthOf(p0.domain);
    ghost var ls0, ls1 := Levels(p0.g, 0, roots0, words, p0.depth), Levels(p0.g, 1, roots1, words, p0.depth);
    LastShapes(ls0, ls1, p0.sigma, alphas, p0.domain);
    var leaves0, tags0, sum0 := p0.LastLayer(ls0);
    var leaves1, tags1, sum1 := p1.LastLayer(ls1);
    var gamma0, gamma1: seq<Block> := [], [];
    if |values0| != 0 { gamma0, gamma1 := OpenGammas(values0, values1, sum0, sum1); }
    SameGammas(p0.g, ls0, ls1, p0.sigma, alphas, p0.domain, leaves0, leaves1, tags0, tags1, sum0, sum1, values0, values1, gamma0, gamma1);
    gammas := gamma0;
    out0 := p0.Output(leaves0, tags0, gamma0);
    out1 := p1.Output(leaves1, tags1, gamma1);
    forall k | 0 <= k < |alphas|
      ensures SharesOf(out0[k], out1[k], p0.domain, alphas[k], Entry(R.Shared(values0, values1), k))
      ensures IsEvaluated(out0[k], p0.g, SeedsAt(p0.g, 0, roots0[k], words[k], p0.depth), Entry(gammas, k), p0.domain)
      ensures IsEvaluated(out1[k], p0.g, SeedsAt(p0.g, 1, roots1[k], words[k], p0.depth), Entry(gammas, k), p0.domain)
    {
      TreeShares(p0.g, ls0[k], ls1[k], p0.sigma[k], alphas[k], p0.domain, leaves0[k], leaves1[k], tags0[k], tags1[k],
                 sum0[k], sum1[k], if |values0| != 0 then values0[k] else ZERO, if |values0| != 0 then values1[k] else ZERO,
                 Entry(gamma0, k), out0[k], out1[k]);
      LastSeeds(p0.g, 0, roots0[k], words[k]);
      LastSeeds(p0.g, 1, roots1[k], words[k]);
      EvaluatedIs(p0.g, SeedsAt(p0.g, 0, roots0[k], words[k], p0.depth), p0.domain, leaves0[k], tags0[k], sum0[k], Entry(gamma0, k), out0[k]);
      EvaluatedIs(p0.g, SeedsAt(p0.g, 1, roots1[k], words[k], p0.depth), p0.domain, leaves1[k], tags1[k], sum1[k], Entry(gamma0, k), out1[k]);
    }
  }

  /**
   expand for a list of points: refused exactly on lists of a wrong size, or when a point share is malformed and the
   domain is not the trivial one. Otherwise the outputs are shares of the point functions at the digit-wise sums of
   the shares: the expansions of the two trees under the words that the levels and draws determine, corrected by a
   common block.
   */
  method ExpandShared(p0: Party, p1: Party, points0: seq<nat>, points1: seq<nat>, values0: seq<Block>, values1: seq<Block>,
                      roots0: seq<Triple>, roots1: seq<Triple>, draws0: seq<seq<Block>>, draws1: seq<seq<Block>>, ghost alphas: seq<nat>)
    returns (ok: bool, out0: seq<seq<(Block, bool)>>, out1: seq<seq<(Block, bool)>>,
             ghost words: seq<seq<Triple>>, ghost gammas: seq<Block>)
    requires Parties(p0, p1) && SharesPoints(alphas, points0, points1, p0.domain) && |values0| == |values1|
    requires p0.otIdx + 2 * p0.numPoints * p0.depth <= |p0.choices| && p0.otIdx + 2 * p0.numPoints * p0.depth <= |p1.choices|
    requires |roots0| == |roots1| == p0.numPoints
    requires AreDraws(draws0, p0.depth, p0.numPoints) && AreDraws(draws1, p0.depth, p0.numPoints)
    modifies p0, p1
    ensures ok <==>
      && |points0| == p0.numPoints && (|values0| == 0 || |values0| == p0.numPoints)
      && (p0.domain == 1 || (ArePoints(points0, p0.depth) && ArePoints(points1, p0.depth)))
    ensures ok ==> SharesOfAll(out0, out1, p0.domain, alphas, R.Shared(values0, values1))
    ensures ok ==> |out0| == |out1| == p0.numPoints && |gammas| == |values0|
    ensures ok && p0.domain == 1 ==> forall k :: 0 <= k < p0.numPoints ==>
      && out0[k] == [(if values0 == [] then roots0[k][0] else values0[k], false)]
      && out1[k] == [(if values1 == [] then roots1[k][0] else values1[k], true)]
    ensures ok && p0.domain > 1 ==>
      p0.depth >= 1 && AllWords(p0.g, roots0, roots1, words, alphas, p0.depth, draws0, draws1, p0.depth)
    ensures ok && p0.domain > 1 ==> forall k :: 0 <= k < p0.numPoints ==>
      && IsEvaluated(out0[k], p0.g, SeedsAt(p0.g, 0, roots0[k], words[k], p0.depth), Entry(gammas, k), p0.domain)
      && IsEvaluated(out1[k], p0.g, SeedsAt(p0.g, 1, roots1[k], words[k], p0.depth), Entry(gammas, k), p0.domain)
    ensures ok && p0.domain > 1 ==> p0.otIdx == p1.otIdx == old(p0.otIdx) + 2 * p0.numPoints * p0.depth
  {
    hide Xor, Corrected, M.Transferred, Log3Ceil, Pow, Opened, SharesOf, SharesPoint, IsLastLayer, IsOutput, IsPoint, Stands, OnPath,
      HasWords, IsEvaluated, SeedsAt, LevelAt, AllOnPath;
    out0, out1, words, gammas, ok := [], [], [], [], false;
    if |points0| != p0.numPoints || (|values0| != 0 && |values0| != p0.numPoints) { return; }
    var values := R.Shared(values0, values1);
    if p0.domain == 1 {
      gammas := values;
      out0 := Trivial(p0, values0, roots0);
      out1 := Trivial(p1, values1, roots1);
      forall k | 0 <= k < |alphas| ensures SharesOf(out0[k], out1[k], 1, alphas[k], Entry(values, k)) {
        TrivialShares(out0[k], out1[k], alphas[k], Entry(values, k));
      }
      ok := true;
      return;
    }
    var ok0 := p0.PointsValid(points0);
    var ok1 := p1.PointsValid(points1);
    if !ok0 || !ok1 { return; }
    DepthOf(p0.domain);
    words := RunLevels(p0, p1, points0, points1, roots0, roots1, draws0, draws1, alphas);
    out0, out1, gammas := LastLevel(p0, p1, values0, values1, roots0, roots1, words, draws0, draws1, alphas);
    ok := true;
  }

  lemma LastSeeds(g: Prg, party: nat, root: Triple, words: seq<Triple>)
    requires |words| >= 1
    ensures var l := LevelAt(g, party, root, words, |words|);
      SeedsAt(g, party, root, words, |words|) == Corrected(l.raw, l.tags, words[|words| - 1])
  {}

  lemma LastShapes(ls0: seq<T.Level>, ls1: seq<T.Level>, sigma: seq<Triple>, alphas: seq<nat>, domain: nat)
    requires Log3Ceil(domain) >= 1 && AllOpened(ls0, ls1, sigma, alphas, Log3Ceil(domain), Log3Ceil(domain))
    ensures IsLevels(ls0, |alphas|) && IsLevels(ls1, |alphas|)
    ensures forall k :: 0 <= k < |alphas| ==> |ls0[k].raw| >= domain && |ls1[k].raw| >= domain
  {
    hide OnPath, Opened;
    Log3CeilBound(domain);
    forall k | 0 <= k < |alphas| ensures |ls0[k].raw| >= domain && |ls1[k].raw| >= domain {
      PathShape(ls0[k], ls1[k], alphas[k], Log3Ceil(domain), Log3Ceil(domain));
    }
  }

  /** Both parties open the same leaf corrections, and every tree has one tag to a leaf. */
  lemma SameGammas(g: Prg, ls0: seq<T.Level>, ls1: seq<T.Level>, sigma: seq<Triple>, alphas: seq<nat>, domain: nat,
                   leaves0: seq<seq<Block>>, leaves1: seq<seq<Block>>, tags0: seq<seq<bool>>, tags1: seq<seq<bool>>,
                   sum0: seq<Block>, sum1: seq<Block>, values0: seq<Block>, values1: seq<Block>, gamma0: seq<Block>, gamma1: seq<Block>)
    requires |ls0| == |ls1| == |sigma| == |leaves0| == |leaves1| == |tags0| == |tags1| == |sum0| == |sum1| == |alphas|
    requires IsLevels(ls0, |alphas|) && IsLevels(ls1, |alphas|)
    requires forall k :: 0 <= k < |alphas| ==>
      && IsLastLayer(g, Corrected(ls0[k].raw, ls0[k].tags, sigma[k]), domain, leaves0[k], tags0[k], sum0[k])
      && IsLastLayer(g, Corrected(ls1[k].raw, ls1[k].tags, sigma[k]), domain, leaves1[k], tags1[k], sum1[k])
    requires values0 == [] ==> gamma0 == gamma1 == []
    requires values0 != [] ==>
      |values0| == |values1| == |alphas| && gamma0 == R.Shared(R.Shared(R.Shared(values1, sum1), sum0), values0)
    requires values0 != [] ==>
      |values0| == |values1| == |alphas| && gamma1 == R.Shared(R.Shared(R.Shared(values0, sum0), sum1), values1)
    ensures gamma0 == gamma1
    ensures forall k :: 0 <= k < |alphas| ==> |leaves0[k]| == |tags0[k]| && |leaves1[k]| == |tags1[k]|
  {
    hide Xor, XorSum, Corrected;
    if values0 != [] {
      forall k | 0 <= k < |alphas| ensures gamma0[k] == gamma1[k] {
        GammaOrder(values0[k], values1[k], sum0[k], sum1[k]);
      }
    }
  }

  lemma GammaOrder(v0: Block, v1: Block, sum0: Block, sum1: Block)
    ensures Xor(Xor(Xor(v1, sum1), sum0), v0) == Xor(Xor(Xor(v0, sum0), sum1), v1)
  {}

  lemma TrivialShares(out0: seq<(Block, bool)>, out1: seq<(Block, bool)>, alpha: nat, value: Option<Block>)
    requires |out0| == |out1| == 1 && alpha == 0 && !out0[0].1 && out1[0].1
    requires value.Some? ==> value.value == Xor(out0[0].0, out1[0].0)
    ensures SharesOf(out0, out1, 1, alpha, value)
  {}

  lemma DepthOf(domain: nat)
    requires domain > 1
    ensures Log3Ceil(domain) >= 1 && Pow(3, Log3Ceil(domain)) >= domain
  {
    Log3CeilBound(domain);
  }
}
