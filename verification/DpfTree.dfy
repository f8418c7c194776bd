/**
 The binary tree behind the regular distributed point function: what one party computes from given
 correction words, what the dealer computes along the path, and why the two parties' trees differ on
 the path only. Three of the block functions stand for the AES-based expansion, and
 `stream` for the generator behind a party's seed.
 */
module DpfTree {
  import opened Numbers
  import opened Blocks

  datatype Prg = Prg(left: Block -> Block, right: Block -> Block, leaf: Block -> Block, stream: (Block, nat) -> Block)

  /** One level's correction: a block, and the low bit it gets for right children. */
  datatype Word = Word(cw: Block, bit: bool)

  function Sigma(w: Word, j: nat): Block
  {
    if j % 2 == 0 then w.cw else WithLsb(w.cw, w.bit)
  }

  /** The correction of a level whose path children differ by z0 and z1, for the path bit `alpha`. */
  function WordFor(z0: Block, z1: Block, alpha: bool): Word
  {
    Word(WithLsb(if alpha then z0 else z1, Lsb(z0) != !alpha), Lsb(z1) != alpha)
  }

  function Tags(s: seq<Block>): (t: seq<Block>)
    ensures |t| == |s|
  {
    seq(|s|, i requires 0 <= i < |s| => TagBit(s[i]))
  }

  function Corrected(raw: seq<Block>, tags: seq<Block>, w: Word): (s: seq<Block>)
    requires |raw| == 2 * |tags|
    ensures |s| == |raw|
  {
    seq(|raw|, i requires 0 <= i < |raw| => Xor(raw[i], And(tags[i / 2], Sigma(w, i))))
  }

  function Child(g: Prg, b: Block, j: nat): Block
  {
    if j == 0 then g.left(b) else g.right(b)
  }

  function Children(g: Prg, s: seq<Block>): (c: seq<Block>)
    ensures |c| == 2 * |s|
  {
    seq(2 * |s|, i requires 0 <= i < 2 * |s| => Child(g, s[i / 2], i % 2))
  }

  /** The tags of a level's parents and its uncorrected seeds. */
  datatype Level = Level(tags: seq<Block>, raw: seq<Block>)

  function LevelAt(g: Prg, party: nat, root: (Block, Block), words: seq<Word>, iter: nat): (l: Level)
    requires 1 <= iter <= |words| + 1
    ensures |l.raw| == 2 * |l.tags|
    decreases iter, 0
  {
    if iter == 1 then Level([Saturated(party == 1)], [root.0, root.1])
    else
      Descend(g, SeedsAt(g, party, root, words, iter - 1))
  }

  /** The next level below corrected seeds. */
  function Descend(g: Prg, s: seq<Block>): (l: Level)
    ensures |l.raw| == 2 * |l.tags|
  {
    Level(Tags(s), Children(g, s))
  }

  /** The corrected seeds of level `iter`. */
  function SeedsAt(g: Prg, party: nat, root: (Block, Block), words: seq<Word>, iter: nat): (s: seq<Block>)
    requires 1 <= iter <= |words|
    decreases iter, 1
  {
    var l := LevelAt(g, party, root, words, iter);
    Corrected(l.raw, l.tags, words[iter - 1])
  }

  lemma {:induction false} LevelSize(g: Prg, party: nat, root: (Block, Block), words: seq<Word>, iter: nat)
    requires 1 <= iter <= |words| + 1
    ensures |LevelAt(g, party, root, words, iter).tags| == Pow(2, iter - 1)
    ensures |LevelAt(g, party, root, words, iter).raw| == Pow(2, iter)
    ensures iter <= |words| ==> |SeedsAt(g, party, root, words, iter)| == Pow(2, iter)
  {
    assert Pow(2, iter) == 2 * Pow(2, iter - 1);
    if iter > 1 { LevelSize(g, party, root, words, iter - 1); }
  }

  /** What a party adds to a child whose parent tag is `t`. */
  lemma MaskedWord(t: bool, b: Block)
    ensures And(Saturated(t), b) == if t then b else ZERO
  {}

  /**
   The corrected seeds of every level, written out. Level 1 is the root, corrected by the second party; below, the
   children of a seed are its two expansions, corrected where its low bit is set. Right children take the word's
   second low bit.
   */
  lemma SeedsWritten(g: Prg, party: nat, root: (Block, Block), words: seq<Word>, iter: nat, a: nat)
    requires 1 <= iter <= |words| && a < Pow(2, iter - 1)
    ensures |SeedsAt(g, party, root, words, iter)| == Pow(2, iter) >= 2 * a + 2
    ensures iter == 1 ==>
      && SeedsAt(g, party, root, words, 1)[0] == Xor(root.0, if party == 1 then words[0].cw else ZERO)
      && SeedsAt(g, party, root, words, 1)[1] == Xor(root.1, if party == 1 then words[0].cw[0 := words[0].bit] else ZERO)
    ensures iter > 1 ==>
      && |SeedsAt(g, party, root, words, iter - 1)| == Pow(2, iter - 1)
      && var s, w := SeedsAt(g, party, root, words, iter - 1)[a], words[iter - 1];
      && SeedsAt(g, party, root, words, iter)[2 * a] == Xor(g.left(s), if s[0] then w.cw else ZERO)
      && SeedsAt(g, party, root, words, iter)[2 * a + 1] == Xor(g.right(s), if s[0] then w.cw[0 := w.bit] else ZERO)
  {
    hide Xor, And, Saturated;
    LevelSize(g, party, root, words, iter);
    assert Pow(2, iter) == 2 * Pow(2, iter - 1) && Pow(2, 1) == 2 * Pow(2, 0);
    var w := words[iter - 1];
    if iter == 1 {
      MaskedWord(party == 1, Sigma(w, 0));
      MaskedWord(party == 1, Sigma(w, 1));
    } else {
      LevelSize(g, party, root, words, iter - 1);
      var s := SeedsAt(g, party, root, words, iter - 1);
      var l := LevelAt(g, party, root, words, iter);
      assert l == Level(Tags(s), Children(g, s));
      ChildEntries(g, s, a, w);
    }
  }

  lemma ChildEntries(g: Prg, s: seq<Block>, a: nat, w: Word)
    requires a < |s|
    ensures var c := Corrected(Children(g, s), Tags(s), w);
      && c[2 * a] == Xor(g.left(s[a]), if s[a][0] then w.cw else ZERO)
      && c[2 * a + 1] == Xor(g.right(s[a]), if s[a][0] then w.cw[0 := w.bit] else ZERO)
  {
    hide Xor, And, Saturated;
    MaskedWord(Lsb(s[a]), Sigma(w, 2 * a));
    MaskedWord(Lsb(s[a]), Sigma(w, 2 * a + 1));
    assert (2 * a) / 2 == a && (2 * a + 1) / 2 == a && (2 * a) % 2 == 0 && (2 * a + 1) % 2 == 1;
  }

  /** Only the words of earlier levels matter. */
  lemma {:induction false} LevelPrefix(g: Prg, party: nat, root: (Block, Block), words: seq<Word>, more: seq<Word>, iter: nat)
    requires 1 <= iter <= |words| + 1 && words <= more
    ensures LevelAt(g, party, root, words, iter) == LevelAt(g, party, root, more, iter)
  {
    if iter > 1 { LevelPrefix(g, party, root, words, more, iter - 1); }
  }

  // -------------------------------------------------------------- the path

  function Bit(x: nat, i: nat): bool
  {
    PowPositive(2, i);
    x / Pow(2, i) % 2 == 1
  }

  lemma BitWritten(x: nat, i: nat)
    ensures Pow(2, i) > 0 && (Bit(x, i) <==> x / Pow(2, i) % 2 == 1)
  {}

  function Prefix(alpha: nat, depth: nat, iter: nat): nat
    requires iter <= depth
  {
    PowPositive(2, depth - iter);
    alpha / Pow(2, depth - iter)
  }

  function Number(b: bool): nat { if b then 1 else 0 }

  lemma PrefixStep(alpha: nat, depth: nat, iter: nat)
    requires 1 <= iter <= depth
    ensures Prefix(alpha, depth, iter) == 2 * Prefix(alpha, depth, iter - 1) + Number(Bit(alpha, depth - iter))
  {
    var m := Pow(2, depth - iter);
    PowPositive(2, depth - iter);
    assert Pow(2, depth - iter + 1) == 2 * m;
    DivideTwice(alpha, m, 2);
  }

  lemma PrefixEnds(alpha: nat, depth: nat)
    requires alpha < Pow(2, depth)
    ensures Prefix(alpha, depth, 0) == 0 && Prefix(alpha, depth, depth) == alpha
  {
    ModUnique(alpha, 0, alpha, Pow(2, depth));
  }

  // ------------------------------------------------- two parties, one level

  /** Equal nodes off the path, opposite low bits on it. */
  ghost predicate Agree(s0: seq<Block>, s1: seq<Block>, a: nat)
  {
    && a < |s0| == |s1| && Lsb(s0[a]) != Lsb(s1[a])
    && forall i :: 0 <= i < |s0| && i != a ==> s0[i] == s1[i]
  }

  /** A level before its correction: tags and children agree off the parent `a`, whose tags are opposite. */
  ghost predicate Raw(l0: Level, l1: Level, a: nat)
  {
    && |l0.raw| == |l1.raw| == 2 * |l0.tags| && a < |l0.tags| == |l1.tags|
    && (exists x: bool :: l0.tags[a] == Saturated(x) && l1.tags[a] == Saturated(!x))
    && (forall i :: 0 <= i < |l0.tags| && i != a ==> l0.tags[i] == l1.tags[i])
    && forall i :: 0 <= i < |l0.raw| && i / 2 != a ==> l0.raw[i] == l1.raw[i]
  }

  /** The correction for the path bit makes the other child equal and leaves opposite low bits on the path. */
  lemma WordCorrects(z0: Block, z1: Block, alpha: bool)
    ensures var w := WordFor(z0, z1, alpha);
      if alpha then z0 == Sigma(w, 0) && Lsb(Xor(z1, Sigma(w, 1))) else z1 == Sigma(w, 1) && Lsb(Xor(z0, Sigma(w, 0)))
  {
    LsbXor(z1, Sigma(WordFor(z0, z1, alpha), 1));
    LsbXor(z0, Sigma(WordFor(z0, z1, alpha), 0));
  }

  lemma LevelCorrects(l0: Level, l1: Level, a: nat, alpha: bool, w: Word)
    requires Raw(l0, l1, a)
    requires w == WordFor(Xor(l0.raw[2 * a], l1.raw[2 * a]), Xor(l0.raw[2 * a + 1], l1.raw[2 * a + 1]), alpha)
    ensures Agree(Corrected(l0.raw, l0.tags, w), Corrected(l1.raw, l1.tags, w), 2 * a + Number(alpha))
  {
    hide Xor, And, Saturated, Lsb, WithLsb, WordFor, Sigma, Corrected;
    var s0, s1 := Corrected(l0.raw, l0.tags, w), Corrected(l1.raw, l1.tags, w);
    var x: bool :| l0.tags[a] == Saturated(x) && l1.tags[a] == Saturated(!x);
    PathChild(l0, l1, a, x, w, 2 * a);
    PathChild(l0, l1, a, x, w, 2 * a + 1);
    WordCorrects(Xor(l0.raw[2 * a], l1.raw[2 * a]), Xor(l0.raw[2 * a + 1], l1.raw[2 * a + 1]), alpha);
    forall i | 0 <= i < |s0| && i / 2 != a ensures s0[i] == s1[i] {
      OffPathChild(l0, l1, w, i);
    }
    forall i | 0 <= i < |s0| && i != 2 * a + Number(alpha) ensures s0[i] == s1[i] {
      if i / 2 == a { assert i == 2 * a + 1 - Number(alpha); }
    }
  }

  lemma OffPathChild(l0: Level, l1: Level, w: Word, i: nat)
    requires |l0.raw| == |l1.raw| == 2 * |l0.tags| == 2 * |l1.tags| && i < |l0.raw|
    requires l0.raw[i] == l1.raw[i] && l0.tags[i / 2] == l1.tags[i / 2]
    ensures Corrected(l0.raw, l0.tags, w)[i] == Corrected(l1.raw, l1.tags, w)[i]
  {
    hide Xor, And, Sigma;
  }

  /** A child of the path parent becomes equal exactly when the word is its difference; the low bits follow. */
  lemma PathChild(l0: Level, l1: Level, a: nat, x: bool, w: Word, i: nat)
    requires |l0.raw| == |l1.raw| == 2 * |l0.tags| == 2 * |l1.tags| && i < |l0.raw| && i / 2 == a
    requires l0.tags[a] == Saturated(x) && l1.tags[a] == Saturated(!x)
    ensures var s0, s1 := Corrected(l0.raw, l0.tags, w), Corrected(l1.raw, l1.tags, w);
      && (Xor(l0.raw[i], l1.raw[i]) == Sigma(w, i % 2) ==> s0[i] == s1[i])
      && (Lsb(s0[i]) != Lsb(s1[i]) <==> Lsb(Xor(Xor(l0.raw[i], l1.raw[i]), Sigma(w, i % 2))))
  {
    hide Xor, And, Saturated, Lsb, Sigma;
    var s0, s1 := Corrected(l0.raw, l0.tags, w), Corrected(l1.raw, l1.tags, w);
    SigmaParity(w, i);
    CorrectOpposite(l0.raw[i], l1.raw[i], x, Sigma(w, i));
    XorZero(s0[i], s1[i]);
    XorZero(Xor(l0.raw[i], l1.raw[i]), Sigma(w, i));
    LsbXor(s0[i], s1[i]);
  }

  lemma SigmaParity(w: Word, i: nat)
    ensures Sigma(w, i) == Sigma(w, i % 2)
  {}

  lemma LevelExpands(g: Prg, s0: seq<Block>, s1: seq<Block>, a: nat)
    requires Agree(s0, s1, a)
    ensures Raw(Descend(g, s0), Descend(g, s1), a)
    ensures PathOf(Descend(g, s0), Descend(g, s1), a) == PathBelow(g, s0[a], s1[a])
  {
    hide Saturated, Lsb;
    assert Tags(s0)[a] == Saturated(Lsb(s0[a])) && Tags(s1)[a] == Saturated(!Lsb(s0[a]));
  }

  // ---------------------------------------------------- the dealer's path

  /** The two children of the path parent and its tag, for both parties. */
  datatype Path = Path(s0: (Block, Block), s1: (Block, Block), t0: Block, t1: Block)

  function PathWord(p: Path, alpha: bool): Word
  {
    WordFor(Xor(p.s0.0, p.s1.0), Xor(p.s0.1, p.s1.1), alpha)
  }

  function PathSeed(s: (Block, Block), t: Block, w: Word, alpha: bool): Block
  {
    if alpha then Xor(s.1, And(t, Sigma(w, 1))) else Xor(s.0, And(t, Sigma(w, 0)))
  }

  function PathAt(g: Prg, root0: (Block, Block), root1: (Block, Block), alpha: nat, depth: nat, iter: nat): Path
    requires 1 <= iter <= depth
  {
    if iter == 1 then Path(root0, root1, Saturated(false), Saturated(true))
    else
      var p := PathAt(g, root0, root1, alpha, depth, iter - 1);
      var a := Bit(alpha, depth - (iter - 1));
      var w := PathWord(p, a);
      PathBelow(g, PathSeed(p.s0, p.t0, w, a), PathSeed(p.s1, p.t1, w, a))
  }

  function PathBelow(g: Prg, n0: Block, n1: Block): Path
  {
    Path((g.left(n0), g.right(n0)), (g.left(n1), g.right(n1)), TagBit(n0), TagBit(n1))
  }

  /** The words of levels 1 to n. */
  function PathWords(g: Prg, root0: (Block, Block), root1: (Block, Block), alpha: nat, depth: nat, n: nat): (w: seq<Word>)
    requires n <= depth
    ensures |w| == n
  {
    if n == 0 then []
    else PathWords(g, root0, root1, alpha, depth, n - 1)
         + [PathWord(PathAt(g, root0, root1, alpha, depth, n), Bit(alpha, depth - n))]
  }

  /** The path state of a level, read off the two trees. */
  ghost function PathOf(l0: Level, l1: Level, a: nat): Path
    requires Raw(l0, l1, a)
  {
    Path((l0.raw[2 * a], l0.raw[2 * a + 1]), (l1.raw[2 * a], l1.raw[2 * a + 1]), l0.tags[a], l1.tags[a])
  }

  /**
   Every level before its correction: off the path parent the parties hold the same tags and children,
   and what they hold on the path is what the dealer tracks.
   */
  lemma {:induction false} TreesOnPath(g: Prg, root0: (Block, Block), root1: (Block, Block), alpha: nat, depth: nat, iter: nat)
    requires 1 <= iter <= depth && alpha < Pow(2, depth)
    ensures var words := PathWords(g, root0, root1, alpha, depth, iter - 1);
      var l0, l1 := LevelAt(g, 0, root0, words, iter), LevelAt(g, 1, root1, words, iter);
      var a := Prefix(alpha, depth, iter - 1);
      Raw(l0, l1, a) && PathOf(l0, l1, a) == PathAt(g, root0, root1, alpha, depth, iter)
  {
    hide Xor, And, Saturated, Lsb, WithLsb, Corrected, Descend, Prefix, Bit, WordFor, Raw, Agree, PathOf, PathWord, PathSeed;
    PrefixEnds(alpha, depth);
    var words := PathWords(g, root0, root1, alpha, depth, iter - 1);
    if iter == 1 {
      FirstLevel(root0, root1);
    } else {
      var a, d := Prefix(alpha, depth, iter - 2), Bit(alpha, depth - (iter - 1));
      var before := PathWords(g, root0, root1, alpha, depth, iter - 2);
      TreesOnPath(g, root0, root1, alpha, depth, iter - 1);
      LevelPrefix(g, 0, root0, before, words, iter - 1);
      LevelPrefix(g, 1, root1, before, words, iter - 1);
      var l0, l1 := LevelAt(g, 0, root0, words, iter - 1), LevelAt(g, 1, root1, words, iter - 1);
      PrefixStep(alpha, depth, iter - 1);
      NextLevel(l0, l1, a, d, words[iter - 2]);
      LevelExpands(g, SeedsAt(g, 0, root0, words, iter - 1), SeedsAt(g, 1, root1, words, iter - 1), 2 * a + Number(d));
    }
  }

  lemma FirstLevel(root0: (Block, Block), root1: (Block, Block))
    ensures var l0, l1 := Level([Saturated(false)], [root0.0, root0.1]), Level([Saturated(true)], [root1.0, root1.1]);
      Raw(l0, l1, 0) && PathOf(l0, l1, 0) == Path(root0, root1, Saturated(false), Saturated(true))
  {
    var l0, l1 := Level([Saturated(false)], [root0.0, root0.1]), Level([Saturated(true)], [root1.0, root1.1]);
    assert l0.tags[0] == Saturated(false) && l1.tags[0] == Saturated(!false);
  }

  /** What correcting a level does to its path child. */
  lemma NextSeed(l: Level, a: nat, d: bool, w: Word)
    requires |l.raw| == 2 * |l.tags| && a < |l.tags|
    ensures Corrected(l.raw, l.tags, w)[2 * a + Number(d)] == PathSeed((l.raw[2 * a], l.raw[2 * a + 1]), l.tags[a], w, d)
  {
    hide Xor, And, Sigma;
    SigmaParity(w, 2 * a + Number(d));
  }

  lemma NextLevel(l0: Level, l1: Level, a: nat, d: bool, w: Word)
    requires Raw(l0, l1, a) && w == PathWord(PathOf(l0, l1, a), d)
    ensures var s0, s1 := Corrected(l0.raw, l0.tags, w), Corrected(l1.raw, l1.tags, w);
      var on := 2 * a + Number(d);
      var p := PathOf(l0, l1, a);
      && Agree(s0, s1, on)
      && s0[on] == PathSeed(p.s0, p.t0, w, d) && s1[on] == PathSeed(p.s1, p.t1, w, d)
  {
    hide Xor, And, Saturated, Lsb, WithLsb, WordFor, Corrected, Agree, PathSeed;
    LevelCorrects(l0, l1, a, d, w);
    NextSeed(l0, a, d, w);
    NextSeed(l1, a, d, w);
    AgreeShape(Corrected(l0.raw, l0.tags, w), Corrected(l1.raw, l1.tags, w), 2 * a + Number(d));
  }

  lemma AgreeShape(s0: seq<Block>, s1: seq<Block>, a: nat)
    requires Agree(s0, s1, a)
    ensures a < |s0| == |s1|
  {}

  /** Every level after its correction: equal seeds and tags off the path, opposite tags on it. */
  lemma CorrectedOnPath(g: Prg, root0: (Block, Block), root1: (Block, Block), alpha: nat, depth: nat, iter: nat, words: seq<Word>)
    requires 1 <= iter <= depth && alpha < Pow(2, depth)
    requires iter <= |words| && words[..iter] == PathWords(g, root0, root1, alpha, depth, iter)
    ensures var s0, s1 := SeedsAt(g, 0, root0, words, iter), SeedsAt(g, 1, root1, words, iter);
      var a := Prefix(alpha, depth, iter);
      var p := PathAt(g, root0, root1, alpha, depth, iter);
      var d, w := Bit(alpha, depth - iter), words[iter - 1];
      Agree(s0, s1, a) && s0[a] == PathSeed(p.s0, p.t0, w, d) && s1[a] == PathSeed(p.s1, p.t1, w, d)
  {
    hide Xor, And, Saturated, Lsb, WithLsb, Corrected, Descend, Prefix, Bit, WordFor, Raw, PathOf, PathWord, PathSeed, PathAt, LevelAt,
      Agree;
    TreesOnPath(g, root0, root1, alpha, depth, iter);
    var before := PathWords(g, root0, root1, alpha, depth, iter - 1);
    assert words[..iter] == before + [words[iter - 1]];
    assert words == before + words[iter - 1..];
    LevelPrefix(g, 0, root0, before, words, iter);
    LevelPrefix(g, 1, root1, before, words, iter);
    PrefixStep(alpha, depth, iter);
    NextLevel(LevelAt(g, 0, root0, words, iter), LevelAt(g, 1, root1, words, iter), Prefix(alpha, depth, iter - 1),
              Bit(alpha, depth - iter), words[iter - 1]);
  }

  // ------------------------------------------------------------------ sums

  /** Summing a level leaves the difference of the path children alone. */
  lemma {:induction false} SumDifference(c0: seq<Block>, c1: seq<Block>, j: nat, a: nat, n: nat)
    requires |c0| == |c1| >= 2 * n && j < 2 && 2 * a + 1 < |c0|
    requires forall i :: 0 <= i < |c0| && i / 2 != a ==> c0[i] == c1[i]
    ensures Xor(XorSum(c0, 2, j, n), XorSum(c1, 2, j, n)) == if a < n then Xor(c0[2 * a + j], c1[2 * a + j]) else ZERO
  {
    hide Xor;
    if n == 0 {
      XorZero(ZERO, ZERO);
    } else {
      var i := (n - 1) * 2 + j;
      assert i / 2 == n - 1;
      SumDifference(c0, c1, j, a, n - 1);
      XorSwap(XorSum(c0, 2, j, n - 1), c0[i], XorSum(c1, 2, j, n - 1), c1[i]);
      XorZero(c0[i], c1[i]);
      XorZero(Xor(c0[i], c1[i]), ZERO);
      XorZero(Xor(XorSum(c0, 2, j, n - 1), XorSum(c1, 2, j, n - 1)), ZERO);
    }
  }
}
