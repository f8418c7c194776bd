/**
 RegularDpf.h: interactive expansion and key generation by two parties, expansion from a key, and key
 generation by a dealer, for a list of points with one tree each. The three rows of a tree rotate through
 the levels; a level's seeds are overwritten by their tags once they are expanded.
 */
module RegularDpf {
  import opened Numbers
  import opened Wrappers
  import opened Blocks
  import opened DpfTree
  import M = DpfMult

  /** The key material of one tree. */
  datatype Column = Column(root: (Block, Block), words: seq<Word>, leaf: Option<Block>)

  /** RegularDpfKey; the leaf list is empty or has an entry for every tree. */
  datatype Key = Key(seed: Block, words: seq<seq<Word>>, leaf: seq<Block>)

  function Log2Ceil(n: nat): nat
  {
    if n <= 1 then 0 else 1 + Log2Ceil((n + 1) / 2)
  }

  lemma {:induction false} Log2CeilBound(n: nat)
    ensures Pow(2, Log2Ceil(n)) >= n && (n > 1 ==> Pow(2, Log2Ceil(n) - 1) < n)
  {
    if n == 2 {
      assert Log2Ceil(1) == 0 && Log2Ceil(2) == 1 && Pow(2, 1) == 2;
    } else if n > 2 {
      var d := Log2Ceil((n + 1) / 2);
      Log2CeilBound((n + 1) / 2);
      assert Log2Ceil(n) == d + 1 && Pow(2, d + 1) == 2 * Pow(2, d) && Pow(2, d) == 2 * Pow(2, d - 1);
    }
  }

  function RoundUpEven(n: nat): nat { (n + 1) / 2 * 2 }

  lemma RowsFit(domain: nat)
    requires domain >= 2
    ensures Log2Ceil(domain) >= 1 && domain <= RoundUpEven(domain) <= Pow(2, Log2Ceil(domain))
  {
    Log2CeilBound(domain);
    assert Pow(2, Log2Ceil(domain)) == 2 * Pow(2, Log2Ceil(domain) - 1);
  }

  /** The two blocks of level 1 of tree `k`: the generator serves the trees in order, two blocks each. */
  function RootOf(g: Prg, seed: Block, k: nat): (Block, Block)
  {
    (g.stream(seed, 2 * k), g.stream(seed, 2 * k + 1))
  }

  lemma RootWritten(g: Prg, seed: Block, k: nat)
    ensures RootOf(g, seed, k).0 == g.stream(seed, 2 * k) && RootOf(g, seed, k).1 == g.stream(seed, 2 * k + 1)
  {}

  /** The rows and sums of one tree in front of the correction of level `iter`. */
  ghost predicate Stands(s: seq<seq<Block>>, z: seq<Block>, l: Level, iter: nat)
    requires |l.raw| == 2 * |l.tags|
  {
    && iter >= 1 && |s| == 3 && |z| == 2
    && s[(iter - 1) % 3] == l.tags && s[iter % 3] == l.raw
    && z[0] == XorSum(l.raw, 2, 0, |l.tags|) && z[1] == XorSum(l.raw, 2, 1, |l.tags|)
  }

  ghost predicate IsLevels(ls: seq<Level>, n: nat)
  {
    |ls| == n && forall k :: 0 <= k < n ==> |ls[k].raw| == 2 * |ls[k].tags|
  }

  /** One party; `s[k]`, `z[k]` and `sigma[k]` are the three rows, the two sums and the word of tree `k`. */
  class Party {
    const g: Prg
    const partyIdx: nat
    const domain: nat
    const depth: nat
    const numPoints: nat
    const mult: M.DpfMult
    var s: seq<seq<seq<Block>>>
    var z: seq<seq<Block>>
    var sigma: seq<Word>

    constructor (g: Prg, partyIdx: nat, domain: nat, numPoints: nat)
      requires partyIdx <= 1 && domain >= 2 && numPoints >= 1
      ensures Valid() && this.g == g && this.partyIdx == partyIdx && this.domain == domain && this.numPoints == numPoints
      ensures fresh(mult) && mult.Valid() && mult.partyIdx == partyIdx && mult.totalMults == numPoints * depth
      ensures mult.otIdx == 0 && mult.choiceBits == []
    {
      MulNonNeg(numPoints, Log2Ceil(domain));
      this.g, this.partyIdx, this.domain, this.depth := g, partyIdx, domain, Log2Ceil(domain);
      this.numPoints := numPoints;
      var m := new M.DpfMult();
      var ok := m.Init(partyIdx, numPoints * Log2Ceil(domain));
      this.mult := m;
      this.s, this.z, this.sigma := [], [], [];
    }

    ghost predicate Valid()
    {
      partyIdx <= 1 && domain >= 2 && numPoints >= 1 && depth == Log2Ceil(domain)
    }

    /** Every tree stands in front of the correction of level `iter`. */
    ghost predicate Holds(ls: seq<Level>, iter: nat)
      requires IsLevels(ls, numPoints)
      reads this
    {
      && 1 <= iter <= depth && |s| == |z| == numPoints
      && forall k :: 0 <= k < numPoints ==> Stands(s[k], z[k], ls[k], iter)
    }

    /** Level 1 of every tree is random, its parent tag the party index. */
    method Start(seed: Block)
      requires Valid()
      modifies this
      ensures |s| == |z| == numPoints
      ensures forall k :: 0 <= k < numPoints ==>
        Stands(s[k], z[k], Level([Saturated(partyIdx == 1)], [RootOf(g, seed, k).0, RootOf(g, seed, k).1]), 1)
    {
      hide Saturated;
      var rows: seq<seq<seq<Block>>>, sums: seq<seq<Block>>, pos, k := [], [], 0, 0;
      while k < numPoints
        invariant 0 <= k <= numPoints && |rows| == |sums| == k && pos == 2 * k
        invariant forall j :: 0 <= j < k ==>
          Stands(rows[j], sums[j], Level([Saturated(partyIdx == 1)], [RootOf(g, seed, j).0, RootOf(g, seed, j).1]), 1)
      {
        var sc0, sc1 := g.stream(seed, pos), g.stream(seed, pos + 1);
        pos := pos + 2;
        SumOfOne([sc0, sc1]);
        rows := rows + [[[Saturated(partyIdx == 1)], [sc0, sc1], []]];
        sums := sums + [[sc0, sc1]];
        k := k + 1;
      }
      s, z := rows, sums;
    }

    // ------------------------------------------------------ the correction word

    ghost predicate HasSums()
      reads this
    {
      |z| == numPoints && forall k :: 0 <= k < numPoints ==> |z[k]| == 2
    }

    /** The inputs of the multiplication, one pair to a tree. */
    method Masked(points: seq<nat>, iter: nat) returns (x: seq<bool>, diff: seq<Block>)
      requires HasSums() && |points| == numPoints && 1 <= iter <= depth
      ensures |x| == |diff| == numPoints
      ensures forall k :: 0 <= k < numPoints ==>
        x[k] == (Bit(points[k], depth - iter) != (partyIdx == 1)) && diff[k] == WithLsb(Xor(z[k][0], z[k][1]), false)
    {
      hide Xor, WithLsb, Bit;
      x, diff := [], [];
      var k := 0;
      while k < numPoints
        invariant 0 <= k <= numPoints && |x| == |diff| == k
        invariant forall j :: 0 <= j < k ==>
          x[j] == (Bit(points[j], depth - iter) != (partyIdx == 1)) && diff[j] == WithLsb(Xor(z[j][0], z[j][1]), false)
      {
        var alphaj := Bit(points[k], depth - iter);
        var d := Xor(z[k][0], z[k][1]);
        diff := diff + [WithLsb(d, false)];
        x := x + [alphaj != (partyIdx == 1)];
        k := k + 1;
      }
    }

    method SigmaMessages(points: seq<nat>, iter: nat, product: seq<Block>) returns (share: seq<Block>, bit: seq<bool>)
      requires HasSums() && |points| == |product| == numPoints && 1 <= iter <= depth
      ensures |share| == |bit| == numPoints
      ensures forall k :: 0 <= k < numPoints ==>
        && share[k] == Xor(Xor(product[k], z[k][0]), OneBit((partyIdx == 1) != Bit(points[k], depth - iter)))
        && bit[k] == (Lsb(z[k][1]) != Bit(points[k], depth - iter))
    {
      hide Xor, Lsb, OneBit, Bit;
      share, bit := [], [];
      var k := 0;
      while k < numPoints
        invariant 0 <= k <= numPoints && |share| == |bit| == k
        invariant forall j :: 0 <= j < k ==>
          && share[j] == Xor(Xor(product[j], z[j][0]), OneBit((partyIdx == 1) != Bit(points[j], depth - iter)))
          && bit[j] == (Lsb(z[j][1]) != Bit(points[j], depth - iter))
      {
        var alphaj := Bit(points[k], depth - iter);
        share := share + [Xor(Xor(product[k], z[k][0]), OneBit((partyIdx == 1) != alphaj))];
        bit := bit + [Lsb(z[k][1]) != alphaj];
        k := k + 1;
      }
    }

    method OpenSigma(points: seq<nat>, iter: nat, share: seq<Block>, received: seq<Block>, receivedBit: seq<bool>)
      requires HasSums() && |points| == |share| == |received| == |receivedBit| == numPoints && 1 <= iter <= depth
      modifies this`sigma
      ensures |sigma| == numPoints
      ensures forall k :: 0 <= k < numPoints ==>
        sigma[k] == Word(Xor(received[k], share[k]), receivedBit[k] != (Lsb(z[k][1]) != Bit(points[k], depth - iter)))
    {
      hide Xor, Lsb, Bit;
      var w: seq<Word>, k := [], 0;
      while k < numPoints
        invariant 0 <= k <= numPoints && |w| == k
        invariant forall j :: 0 <= j < k ==>
          w[j] == Word(Xor(received[j], share[j]), receivedBit[j] != (Lsb(z[j][1]) != Bit(points[j], depth - iter)))
        invariant z == old(z)
      {
        var alphaj := Bit(points[k], depth - iter);
        w := w + [Word(Xor(received[k], share[k]), (receivedBit[k] != Lsb(z[k][1])) != alphaj)];
        k := k + 1;
      }
      sigma := w;
    }

    // ---------------------------------------------------------------- expansion

    /** Corrects level `iter` of every tree in place, expands it and sums its children; seeds give way to their tags. */
    method Advance(ghost ls: seq<Level>, iter: nat)
      requires IsLevels(ls, numPoints) && Holds(ls, iter) && iter < depth && |sigma| == numPoints
      modifies this`s, this`z
      ensures |s| == |z| == numPoints
      ensures forall k :: 0 <= k < numPoints ==>
        Stands(s[k], z[k], Descend(g, Corrected(ls[k].raw, ls[k].tags, sigma[k])), iter + 1)
    {
      hide Xor, And, Lsb, WithLsb, Saturated, Sigma, Corrected, Children, Tags, XorSum, Descend;
      var rows, sums, k := s, z, 0;
      while k < numPoints
        invariant 0 <= k <= numPoints && |rows| == |sums| == numPoints && s == old(s) && z == old(z)
        invariant forall j :: 0 <= j < k ==>
          Stands(rows[j], sums[j], Descend(g, Corrected(ls[j].raw, ls[j].tags, sigma[j])), iter + 1)
        invariant forall j :: k <= j < numPoints ==> rows[j] == s[j] && sums[j] == z[j]
      {
        assert Stands(s[k], z[k], ls[k], iter);
        var tags, children, z0, z1 := Expand(rows[k][(iter - 1) % 3], rows[k][iter % 3], sigma[k]);
        rows := rows[k := rows[k][iter % 3 := tags][(iter + 1) % 3 := children]];
        sums := sums[k := [z0, z1]];
        k := k + 1;
      }
      s, z := rows, sums;
    }

    method Expand(tp: seq<Block>, raw: seq<Block>, w: Word)
      returns (sc: seq<Block>, sg: seq<Block>, z0: Block, z1: Block)
      requires |raw| == 2 * |tp|
      ensures Level(sc, sg) == Descend(g, Corrected(raw, tp, w))
      ensures |sg| == 2 * |sc| && z0 == XorSum(sg, 2, 0, |sc|) && z1 == XorSum(sg, 2, 1, |sc|)
    {
      hide Xor, And, Lsb, WithLsb, Saturated, Sigma, Corrected, Children, Tags, XorSum;
      ghost var c := Corrected(raw, tp, w);
      sc, sg := raw, [];
      z0, z1 := ZERO, ZERO;
      SumEmpty(Children(g, c));
      var i := 0;
      while i < |sc|
        invariant 0 <= i <= |sc| == |raw| == |c| && |sg| == 2 * i
        invariant forall k :: 0 <= k < i ==> sc[k] == TagBit(c[k])
        invariant forall k :: i <= k < |sc| ==> sc[k] == raw[k]
        invariant forall k :: 0 <= k < 2 * i ==> sg[k] == Child(g, c[k / 2], k % 2)
        invariant z0 == XorSum(Children(g, c), 2, 0, i) && z1 == XorSum(Children(g, c), 2, 1, i)
      {
        var current := Xor(sc[i], And(tp[i / 2], Sigma(w, i % 2)));
        CorrectedEntry(raw, tp, w, i);
        sg := sg + [g.left(current), g.right(current)];
        z0 := Xor(z0, g.left(current));
        z1 := Xor(z1, g.right(current));
        ChildrenSum(g, c, i);
        sc := sc[i := TagBit(current)];
        i := i + 1;
      }
      DescendIs(g, c, sc, sg);
    }

    /** The last layer: leaf values and tags of the rows that the domain needs, and the sums of those values. */
    method LastLayer(ghost ls: seq<Level>) returns (leaves: seq<seq<Block>>, tags: seq<seq<Block>>, diff: seq<Block>)
      requires Valid() && IsLevels(ls, numPoints) && Holds(ls, depth) && |sigma| == numPoints
      requires forall k :: 0 <= k < numPoints ==> |ls[k].raw| >= RoundUpEven(domain)
      modifies this`s
      ensures |leaves| == |tags| == |diff| == numPoints
      ensures forall k :: 0 <= k < numPoints ==>
        IsLastLayer(g, Corrected(ls[k].raw, ls[k].tags, sigma[k]), domain, leaves[k], tags[k], diff[k])
    {
      hide Xor, And, Lsb, WithLsb, Saturated, Sigma, Corrected, Leaves, Tags, XorSum;
      var size := RoundUpEven(domain);
      var rows, k := s, 0;
      leaves, tags, diff := [], [], [];
      while k < numPoints
        invariant 0 <= k <= numPoints && |rows| == numPoints && |leaves| == |tags| == |diff| == k && s == old(s) && z == old(z)
        invariant forall j :: 0 <= j < k ==>
          IsLastLayer(g, Corrected(ls[j].raw, ls[j].tags, sigma[j]), domain, leaves[j], tags[j], diff[j])
        invariant forall j :: k <= j < numPoints ==> rows[j] == s[j]
      {
        assert Stands(s[k], z[k], ls[k], depth);
        var sc, t, d := CorrectLeaves(rows[k][(depth - 1) % 3], rows[k][depth % 3], sigma[k], size);
        rows := rows[k := rows[k][depth % 3 := sc]];
        leaves, tags, diff := leaves + [sc[..size]], tags + [t], diff + [d];
        k := k + 1;
      }
      s := rows;
    }

    method CorrectLeaves(tp: seq<Block>, raw: seq<Block>, w: Word, size: nat)
      returns (sc: seq<Block>, tags: seq<Block>, diff: Block)
      requires |raw| == 2 * |tp| && size <= |raw|
      ensures |sc| == |raw|
      ensures var c := Corrected(raw, tp, w)[..size];
        sc[..size] == Leaves(g, c) && tags == Tags(c) && diff == XorSum(Leaves(g, c), 1, 0, |c|)
    {
      hide Xor, And, Lsb, WithLsb, Saturated, Sigma, Corrected;
      ghost var c := Corrected(raw, tp, w)[..size];
      sc, tags, diff := raw, [], ZERO;
      var i := 0;
      while i < size
        invariant 0 <= i <= size && |sc| == |raw| && |tags| == i
        invariant forall k :: 0 <= k < i ==> sc[k] == g.leaf(c[k]) && tags[k] == TagBit(c[k])
        invariant forall k :: i <= k < |sc| ==> sc[k] == raw[k]
        invariant diff == XorSum(Leaves(g, c), 1, 0, i)
      {
        var temp := Xor(sc[i], And(tp[i / 2], Sigma(w, i % 2)));
        CorrectedEntry(raw, tp, w, i);
        tags := tags + [TagBit(temp)];
        var rr := g.leaf(temp);
        diff := Xor(diff, rr);
        sc := sc[i := rr];
        i := i + 1;
      }
      assert sc[..size] == Leaves(g, c) && tags == Tags(c);
    }

    /** The output calls, one pair for each tree and each point of the domain. */
    method Output(leaves: seq<seq<Block>>, tags: seq<seq<Block>>, gamma: seq<Block>) returns (out: seq<seq<(Block, Block)>>)
      requires |leaves| == |tags| == numPoints && (gamma == [] || |gamma| == numPoints)
      requires forall k :: 0 <= k < numPoints ==> domain <= |leaves[k]| == |tags[k]|
      ensures |out| == numPoints
      ensures forall k :: 0 <= k < numPoints ==> IsOutput(out[k], leaves[k], tags[k], Entry(gamma, k), domain)
    {
      hide Xor, And;
      out := [];
      var k := 0;
      while k < numPoints
        invariant 0 <= k <= numPoints && |out| == k
        invariant forall j :: 0 <= j < k ==> IsOutput(out[j], leaves[j], tags[j], Entry(gamma, j), domain)
      {
        var o := OutputTree(leaves[k], tags[k], Entry(gamma, k));
        out := out + [o];
        k := k + 1;
      }
    }

    method OutputTree(leaves: seq<Block>, tags: seq<Block>, gamma: Option<Block>) returns (out: seq<(Block, Block)>)
      requires domain <= |leaves| == |tags|
      ensures IsOutput(out, leaves, tags, gamma, domain)
    {
      out := [];
      var i := 0;
      while i < domain
        invariant 0 <= i <= domain && |out| == i && forall k :: 0 <= k < i ==>
          out[k] == (if gamma.Some? then Xor(leaves[k], And(tags[k], gamma.value)) else leaves[k], tags[k])
      {
        out := out + [(if gamma.Some? then Xor(leaves[i], And(tags[i], gamma.value)) else leaves[i], tags[i])];
        i := i + 1;
      }
    }

    /** implExpand with an input key: no messages. */
    method ExpandKey(key: Key) returns (out: seq<seq<(Block, Block)>>)
      requires Valid() && IsKey(key, numPoints, depth)
      modifies this
      ensures |out| == numPoints
      ensures forall k :: 0 <= k < numPoints ==> out[k] == Evaluated(g, partyIdx, ColumnOf(g, key, k), domain)
    {
      hide Xor, And, Lsb, WithLsb, Saturated, LevelAt, Corrected, Descend, Tags, Leaves, XorSum, Evaluated, RoundUpEven,
        Log2Ceil, Stands;
      RowsFit(domain);
      Start(key.seed);
      var iter := 1;
      ghost var ls := KeyLevels(g, partyIdx, key, numPoints, iter);
      FirstKeyLevels(g, partyIdx, key, numPoints);
      while iter < depth
        invariant 1 <= iter <= depth && ls == KeyLevels(g, partyIdx, key, numPoints, iter) && Holds(ls, iter)
      {
        sigma := WordsAt(key.words, numPoints, iter);
        NextKeyLevels(g, partyIdx, key, numPoints, iter);
        Advance(ls, iter);
        iter := iter + 1;
        ls := KeyLevels(g, partyIdx, key, numPoints, iter);
      }
      sigma := WordsAt(key.words, numPoints, depth);
      forall k | 0 <= k < numPoints ensures |ls[k].raw| >= RoundUpEven(domain) {
        LevelSize(g, partyIdx, RootOf(g, key.seed, k), key.words[k], depth);
      }
      var leaves, tags, diff := LastLayer(ls);
      LastSizes(g, ls, sigma, numPoints, domain, leaves, tags, diff);
      out := Output(leaves, tags, key.leaf);
      forall k | 0 <= k < numPoints ensures out[k] == Evaluated(g, partyIdx, ColumnOf(g, key, k), domain) {
        EvaluatedIs(g, partyIdx, ColumnOf(g, key, k), domain, leaves[k], tags[k], diff[k], out[k]);
      }
    }
  }

  /** Entry k of a list that may be missing as a whole. */
  function Entry(s: seq<Block>, k: nat): Option<Block>
    requires s == [] || k < |s|
  {
    if s == [] then None else Some(s[k])
  }

  /** A key for n trees of the given depth; `words[k]` is column k of both correction matrices. */
  ghost predicate IsKey(key: Key, n: nat, depth: nat)
  {
    && |key.words| == n && (key.leaf == [] || |key.leaf| == n)
    && forall k :: 0 <= k < n ==> |key.words[k]| == depth
  }

  /** What a key says about tree k. */
  function ColumnOf(g: Prg, key: Key, k: nat): Column
    requires k < |key.words| && (key.leaf == [] || k < |key.leaf|)
  {
    Column(RootOf(g, key.seed, k), key.words[k], Entry(key.leaf, k))
  }

  /** The words of one level. */
  function WordsAt(words: seq<seq<Word>>, n: nat, iter: nat): (w: seq<Word>)
    requires |words| == n && iter >= 1 && forall k :: 0 <= k < n ==> iter <= |words[k]|
    ensures |w| == n && forall k :: 0 <= k < n ==> w[k] == words[k][iter - 1]
  {
    seq(n, k requires 0 <= k < n => words[k][iter - 1])
  }

  ghost function KeyLevels(g: Prg, party: nat, key: Key, n: nat, iter: nat): (ls: seq<Level>)
    requires |key.words| == n && iter >= 1 && forall k :: 0 <= k < n ==> iter <= |key.words[k]| + 1
    ensures IsLevels(ls, n)
    ensures forall k :: 0 <= k < n ==> ls[k] == LevelAt(g, party, RootOf(g, key.seed, k), key.words[k], iter)
  {
    seq(n, k requires 0 <= k < n => LevelAt(g, party, RootOf(g, key.seed, k), key.words[k], iter))
  }

  lemma FirstKeyLevels(g: Prg, party: nat, key: Key, n: nat)
    requires |key.words| == n
    ensures forall k :: 0 <= k < n ==>
      KeyLevels(g, party, key, n, 1)[k] == Level([Saturated(party == 1)], [RootOf(g, key.seed, k).0, RootOf(g, key.seed, k).1])
  {
    hide Saturated;
  }

  lemma NextKeyLevels(g: Prg, party: nat, key: Key, n: nat, iter: nat)
    requires |key.words| == n && iter >= 1 && forall k :: 0 <= k < n ==> iter <= |key.words[k]|
    ensures var ls, w := KeyLevels(g, party, key, n, iter), WordsAt(key.words, n, iter);
      forall k :: 0 <= k < n ==>
        KeyLevels(g, party, key, n, iter + 1)[k] == Descend(g, Corrected(ls[k].raw, ls[k].tags, w[k]))
  {
    hide LevelAt, Corrected, Descend;
    forall k | 0 <= k < n
      ensures var l := LevelAt(g, party, RootOf(g, key.seed, k), key.words[k], iter);
        KeyLevels(g, party, key, n, iter + 1)[k] == Descend(g, Corrected(l.raw, l.tags, key.words[k][iter - 1]))
    {
      LevelNext(g, party, RootOf(g, key.seed, k), key.words[k], iter);
    }
  }

  /** The leaf rows, tags and leaf sum of one tree. */
  ghost predicate IsLastLayer(g: Prg, seeds: seq<Block>, domain: nat, leaves: seq<Block>, tags: seq<Block>, diff: Block)
  {
    && |seeds| >= RoundUpEven(domain)
    && var c := seeds[..RoundUpEven(domain)];
       leaves == Leaves(g, c) && tags == Tags(c) && diff == XorSum(Leaves(g, c), 1, 0, |c|)
  }

  lemma LastSizes(g: Prg, ls: seq<Level>, sigma: seq<Word>, n: nat, domain: nat, leaves: seq<seq<Block>>, tags: seq<seq<Block>>, diff: seq<Block>)
    requires IsLevels(ls, n) && |sigma| == |leaves| == |tags| == |diff| == n
    requires forall k :: 0 <= k < n ==>
      IsLastLayer(g, Corrected(ls[k].raw, ls[k].tags, sigma[k]), domain, leaves[k], tags[k], diff[k])
    ensures forall k :: 0 <= k < n ==> domain <= |leaves[k]| == |tags[k]|
  {
    hide Corrected, XorSum;
  }

  /** The output calls of one tree. */
  ghost predicate IsOutput(out: seq<(Block, Block)>, leaves: seq<Block>, tags: seq<Block>, gamma: Option<Block>, domain: nat)
  {
    && |out| == domain <= |leaves| == |tags|
    && forall i :: 0 <= i < domain ==>
         out[i] == (if gamma.Some? then Xor(leaves[i], And(tags[i], gamma.value)) else leaves[i], tags[i])
  }

  /** Leaf rows, tags and output calls add up to the evaluation of a tree. */
  lemma EvaluatedIs(g: Prg, party: nat, key: Column, domain: nat, leaves: seq<Block>, tags: seq<Block>, diff: Block,
                    out: seq<(Block, Block)>)
    requires domain >= 2 && |key.words| == Log2Ceil(domain) && 1 <= |key.words|
    requires IsLastLayer(g, SeedsAt(g, party, key.root, key.words, |key.words|), domain, leaves, tags, diff)
    requires IsOutput(out, leaves, tags, key.leaf, domain)
    ensures out == Evaluated(g, party, key, domain)
  {
    hide Xor, And, Lsb, Saturated, SeedsAt, XorSum;
  }

  /** init: a party index above one, a domain below two and an empty list of points are refused. */
  method NewParty(g: Prg, partyIdx: nat, domain: nat, numPoints: nat) returns (p: Party?)
    ensures p == null <==> partyIdx > 1 || domain < 2 || numPoints == 0
    ensures p != null ==> fresh(p) && fresh(p.mult) && p.Valid() && p.g == g && p.partyIdx == partyIdx && p.domain == domain
    ensures p != null ==> p.numPoints == numPoints && p.mult.totalMults == numPoints * p.depth && p.mult.choiceBits == []
  {
    if partyIdx > 1 || domain < 2 || numPoints == 0 { return null; }
    p := new Party(g, partyIdx, domain, numPoints);
  }

  function Leaves(g: Prg, s: seq<Block>): (l: seq<Block>)
    ensures |l| == |s|
  {
    seq(|s|, i requires 0 <= i < |s| => Leaf(g, s[i]))
  }

  function Leaf(g: Prg, b: Block): Block { g.leaf(b) }

  /** What a party outputs for one tree. */
  function Evaluated(g: Prg, party: nat, key: Column, domain: nat): (out: seq<(Block, Block)>)
    requires domain >= 2 && |key.words| == Log2Ceil(domain)
    ensures |out| == domain
  {
    RowsFit(domain);
    LevelSize(g, party, key.root, key.words, |key.words|);
    var c := SeedsAt(g, party, key.root, key.words, |key.words|);
    seq(domain, i requires 0 <= i < domain => OutputOf(g, c[i], key.leaf))
  }

  function OutputOf(g: Prg, seed: Block, gamma: Option<Block>): (Block, Block)
  {
    (if gamma.Some? then Xor(g.leaf(seed), And(TagBit(seed), gamma.value)) else g.leaf(seed), TagBit(seed))
  }

  /** The output at a point, written out: the expansion of the last seed, corrected where its low bit is set, and that bit. */
  lemma EvaluatedWritten(g: Prg, party: nat, key: Column, domain: nat, i: nat)
    requires domain >= 2 && |key.words| == Log2Ceil(domain) && i < domain
    ensures 1 <= |key.words| && |SeedsAt(g, party, key.root, key.words, |key.words|)| >= domain
    ensures var s := SeedsAt(g, party, key.root, key.words, |key.words|)[i];
      Evaluated(g, party, key, domain)[i]
        == (Xor(g.leaf(s), if s[0] && key.leaf.Some? then key.leaf.value else ZERO), seq(128, _ => s[0]))
  {
    hide SeedsAt, Xor, And;
    RowsFit(domain);
    LevelSize(g, party, key.root, key.words, |key.words|);
    var s := SeedsAt(g, party, key.root, key.words, |key.words|)[i];
    XorZero(g.leaf(s), ZERO);
    if key.leaf.Some? { MaskedWord(Lsb(s), key.leaf.value); }
  }

  lemma CorrectedEntry(raw: seq<Block>, tags: seq<Block>, w: Word, i: nat)
    requires |raw| == 2 * |tags| && i < |raw|
    ensures Corrected(raw, tags, w)[i] == Xor(raw[i], And(tags[i / 2], Sigma(w, i % 2)))
  {
    hide Xor, And, Sigma;
    SigmaParity(w, i);
  }

  lemma SumEmpty(c: seq<Block>)
    ensures XorSum(c, 2, 0, 0) == XorSum(c, 2, 1, 0) == ZERO
  {}

  lemma ChildrenSum(g: Prg, c: seq<Block>, i: nat)
    requires i < |c|
    ensures XorSum(Children(g, c), 2, 0, i + 1) == Xor(XorSum(Children(g, c), 2, 0, i), g.left(c[i]))
    ensures XorSum(Children(g, c), 2, 1, i + 1) == Xor(XorSum(Children(g, c), 2, 1, i), g.right(c[i]))
  {
    hide Xor;
    assert Children(g, c)[2 * i] == g.left(c[i]) && Children(g, c)[2 * i + 1] == g.right(c[i]);
  }

  lemma DescendIs(g: Prg, c: seq<Block>, tags: seq<Block>, children: seq<Block>)
    requires |tags| == |c| && |children| == 2 * |c|
    requires forall k :: 0 <= k < |c| ==> tags[k] == TagBit(c[k])
    requires forall k :: 0 <= k < 2 * |c| ==> children[k] == Child(g, c[k / 2], k % 2)
    ensures Descend(g, c) == Level(tags, children) && children == Children(g, c)
  {
    hide Lsb, Saturated;
    assert tags == Tags(c) && children == Children(g, c);
  }

  lemma SumOfOne(s: seq<Block>)
    requires |s| == 2
    ensures XorSum(s, 2, 0, 1) == s[0] && XorSum(s, 2, 1, 1) == s[1]
  {
    assert XorSum(s, 2, 0, 0) == ZERO == XorSum(s, 2, 1, 0);
    XorZero(s[0], ZERO);
    XorZero(s[1], ZERO);
  }

  lemma LevelNext(g: Prg, party: nat, root: (Block, Block), words: seq<Word>, iter: nat)
    requires 1 <= iter <= |words|
    ensures var l := LevelAt(g, party, root, words, iter);
      LevelAt(g, party, root, words, iter + 1) == Descend(g, Corrected(l.raw, l.tags, words[iter - 1]))
  {}
}
