/**
 smallSetVoleFast.h: the unrolled suffix-sum accumulation on 64-bit lanes, the recombination
 of lanes into limbs, and the two parties' outputs. A seed expands to 32-bit words by an
 arbitrary function; the receiver's seeds agree with the sender's except at the punctured leaf.
 */
module SmallSetVole {
  import opened Numbers
  import opened Poly
  import opened Fe25519
  import Forms = Fe25519Forms

  const TWO64: int := 0x1_0000_0000_0000_0000

  type u64 = x: int | 0 <= x < TWO64

  /** Largest tree: 2^12 leaves. */
  const MAX_LEAVES: nat := 4096

  function W64(x: int): (w: u64)
    ensures 0 <= x < TWO64 ==> w == x
  {
    x % TWO64
  }

  /** The vector registers hold the even words of an element first, then the odd words. */
  function WordOfLane(k: nat): (x: nat)
    ensures 8 * (k / 8) <= x < 8 * (k / 8) + 8
  {
    8 * (k / 8) + if k % 8 < 4 then 2 * (k % 8) else 2 * (k % 8 - 4) + 1
  }

  ghost predicate Expansions(ws: seq<seq<u32>>, len: nat)
  {
    forall j :: 0 <= j < |ws| ==> |ws[j]| == 8 * len
  }

  /** The sum over the leaves from `i` up of word `k`, each leaf counted (j - i) or once. */
  function Plain(ws: seq<seq<u32>>, i: nat, k: nat): int
    requires i <= |ws| && forall j :: i <= j < |ws| ==> k < |ws[j]|
    decreases |ws| - i
  {
    if i == |ws| then 0 else ws[i][k] + Plain(ws, i + 1, k)
  }

  function Weighted(ws: seq<seq<u32>>, base: int, i: nat, k: nat): int
    requires i <= |ws| && forall j :: i <= j < |ws| ==> k < |ws[j]|
    decreases |ws| - i
  {
    if i == |ws| then 0 else (i - base) * ws[i][k] + Weighted(ws, base, i + 1, k)
  }

  /** Moving the base down by one adds every later leaf once more: the suffix-sum step. */
  lemma {:induction false} WeightedShift(ws: seq<seq<u32>>, base: int, i: nat, k: nat)
    requires i <= |ws| && forall j :: i <= j < |ws| ==> k < |ws[j]|
    ensures Weighted(ws, base - 1, i, k) == Weighted(ws, base, i, k) + Plain(ws, i, k)
    decreases |ws| - i
  {
    if i < |ws| {
      WeightedShift(ws, base, i + 1, k);
      assert (i - (base - 1)) * ws[i][k] == (i - base) * ws[i][k] + ws[i][k];
    }
  }

  lemma {:induction false} PlainBound(ws: seq<seq<u32>>, i: nat, k: nat)
    requires i <= |ws| && forall j :: i <= j < |ws| ==> k < |ws[j]|
    ensures 0 <= Plain(ws, i, k) <= (|ws| - i) * (TWO32 - 1)
    decreases |ws| - i
  {
    if i < |ws| {
      PlainBound(ws, i + 1, k);
      assert (|ws| - i) * (TWO32 - 1) == (|ws| - (i + 1)) * (TWO32 - 1) + (TWO32 - 1);
    }
  }

  /** n * (n - 1). */
  function Triangle(n: nat): nat
  {
    if n == 0 then 0 else Triangle(n - 1) + 2 * (n - 1)
  }

  lemma {:induction false} TriangleValue(n: nat)
    ensures Triangle(n) == n * (n - 1)
  {
    if n > 0 { TriangleValue(n - 1); }
  }

  lemma {:induction false} WeightedTriangle(ws: seq<seq<u32>>, i: nat, k: nat)
    requires i <= |ws| && forall j :: i <= j < |ws| ==> k < |ws[j]|
    ensures 0 <= Weighted(ws, i, i, k) && 2 * Weighted(ws, i, i, k) <= Triangle(|ws| - i) * (TWO32 - 1)
    decreases |ws| - i
  {
    if i < |ws| {
      WeightedTriangle(ws, i + 1, k);
      WeightedShift(ws, i + 1, i + 1, k);
      PlainBound(ws, i + 1, k);
    }
  }

  /** On up to 4096 leaves neither sum leaves 55 bits. */
  lemma SumsFit(ws: seq<seq<u32>>, i: nat, k: nat)
    requires i <= |ws| <= MAX_LEAVES && forall j :: i <= j < |ws| ==> k < |ws[j]|
    ensures 0 <= Weighted(ws, i, i, k) < 0x80_0000_0000_0000
    ensures 0 <= Plain(ws, i, k) < 0x1000_0000_0000
  {
    var n := |ws| - i;
    WeightedTriangle(ws, i, k);
    TriangleValue(n);
    PlainBound(ws, i, k);
    if n > 0 { MulMono(n, MAX_LEAVES, n - 1); }
  }

  /** Four more leaves, in the order the unrolled loop adds them. */
  lemma FourSteps(ws: seq<seq<u32>>, i: nat, k: nat)
    requires i + 4 <= |ws| && forall j :: i <= j < |ws| ==> k < |ws[j]|
    ensures Plain(ws, i, k) == Plain(ws, i + 4, k) + ws[i + 3][k] + ws[i + 2][k] + ws[i + 1][k] + ws[i][k]
    ensures Weighted(ws, i, i, k) == Weighted(ws, i + 4, i + 4, k) + 4 * Plain(ws, i + 4, k)
                                     + 3 * (ws[i + 3][k] as int) + 2 * (ws[i + 2][k] as int) + ws[i + 1][k]
  {
    WeightedShift(ws, i + 4, i + 4, k);
    WeightedShift(ws, i + 3, i + 3, k);
    WeightedShift(ws, i + 2, i + 2, k);
    WeightedShift(ws, i + 1, i + 1, k);
  }

  ghost predicate LaneStep(u0: int, v0: int, u1: int, v1: int,
                           w1: seq<u32>, w2: seq<u32>, w3: seq<u32>, w4: seq<u32>, x: nat)
  {
    && x < |w1| && x < |w2| && x < |w3| && x < |w4|
    && u1 == u0 + 4 * v0 + 3 * (w1[x] as int) + 2 * (w2[x] as int) + w3[x]
    && v1 == v0 + w1[x] + w2[x] + w3[x] + w4[x]
  }

  /** avx2_expand_and_add4, lane by lane. */
  method ExpandAndAdd4(u: array<u64>, v: array<u64>, len: nat,
                       w1: seq<u32>, w2: seq<u32>, w3: seq<u32>, w4: seq<u32>)
    requires u != v && u.Length == v.Length == 8 * len == |w1| == |w2| == |w3| == |w4|
    requires forall k :: 0 <= k < 8 * len ==> u[k] < 0x80_0000_0000_0000 && v[k] < 0x1000_0000_0000
    modifies u, v
    ensures forall k: nat :: k < 8 * len ==> LaneStep(old(u[k]), old(v[k]), u[k], v[k], w1, w2, w3, w4, WordOfLane(k))
  {
    hide W64, WordOfLane;
    var k := 0;
    while k < 8 * len
      invariant 0 <= k <= 8 * len
      invariant forall m: nat :: m < k ==>
        LaneStep(old(u[m]), old(v[m]), u[m], v[m], w1, w2, w3, w4, WordOfLane(m))
      invariant forall m :: k <= m < 8 * len ==> u[m] == old(u[m]) && v[m] == old(v[m])
    {
      var x := WordOfLane(k);
      var a, b := u[k], v[k];
      a, b := W64(a + b), W64(b + w1[x]);
      a, b := W64(a + b), W64(b + w2[x]);
      a, b := W64(a + b), W64(b + w3[x]);
      a, b := W64(a + b), W64(b + w4[x]);
      u[k], v[k] := a, b;
      k := k + 1;
    }
  }

  ghost predicate LaneSums(us: seq<int>, vs: seq<int>, ws: seq<seq<u32>>, i: nat, len: nat)
    requires i <= |ws| && Expansions(ws, len)
  {
    && |us| == |vs| == 8 * len
    && (forall k: nat :: k < 8 * len ==> us[k] == Weighted(ws, i, i, WordOfLane(k)))
    && (forall k: nat :: k < 8 * len ==> vs[k] == Plain(ws, i, WordOfLane(k)))
  }

  /** The descending loop over the leaves of one tree, four at a time. */
  method SumTree(ws: seq<seq<u32>>, len: nat) returns (us: seq<u64>, vs: seq<u64>)
    requires Expansions(ws, len) && |ws| % 4 == 0 && |ws| <= MAX_LEAVES
    ensures LaneSums(us, vs, ws, 0, len)
  {
    hide Plain, Weighted, WordOfLane;
    var u := new u64[8 * len](_ => 0);
    var v := new u64[8 * len](_ => 0);
    assert u[..] == v[..];
    LaneSumsStart(u[..], ws, len);
    var i := |ws| - 4;
    while i >= 0
      invariant -4 <= i <= |ws| - 4 && i % 4 == 0
      invariant LaneSums(u[..], v[..], ws, i + 4, len)
    {
      ghost var us0, vs0 := u[..], v[..];
      forall k: nat | k < 8 * len
        ensures u[k] < 0x80_0000_0000_0000 && v[k] < 0x1000_0000_0000
      {
        assert us0[k] == u[k] && vs0[k] == v[k];
        SumsFit(ws, i + 4, WordOfLane(k));
      }
      ExpandAndAdd4(u, v, len, ws[i + 3], ws[i + 2], ws[i + 1], ws[i]);
      forall k: nat | k < 8 * len
        ensures u[..][k] == Weighted(ws, i, i, WordOfLane(k)) && v[..][k] == Plain(ws, i, WordOfLane(k))
      {
        FourSteps(ws, i, WordOfLane(k));
        assert us0[k] == Weighted(ws, i + 4, i + 4, WordOfLane(k));
      }
      i := i - 4;
    }
    us, vs := u[..], v[..];
  }

  lemma LaneSumsStart(us: seq<int>, ws: seq<seq<u32>>, len: nat)
    requires Expansions(ws, len) && |us| == 8 * len && forall k :: 0 <= k < |us| ==> us[k] == 0
    ensures LaneSums(us, us, ws, |ws|, len)
  {}

  // ------------------------------------------------- from lanes to limbs

  ghost predicate LimbsOfLanes(limbs: seq<int>, lanes: seq<int>)
  {
    && |limbs| == 4 * |lanes|
    && forall i :: 0 <= i < |lanes| ==>
         && limbs[4 * i] == lanes[i] % 0x1_0000 && limbs[4 * i + 1] == 0
         && limbs[4 * i + 2] == lanes[i] / 0x1_0000 % 0x100 && limbs[4 * i + 3] == lanes[i] / 0x100_0000
  }

  lemma {:induction false} LanesValue(limbs: seq<int>, lanes: seq<int>)
    requires LimbsOfLanes(limbs, lanes)
    ensures Val(limbs) == Eval(lanes, TWO32)
  {
    if lanes != [] {
      forall i | 0 <= i < |lanes| - 1
        ensures limbs[4..][4 * i] == lanes[1..][i] % 0x1_0000 && limbs[4..][4 * i + 1] == 0
        ensures limbs[4..][4 * i + 2] == lanes[1..][i] / 0x1_0000 % 0x100
        ensures limbs[4..][4 * i + 3] == lanes[1..][i] / 0x100_0000
      {
        assert lanes[1..][i] == lanes[i + 1] && limbs[4..][4 * i] == limbs[4 * (i + 1)];
      }
      LanesValue(limbs[4..], lanes[1..]);
      assert limbs[1..][1..] == limbs[2..] && limbs[2..][1..] == limbs[3..] && limbs[3..][1..] == limbs[4..];
      assert limbs[4 * 0] == lanes[0] % 0x1_0000;
      assert limbs[4 * 0 + 2] == lanes[0] / 0x1_0000 % 0x100 && limbs[4 * 0 + 3] == lanes[0] / 0x100_0000;
      assert Val(limbs[3..]) == limbs[3] + 256 * Val(limbs[4..]);
      assert Val(limbs[2..]) == limbs[2] + 256 * Val(limbs[3..]);
      assert Val(limbs[1..]) == limbs[4 * 0 + 1] + 256 * Val(limbs[2..]);
      LaneSplit(lanes[0]);
    }
  }

  lemma LaneSplit(d: int)
    ensures d % 0x1_0000 + 0x1_0000 * (d / 0x1_0000 % 0x100) + 0x100_0000 * (d / 0x100_0000) == d
  {}

  /** bytes_to_fe25519 on the eight lanes of one element. */
  method BytesToFe(lanes: seq<u64>) returns (fe: Limbs)
    requires |lanes| == 8 && forall i :: 0 <= i < 8 ==> lanes[i] < 0x80_0000_0000_0000
    ensures Reduced(fe) && Cong(Val(fe), Eval(lanes, TWO32), P)
  {
    hide W;
    var a: seq<u32> := seq(32, _ => 0);
    var i := 0;
    while i < 8
      invariant 0 <= i <= 8 && |a| == 32
      invariant LimbsOfLanes(a[..4 * i], lanes[..i])
      invariant forall k :: 0 <= k < 4 * i ==> a[k] <= 0x8000_0000
      invariant forall k :: 4 * i <= k < 32 ==> a[k] == 0
    {
      a := a[4 * i := W(a[4 * i] + lanes[i] % 0x1_0000)];
      a := a[4 * i + 2 := W(a[4 * i + 2] + lanes[i] / 0x1_0000 % 0x100)];
      a := a[4 * i + 3 := W(a[4 * i + 3] + W(lanes[i] / 0x100_0000))];
      i := i + 1;
    }
    assert a[..32] == a && lanes[..8] == lanes;
    LanesValue(a, lanes);
    fe := Forms.Reduce(a);
  }

  // -------------------------------------------------- values of the leaves

  /** The element that one expanded seed contributes at position `i`. */
  function LeafElement(w: seq<u32>, i: nat): int
    requires 8 * i + 8 <= |w| && |w| % 8 == 0
  {
    Eval(seq(8, l requires 0 <= l < 8 => WordAt(w, i, l)), TWO32)
  }

  /** Written out: the even words of the element, low to high, then the odd ones. */
  lemma LeafElementWords(w: seq<u32>, i: nat)
    requires 8 * i + 8 <= |w| && |w| % 8 == 0
    ensures LeafElement(w, i) == (w[8 * i] as int) + 0x1_0000_0000 * (w[8 * i + 2] as int) + 0x1_0000_0000_0000_0000 * (w[8 * i + 4] as int)
      + 0x1_0000_0000_0000_0000_0000_0000 * (w[8 * i + 6] as int)
      + 0x1_0000_0000_0000_0000_0000_0000_0000_0000 * (w[8 * i + 1] as int)
      + 0x1_0000_0000_0000_0000_0000_0000_0000_0000_0000_0000 * (w[8 * i + 3] as int)
      + 0x1_0000_0000_0000_0000_0000_0000_0000_0000_0000_0000_0000_0000 * (w[8 * i + 5] as int)
      + 0x1_0000_0000_0000_0000_0000_0000_0000_0000_0000_0000_0000_0000_0000_0000 * (w[8 * i + 7] as int)
  {
    var lanes := seq(8, l requires 0 <= l < 8 => WordAt(w, i, l));
    LaneWords(i);
    EvalEight(lanes);
  }

  lemma LaneWords(i: nat)
    ensures WordOfLane(8 * i) == 8 * i && WordOfLane(8 * i + 1) == 8 * i + 2 && WordOfLane(8 * i + 2) == 8 * i + 4
    ensures WordOfLane(8 * i + 3) == 8 * i + 6 && WordOfLane(8 * i + 4) == 8 * i + 1 && WordOfLane(8 * i + 5) == 8 * i + 3
    ensures WordOfLane(8 * i + 6) == 8 * i + 5 && WordOfLane(8 * i + 7) == 8 * i + 7
  {
    LaneDivision(i, 0); LaneDivision(i, 1); LaneDivision(i, 2); LaneDivision(i, 3);
    LaneDivision(i, 4); LaneDivision(i, 5); LaneDivision(i, 6); LaneDivision(i, 7);
  }

  lemma LaneDivision(i: nat, l: nat)
    requires l < 8
    ensures (8 * i + l) / 8 == i && (8 * i + l) % 8 == l
  {}

  lemma EvalEight(s: seq<int>)
    requires |s| == 8
    ensures Eval(s, TWO32) == s[0] + TWO32 * (s[1] + TWO32 * (s[2] + TWO32 * (s[3]
      + TWO32 * (s[4] + TWO32 * (s[5] + TWO32 * (s[6] + TWO32 * s[7]))))))
  {
    hide Eval;
    EvalHead(s, 0, TWO32); EvalHead(s, 1, TWO32); EvalHead(s, 2, TWO32); EvalHead(s, 3, TWO32);
    EvalHead(s, 4, TWO32); EvalHead(s, 5, TWO32); EvalHead(s, 6, TWO32); EvalHead(s, 7, TWO32);
    EvalZeros(s[8..], TWO32);
    assert s[0..] == s;
  }

  lemma EvalHead(s: seq<int>, k: nat, x: int)
    requires k < |s|
    ensures Eval(s[k..], x) == s[k] + x * Eval(s[k + 1..], x)
  {
    assert s[k..][1..] == s[k + 1..];
  }

  /** The recursion of the leaf sums: leaf j counts c + d * j times. */
  lemma LeafSumStep(ws: seq<seq<u32>>, len: nat, c: int, d: int, i: nat, j: nat)
    requires Expansions(ws, len) && i < len && j <= |ws|
    ensures LeafSum(ws, len, c, d, i, |ws|) == 0
    ensures j < |ws| ==> LeafSum(ws, len, c, d, i, j) == (c + d * j) * LeafElement(ws[j], i) + LeafSum(ws, len, c, d, i, j + 1)
  {
    hide LeafElement;
  }

  function WordAt(w: seq<u32>, i: nat, l: nat): int
    requires 8 * i + 8 <= |w| && |w| % 8 == 0 && l < 8
  {
    w[WordOfLane(8 * i + l)]
  }

  /** The sum of the leaf elements, each weighted by `c` plus `d` times its index. */
  function LeafSum(ws: seq<seq<u32>>, len: nat, c: int, d: int, i: nat, j: nat): int
    requires Expansions(ws, len) && i < len && j <= |ws|
    decreases |ws| - j
  {
    if j == |ws| then 0 else (c + d * j) * LeafElement(ws[j], i) + LeafSum(ws, len, c, d, i, j + 1)
  }

  lemma {:induction false} PlainElement(ws: seq<seq<u32>>, len: nat, i: nat, j: nat, lanes: seq<int>)
    requires Expansions(ws, len) && i < len && j <= |ws| && |lanes| == 8
    requires forall l: nat :: l < 8 ==> lanes[l] == Plain(ws, j, WordOfLane(8 * i + l))
    ensures Eval(lanes, TWO32) == LeafSum(ws, len, 1, 0, i, j)
    decreases |ws| - j
  {
    if j == |ws| {
      EvalZeros(lanes, TWO32);
    } else {
      var rest := seq(8, l requires 0 <= l < 8 => Plain(ws, j + 1, WordOfLane(8 * i + l)));
      var leaf := seq(8, l requires 0 <= l < 8 => WordAt(ws[j], i, l));
      PlainElement(ws, len, i, j + 1, rest);
      assert lanes == AddScaled(rest, leaf, 1);
      EvalAddScaled(rest, leaf, 1, TWO32);
    }
  }

  lemma {:induction false} WeightedElement(ws: seq<seq<u32>>, len: nat, i: nat, j: nat, lanes: seq<int>)
    requires Expansions(ws, len) && i < len && j <= |ws| && |lanes| == 8
    requires forall l: nat :: l < 8 ==> lanes[l] == Weighted(ws, 0, j, WordOfLane(8 * i + l))
    ensures Eval(lanes, TWO32) == LeafSum(ws, len, 0, 1, i, j)
    decreases |ws| - j
  {
    if j == |ws| {
      EvalZeros(lanes, TWO32);
    } else {
      var rest := seq(8, l requires 0 <= l < 8 => Weighted(ws, 0, j + 1, WordOfLane(8 * i + l)));
      var leaf := seq(8, l requires 0 <= l < 8 => WordAt(ws[j], i, l));
      WeightedElement(ws, len, i, j + 1, rest);
      assert lanes == AddScaled(rest, leaf, j);
      EvalAddScaled(rest, leaf, j, TWO32);
    }
  }

  lemma {:induction false} LeafSumCombine(ws: seq<seq<u32>>, len: nat, h: int, i: nat, j: nat)
    requires Expansions(ws, len) && i < len && j <= |ws|
    ensures LeafSum(ws, len, -h, 1, i, j) == LeafSum(ws, len, 0, 1, i, j) - h * LeafSum(ws, len, 1, 0, i, j)
    decreases |ws| - j
  {
    if j < |ws| {
      LeafSumCombine(ws, len, h, i, j + 1);
      CombineLeaf(j, h, LeafElement(ws[j], i), LeafSum(ws, len, 1, 0, i, j + 1));
    }
  }

  lemma CombineLeaf(j: int, h: int, e: int, t: int)
    ensures (1 + 0 * j) * e == e && (0 + 1 * j) * e == j * e && (-h + 1 * j) * e == j * e - h * e
    ensures h * (e + t) == h * e + h * t
  {}

  /** Two families of leaves that may differ only at the leaf `h`. */
  ghost predicate AgreeExcept(ws: seq<seq<u32>>, ws': seq<seq<u32>>, h: int)
  {
    |ws| == |ws'| && forall j :: 0 <= j < |ws| && j != h ==> ws[j] == ws'[j]
  }

  lemma {:induction false} LeafSumPunctured(ws: seq<seq<u32>>, ws': seq<seq<u32>>, len: nat, h: int, i: nat, j: nat)
    requires Expansions(ws, len) && Expansions(ws', len) && AgreeExcept(ws, ws', h) && i < len && j <= |ws|
    ensures LeafSum(ws, len, -h, 1, i, j) == LeafSum(ws', len, -h, 1, i, j)
    decreases |ws| - j
  {
    if j < |ws| { LeafSumPunctured(ws, ws', len, h, i, j + 1); }
  }

  // --------------------------------------------------------- the two parties

  /** The sender's row: u = sum of j * r_j and v = -(sum of r_j). */
  ghost predicate SenderRow(u: seq<Limbs>, v: seq<Limbs>, ws: seq<seq<u32>>, len: nat)
  {
    && Expansions(ws, len) && |u| == |v| == len
    && (forall i: nat :: i < len ==> Reduced(u[i]) && Cong(Val(u[i]), LeafSum(ws, len, 0, 1, i, 0), P))
    && (forall i: nat :: i < len ==> Reduced(v[i]) && Cong(Val(v[i]), -LeafSum(ws, len, 1, 0, i, 0), P))
  }

  /** The receiver's row: o = sum of j * r'_j - h * (sum of r'_j). */
  ghost predicate ReceiverRow(o: seq<Limbs>, ws: seq<seq<u32>>, h: int, len: nat)
  {
    && Expansions(ws, len) && |o| == len
    && forall i: nat :: i < len ==> ReceiverElement(o[i], ws, h, len, i)
  }

  /** The output correlation o = u + h * v, whatever the receiver holds at its punctured leaf. */
  lemma VoleCorrelation(u: seq<Limbs>, v: seq<Limbs>, o: seq<Limbs>, ws: seq<seq<u32>>, ws': seq<seq<u32>>,
                        h: int, len: nat, i: nat)
    requires SenderRow(u, v, ws, len) && ReceiverRow(o, ws', h, len) && AgreeExcept(ws, ws', h) && i < len
    ensures Cong(Val(o[i]), Val(u[i]) + h * Val(v[i]), P)
  {
    hide Cong, LeafSum, Expansions, Reduced;
    var s := LeafSum(ws, len, 1, 0, i, 0);
    assert ReceiverElement(o[i], ws', h, len, i);
    LeafSumPunctured(ws, ws', len, h, i, 0);
    LeafSumCombine(ws, len, h, i, 0);
    CombineCong(Val(u[i]), LeafSum(ws, len, 0, 1, i, 0), h, Val(v[i]), -s);
    assert h * -s == -(h * s);
    CongTrans(Val(o[i]), LeafSum(ws, len, -h, 1, i, 0), Val(u[i]) + h * Val(v[i]));
  }

  lemma CombineCong(u: int, u': int, h: int, v: int, v': int)
    requires Cong(u, u', P) && Cong(v, v', P)
    ensures Cong(u' + h * v', u + h * v, P) && Cong(u - h * v, u' - h * v', P)
  {
    CongMul(h, h, v, v', P);
    CongAdd(u, u', h * v, h * v', P);
  }

  lemma CongTrans(a: int, b: int, c: int)
    requires Cong(a, b, P) && Cong(b, c, P)
    ensures Cong(a, c, P)
  {}

  /** The eight lanes of element `i` recombine to the weighted and plain leaf sums. */
  method Elements(us: seq<u64>, vs: seq<u64>, ghost ws: seq<seq<u32>>, len: nat)
    returns (u: seq<Limbs>, v: seq<Limbs>)
    requires Expansions(ws, len) && |ws| <= MAX_LEAVES && LaneSums(us, vs, ws, 0, len)
    ensures |u| == |v| == len
    ensures forall i: nat :: i < len ==> Reduced(u[i]) && Cong(Val(u[i]), LeafSum(ws, len, 0, 1, i, 0), P)
    ensures forall i: nat :: i < len ==> Reduced(v[i]) && Cong(Val(v[i]), LeafSum(ws, len, 1, 0, i, 0), P)
  {
    u, v := [], [];
    var i := 0;
    while i < len
      invariant 0 <= i <= len && |u| == |v| == i
      invariant forall k: nat :: k < i ==> Reduced(u[k]) && Cong(Val(u[k]), LeafSum(ws, len, 0, 1, k, 0), P)
      invariant forall k: nat :: k < i ==> Reduced(v[k]) && Cong(Val(v[k]), LeafSum(ws, len, 1, 0, k, 0), P)
    {
      var ue, ve := ElementOf(us, vs, ws, len, i);
      u, v := u + [ue], v + [ve];
      i := i + 1;
    }
  }

  method ElementOf(us: seq<u64>, vs: seq<u64>, ghost ws: seq<seq<u32>>, len: nat, i: nat)
    returns (u: Limbs, v: Limbs)
    requires Expansions(ws, len) && |ws| <= MAX_LEAVES && LaneSums(us, vs, ws, 0, len) && i < len
    ensures Reduced(u) && Cong(Val(u), LeafSum(ws, len, 0, 1, i, 0), P)
    ensures Reduced(v) && Cong(Val(v), LeafSum(ws, len, 1, 0, i, 0), P)
  {
    var ul, vl := us[8 * i..8 * i + 8], vs[8 * i..8 * i + 8];
    forall l: nat | l < 8
      ensures ul[l] == Weighted(ws, 0, 0, WordOfLane(8 * i + l)) < 0x80_0000_0000_0000
      ensures vl[l] == Plain(ws, 0, WordOfLane(8 * i + l)) < 0x80_0000_0000_0000
    {
      assert us[8 * i + l] == Weighted(ws, 0, 0, WordOfLane(8 * i + l));
      assert vs[8 * i + l] == Plain(ws, 0, WordOfLane(8 * i + l));
      SumsFit(ws, 0, WordOfLane(8 * i + l));
    }
    WeightedElement(ws, len, i, 0, ul);
    PlainElement(ws, len, i, 0, vl);
    u := BytesToFe(ul);
    v := BytesToFe(vl);
  }

  /** The leaves of one tree, from position `start` of the seed vector on. */
  function Leaves<B>(b: seq<B>, expand: B -> seq<u32>, start: nat, n: nat): (ws: seq<seq<u32>>)
    requires start + n <= |b|
    ensures |ws| == n && forall i :: 0 <= i < n ==> ws[i] == expand(b[start + i])
  {
    seq(n, i requires 0 <= i < n => expand(b[start + i]))
  }

  lemma {:induction false} LeafCount(bits: nat)
    requires 2 <= bits <= 12
    ensures 4 <= Pow(2, bits) <= MAX_LEAVES && Pow(2, bits) % 4 == 0
  {
    if bits == 2 {
      assert Pow(2, 2) == 4;
    } else {
      LeafCountBelow(bits);
    }
  }

  lemma {:induction false} LeafCountBelow(bits: nat)
    requires 2 <= bits <= 12
    ensures Pow(2, bits) % 4 == 0 && Pow(2, bits) >= 4 && Pow(2, bits) * Pow(2, 12 - bits) == 4096
    decreases bits
  {
    PowAdd(2, bits, 12 - bits);
    assert Pow(2, 12) == 4096;
    if bits > 2 { LeafCountBelow(bits - 1); } else { assert Pow(2, 2) == 4; }
    PowPositive(2, 12 - bits);
  }

  /** One tree of SmallSetVoleSender25519::send. */
  method SendTree(ws: seq<seq<u32>>, len: nat) returns (u: seq<Limbs>, v: seq<Limbs>)
    requires Expansions(ws, len) && |ws| % 4 == 0 && |ws| <= MAX_LEAVES
    ensures SenderRow(u, v, ws, len)
  {
    var us, vs := SumTree(ws, len);
    u, v := Elements(us, vs, ws, len);
    ghost var total := v;
    var i := 0;
    while i < len
      invariant 0 <= i <= len == |v|
      invariant forall k: nat :: k < i ==> Reduced(v[k]) && Cong(Val(v[k]), -LeafSum(ws, len, 1, 0, k, 0), P)
      invariant forall k :: i <= k < len ==> v[k] == total[k]
    {
      var n := Forms.Neg(v[i]);
      CongAdd(0, 0, Val(v[i]), LeafSum(ws, len, 1, 0, i, 0), P);
      v := v[i := n];
      i := i + 1;
    }
  }

  /** The receiver's scaling of one element by the small index `h`, then the subtraction. */
  method ScaleAndSubtract(o: Limbs, t: Limbs, h: nat) returns (r: Limbs)
    requires Reduced(o) && Reduced(t) && h < MAX_LEAVES
    ensures Reduced(r) && Cong(Val(r), Val(o) - h * Val(t), P)
  {
    hide W;
    var s := Forms.Reduce(t);
    var scaled: Limbs := s;
    var l := 0;
    while l < 32
      invariant 0 <= l <= 32
      invariant forall k :: 0 <= k < l ==> scaled[k] == h * s[k] && 0 <= scaled[k] <= 0x8000_0000
      invariant forall k :: l <= k < 32 ==> scaled[k] == s[k]
    {
      MulNonNeg(h, s[l]);
      MulMono(h, 4095, s[l]);
      scaled := scaled[l := W(h * s[l])];
      l := l + 1;
    }
    var zeros := seq(32, _ => 0);
    assert scaled == AddScaled(zeros, s, h);
    EvalAddScaled(zeros, s, h, 256);
    EvalZeros(zeros, 256);
    var p := Forms.Reduce(scaled);
    r := Forms.SubReduce(o, p);
    CongMul(h, h, Val(s), Val(t), P);
    CongAdd(Val(o), Val(o), Val(p), h * Val(t), P);
  }

  /** One tree of SmallSetVoleReceiver25519::receive. */
  method ReceiveTree(ws: seq<seq<u32>>, h: nat, len: nat) returns (o: seq<Limbs>)
    requires Expansions(ws, len) && |ws| % 4 == 0 && h < |ws| <= MAX_LEAVES
    ensures ReceiverRow(o, ws, h, len)
  {
    var us, vs := SumTree(ws, len);
    var start, temp := Elements(us, vs, ws, len);
    o := start;
    var k := 0;
    while k < len
      invariant 0 <= k <= len == |o|
      invariant forall m: nat :: m < k ==> ReceiverElement(o[m], ws, h, len, m)
      invariant forall m :: k <= m < len ==> o[m] == start[m]
    {
      var r := ScaleAndSubtract(o[k], temp[k], h);
      ReceiverElementFrom(r, start[k], temp[k], ws, h, len, k);
      o := o[k := r];
      k := k + 1;
    }
  }

  ghost predicate ReceiverElement(o: Limbs, ws: seq<seq<u32>>, h: int, len: nat, i: nat)
    requires Expansions(ws, len) && i < len
  {
    Reduced(o) && Cong(Val(o), LeafSum(ws, len, -h, 1, i, 0), P)
  }

  lemma ReceiverElementFrom(r: Limbs, o: Limbs, t: Limbs, ws: seq<seq<u32>>, h: int, len: nat, i: nat)
    requires Expansions(ws, len) && i < len && Reduced(r) && Cong(Val(r), Val(o) - h * Val(t), P)
    requires Cong(Val(o), LeafSum(ws, len, 0, 1, i, 0), P) && Cong(Val(t), LeafSum(ws, len, 1, 0, i, 0), P)
    ensures ReceiverElement(r, ws, h, len, i)
  {
    LeafSumCombine(ws, len, h, i, 0);
    CombineCong(Val(o), LeafSum(ws, len, 0, 1, i, 0), h, Val(t), LeafSum(ws, len, 1, 0, i, 0));
  }

  ghost predicate SeedsExpand<B>(b: seq<B>, expand: B -> seq<u32>, len: nat)
  {
    forall i :: 0 <= i < |b| ==> |expand(b[i])| == 8 * len
  }

  ghost predicate SentTree<B>(u: seq<Limbs>, v: seq<Limbs>, b: seq<B>, expand: B -> seq<u32>,
                              tree: nat, n: nat, len: nat)
  {
    0 <= n * tree && n * tree + n <= |b| && SenderRow(u, v, Leaves(b, expand, n * tree, n), len)
  }

  ghost predicate ReceivedTree<B>(o: seq<Limbs>, h: nat, a: seq<B>, expand: B -> seq<u32>,
                                  tree: nat, n: nat, len: nat)
  {
    0 <= n * tree && n * tree + n <= |a| && ReceiverRow(o, Leaves(a, expand, n * tree, n), h, len)
  }

  /** What the sender's vectors of one tree hold, from its seeds. */
  lemma SentTreeMeans<B>(u: seq<Limbs>, v: seq<Limbs>, b: seq<B>, expand: B -> seq<u32>, tree: nat, n: nat, len: nat, i: nat)
    requires SentTree(u, v, b, expand, tree, n, len) && i < len
    ensures |u| == |v| == len && 0 <= n * tree && n * tree + n <= |b|
    ensures var ws := seq(n, j requires 0 <= j < n => expand(b[n * tree + j]));
      && Expansions(ws, len)
      && 0 <= Val(u[i]) < 128 * R248 && Val(u[i]) % P == LeafSum(ws, len, 0, 1, i, 0) % P
      && 0 <= Val(v[i]) < 128 * R248 && Val(v[i]) % P == -LeafSum(ws, len, 1, 0, i, 0) % P
  {
    hide LeafSum;
    var ws := seq(n, j requires 0 <= j < n => expand(b[n * tree + j]));
    assert ws == Leaves(b, expand, n * tree, n);
    ReducedBelow(u[i]);
    ReducedBelow(v[i]);
  }

  lemma ReducedBelow(s: Limbs)
    requires Reduced(s)
    ensures 0 <= Val(s) < 128 * R248
  {
    SplitTop(s);
    ValBound(s[..31], 255);
    Pow256();
  }

  /** What the receiver's vector of one tree holds. */
  lemma ReceivedTreeMeans<B>(o: seq<Limbs>, h: nat, a: seq<B>, expand: B -> seq<u32>, tree: nat, n: nat, len: nat, i: nat)
    requires ReceivedTree(o, h, a, expand, tree, n, len) && i < len
    ensures |o| == len && 0 <= n * tree && n * tree + n <= |a|
    ensures var ws := seq(n, j requires 0 <= j < n => expand(a[n * tree + j]));
      Expansions(ws, len) && Val(o[i]) % P == LeafSum(ws, len, -(h as int), 1, i, 0) % P
  {
    hide LeafSum;
    var ws := seq(n, j requires 0 <= j < n => expand(a[n * tree + j]));
    assert ws == Leaves(a, expand, n * tree, n);
    assert ReceiverElement(o[i], ws, h, len, i);
  }

  /** SmallSetVoleSender25519::send: `repeat` trees of 2^bits leaves from tree `offset` on. */
  method Send<B>(b: seq<B>, expand: B -> seq<u32>, offset: nat, bits: nat, repeat: nat, len: nat)
    returns (u: seq<seq<Limbs>>, v: seq<seq<Limbs>>)
    requires 2 <= bits <= 12 && SeedsExpand(b, expand, len) && (offset + repeat) * Pow(2, bits) <= |b|
    ensures |u| == |v| == repeat
    ensures Pow(2, bits) >= 0
    ensures forall j: nat :: j < repeat ==> SentTree(u[j], v[j], b, expand, offset + j, Pow(2, bits), len)
  {
    LeafCount(bits);
    var n := Pow(2, bits);
    u, v := [], [];
    var j := 0;
    while j < repeat
      invariant 0 <= j <= repeat && |u| == |v| == j
      invariant forall k: nat :: k < j ==> SentTree(u[k], v[k], b, expand, offset + k, n, len)
    {
      TreeRange(n, offset, j, repeat);
      var uj, vj := SendTree(Leaves(b, expand, n * (offset + j), n), len);
      u, v := u + [uj], v + [vj];
      j := j + 1;
    }
  }

  lemma TreeRange(n: nat, offset: nat, j: nat, repeat: nat)
    requires j < repeat
    ensures 0 <= n * (offset + j) && n * (offset + j) + n <= (offset + repeat) * n
  {
    MulMono(offset + j + 1, offset + repeat, n);
    assert n * (offset + j) + n == (offset + j + 1) * n;
  }

  /** SmallSetVoleReceiver25519::receive; the small index of tree j is the puncture point. */
  method Receive<B>(a: seq<B>, expand: B -> seq<u32>, offset: nat, points: seq<nat>, bits: nat, repeat: nat, len: nat)
    returns (o: seq<seq<Limbs>>, h: seq<nat>)
    requires 2 <= bits <= 12 && SeedsExpand(a, expand, len) && (offset + repeat) * Pow(2, bits) <= |a|
    requires offset + repeat <= |points| && forall k :: 0 <= k < |points| ==> points[k] < Pow(2, bits)
    ensures |o| == repeat && h == points[offset..offset + repeat]
    ensures Pow(2, bits) >= 0
    ensures forall j: nat :: j < repeat ==> ReceivedTree(o[j], h[j], a, expand, offset + j, Pow(2, bits), len)
  {
    LeafCount(bits);
    var n := Pow(2, bits);
    o, h := [], [];
    var j := 0;
    while j < repeat
      invariant 0 <= j <= repeat && |o| == j && h == points[offset..offset + j]
      invariant forall k: nat :: k < j ==> ReceivedTree(o[k], h[k], a, expand, offset + k, n, len)
    {
      TreeRange(n, offset, j, repeat);
      var oj := ReceiveTree(Leaves(a, expand, n * (offset + j), n), points[offset + j], len);
      o, h := o + [oj], h + [points[offset + j]];
      j := j + 1;
    }
  }
}
