/**
 field25519/fe25519.cpp: 32 limbs of 32 bits in radix 256, modulo 2^255 - 19
 (the prime of section 4.1 of RFC 7748).

 Every 32-bit operation is written with its wrap-around, `W`. A C shift or mask by a power
 of two is a division or remainder. A struct copy is a sequence value; the loops that rewrite
 limbs in place work on an array.
 */
module Fe25519 {
  import opened Numbers
  import opened Poly

  const P: int := 0x7fff_ffff_ffff_ffff_ffff_ffff_ffff_ffff_ffff_ffff_ffff_ffff_ffff_ffff_ffff_ffed
  const R248: int := 0x1_0000_0000_0000_0000_0000_0000_0000_0000_0000_0000_0000_0000_0000_0000_0000_00
  const TWO32: int := 0x1_0000_0000

  type u32 = x: int | 0 <= x < TWO32

  type Limbs = s: seq<u32> | |s| == 32 witness seq(32, i => 0)

  /** Wrap-around of a 32-bit result. */
  function W(x: int): (w: u32)
    ensures 0 <= x < TWO32 ==> w == x
  {
    x % TWO32
  }

  function Val(s: seq<int>): int
  {
    Eval(s, 256)
  }

  // ------------------------------------------------- radix-256 numerals

  /** The numeral of length `n` with value `v` whose limbs below the top one are bytes. */
  function Digits(v: int, n: nat): (s: seq<int>)
    requires n > 0
    ensures |s| == n
    decreases n, v
  {
    if n == 1 then [v] else [v % 256] + Digits(v / 256, n - 1)
  }

  ghost predicate BytesBelowTop(s: seq<int>)
  {
    forall i :: 0 <= i < |s| - 1 ==> 0 <= s[i] <= 255
  }

  lemma {:induction false} DigitsUnique(s: seq<int>)
    requires s != [] && BytesBelowTop(s)
    ensures s == Digits(Val(s), |s|)
  {
    if |s| == 1 {
      assert s == [s[0]];
      EvalSingle(s[0], 256);
    } else {
      DigitsUnique(s[1..]);
      var v := Val(s[1..]);
      ModUnique(Val(s), v, s[0], 256);
      assert s == [s[0]] + s[1..];
    }
  }

  lemma Pow256()
    ensures Pow(256, 31) == R248 && Pow(256, 32) == 256 * R248
    ensures P == 128 * R248 - 19
  {
    assert Pow(256, 1) == 256 && Pow(256, 2) == 0x1_0000;
    PowAdd(256, 2, 2);
    PowAdd(256, 4, 4);
    PowAdd(256, 8, 8);
    PowAdd(256, 16, 8);
    PowAdd(256, 24, 4);
    PowAdd(256, 28, 2);
    PowAdd(256, 30, 1);
  }

  lemma {:induction false} ValBound(s: seq<int>, b: nat)
    requires forall i :: 0 <= i < |s| ==> 0 <= s[i] <= b
    ensures 0 <= 255 * Val(s) <= b * (Pow(256, |s|) - 1)
  {
    if s != [] {
      ValBound(s[1..], b);
      var q := Pow(256, |s| - 1);
      assert 255 * b + 256 * (b * (q - 1)) == b * (256 * q - 1);
    }
  }

  lemma SplitTop(s: seq<int>)
    requires |s| == 32
    ensures Val(s) == Val(s[..31]) + s[31] * R248
  {
    assert s[..32] == s;
    EvalPrefix(s, 31, 256);
    Pow256();
  }

  /** Moving `t` units of limb `i` into limb `i + 1` keeps the value. */
  lemma CarryMove(s: seq<int>, i: nat, t: int)
    requires i + 1 < |s|
    ensures Val(s[i + 1 := s[i + 1] + t][i := s[i] - 256 * t]) == Val(s)
  {
    var u := s[i + 1 := s[i + 1] + t];
    EvalUpdate(s, i + 1, t, 256);
    EvalUpdate(u, i, -256 * t, 256);
    assert u[i] == s[i];
    assert t * (256 * Pow(256, i)) == 256 * t * Pow(256, i);
  }

  /** What one carry pass computes: subtract the multiple of p above bit 255, then renumber. */
  function Pass(s: seq<int>): seq<int>
    requires |s| == 32
  {
    Digits(Val(s) - (s[31] / 128) * P, 32)
  }

  lemma FoldTop(s: seq<int>, t: int)
    requires |s| == 32
    ensures Val(s[31 := s[31] - 128 * t][0 := s[0] + 19 * t]) == Val(s) - t * P
  {
    var u := s[31 := s[31] - 128 * t];
    EvalUpdate(s, 31, -128 * t, 256);
    EvalUpdate(u, 0, 19 * t, 256);
    Pow256();
  }

  /** One repetition of the carry loop shared by fe25519_reduce_add_sub and reduce_mul. */
  method CarryPass(r: array<u32>)
    requires r.Length == 32
    requires r[0] + 19 * (r[31] / 128) < TWO32
    requires forall i :: 1 <= i < 31 ==> r[i] < TWO32 - 0x100_0000
    modifies r
    ensures r[..] == Pass(old(r[..])) && BytesBelowTop(r[..])
    ensures Val(r[..]) == old(Val(r[..])) - old(r[31] / 128) * P
  {
    hide W;
    ghost var was := r[..];
    var t: u32 := r[31] / 128;
    r[31] := r[31] % 128;
    t := W(t * 19);
    r[0] := W(r[0] + t);
    ghost var mid := r[..];
    assert mid == was[31 := was[31] - 128 * (was[31] / 128)][0 := was[0] + 19 * (was[31] / 128)];
    FoldTop(was, was[31] / 128);
    var i := 0;
    while i < 31
      invariant 0 <= i <= 31
      invariant Val(r[..]) == Val(mid)
      invariant forall k :: 0 <= k < i ==> r[k] <= 255
      invariant forall k :: i < k < 32 ==> r[k] == mid[k]
      invariant mid[i] <= r[i] && (i > 0 ==> r[i] < mid[i] + 0x100_0000)
    {
      ghost var before := r[..];
      t := r[i] / 256;
      r[i + 1] := W(r[i + 1] + t);
      r[i] := r[i] % 256;
      assert r[..] == before[i + 1 := before[i + 1] + t][i := before[i] - 256 * t];
      CarryMove(before, i, t);
      i := i + 1;
    }
    DigitsUnique(r[..]);
  }

  lemma PassTop(s: seq<int>)
    requires |s| == 32 && BytesBelowTop(Pass(s))
    requires Val(Pass(s)) == Val(s) - (s[31] / 128) * P
    ensures Val(s[..31]) + (s[31] % 128) * R248 + 19 * (s[31] / 128) == Val(Pass(s)[..31]) + Pass(s)[31] * R248
    ensures 0 <= Val(Pass(s)[..31]) < R248
  {
    SplitTop(s);
    SplitTop(Pass(s));
    ValBound(Pass(s)[..31], 255);
    Pow256();
    assert s[31] * R248 == (128 * (s[31] / 128) + s[31] % 128) * R248;
  }

  ghost predicate Reduced(s: seq<int>)
  {
    |s| == 32 && BytesBelowTop(s) && 0 <= s[31] <= 127
  }

  lemma PassCong(v: int, t: int, v': int)
    requires v' == v - t * P
    ensures Cong(v', v, P)
  {
    CongFrom(v', v, -t, P);
  }

  /** fe25519_reduce_add_sub: four carry passes on limbs of at most 2^31. */
  method ReduceAddSub(r: array<u32>)
    requires r.Length == 32 && forall i :: 0 <= i < 32 ==> r[i] <= 0x8000_0000
    modifies r
    ensures Reduced(r[..]) && Cong(Val(r[..]), old(Val(r[..])), P)
    ensures 0 <= Val(r[..]) < 128 * R248
  {
    Pow256();
    var rep := 0;
    while rep < 4
      invariant 0 <= rep <= 4
      invariant Cong(Val(r[..]), old(Val(r[..])), P)
      invariant rep == 0 ==> forall i :: 0 <= i < 32 ==> r[i] <= 0x8000_0000
      invariant rep >= 1 ==> BytesBelowTop(r[..])
      invariant rep == 1 ==> r[31] <= 0x90_0000
      invariant rep == 2 ==> r[31] <= 128
      invariant rep >= 3 ==> r[31] <= 127
    {
      ghost var was := r[..];
      assert forall i :: 0 <= i < 31 && rep >= 1 ==> was[i] <= 255;
      CarryPass(r);
      PassCong(Val(was), was[31] / 128, Val(r[..]));
      PassTop(was);
      ValBound(was[..31], if rep == 0 then 0x8000_0000 else 255);
      rep := rep + 1;
    }
    SplitTop(r[..]);
    ValBound(r[..][..31], 255);
  }

  // ------------------------------------------------------- multiplication

  const MAX_PRODUCT: int := 3_600_000

  /** The range of operands on which the 32-bit accumulators cannot wrap. */
  ghost predicate ProductsFit(x: seq<int>, y: seq<int>)
  {
    forall i, j :: 0 <= i < |x| && 0 <= j < |y| ==> 0 <= x[i] * y[j] <= MAX_PRODUCT
  }

  /** How many of the rows below `i` contribute to coefficient `k`. */
  function Terms(i: int, k: int): int
  {
    var lo, hi := if k > 31 then k - 31 else 0, if i < k + 1 then i else k + 1;
    if lo < hi then hi - lo else 0
  }

  lemma {:induction false} RowSumBound(x: seq<int>, y: seq<int>, i: nat, k: nat)
    requires |x| == |y| == 32 && i <= 32 && ProductsFit(x, y)
    ensures 0 <= RowSum(x, y, i, k) <= MAX_PRODUCT * Terms(i, k)
  {
    if i > 0 { RowSumBound(x, y, i - 1, k); }
  }

  /** The 63 product coefficients folded to 32 limbs with 2^256 = 38. */
  function Fold(t: seq<int>): seq<int>
    requires |t| == 63
  {
    AddScaled(t[..32], t[32..], 38)
  }

  lemma FoldValue(t: seq<int>)
    requires |t| == 63
    ensures Cong(Val(Fold(t)), Val(t), P)
  {
    EvalAddScaled(t[..32], t[32..], 38, 256);
    assert t == t[..32] + t[32..];
    EvalAppend(t[..32], t[32..], 256);
    Pow256();
    CongFrom(Val(t), Val(Fold(t)), 2 * Val(t[32..]), P);
    assert 256 * R248 == 2 * P + 38;
  }

  /** What mul computes, as one expression of its operands. */
  function MulLimbs(x: seq<int>, y: seq<int>): seq<int>
    requires |x| == |y| == 32
  {
    Pass(Pass(Fold(Conv(x, y))))
  }

  ghost predicate MulOutput(s: seq<int>)
  {
    |s| == 32 && BytesBelowTop(s) && 0 <= s[31] <= 128
  }

  /** The largest value of folded limb `k`. */
  ghost predicate FoldedBounds(r: seq<int>)
  {
    && |r| == 32
    && 0 <= r[0] <= 4_244_400_000
    && (forall i :: 1 <= i < 31 ==> 0 <= r[i] <= 4_111_200_000)
    && 0 <= r[31] <= 115_200_000
  }

  /** reduce_mul: two carry passes. */
  method ReduceMul(r: array<u32>)
    requires r.Length == 32 && FoldedBounds(r[..])
    modifies r
    ensures r[..] == Pass(Pass(old(r[..]))) && MulOutput(r[..])
    ensures Cong(Val(r[..]), old(Val(r[..])), P)
  {
    Pow256();
    var rep := 0;
    ghost var last := r[..];
    while rep < 2
      invariant 0 <= rep <= 2
      invariant Cong(Val(r[..]), old(Val(r[..])), P)
      invariant rep == 0 ==> r[..] == old(r[..])
      invariant rep == 1 ==> r[..] == Pass(old(r[..])) && BytesBelowTop(r[..]) && r[31] <= 0x400_0000
      invariant rep == 2 ==> r[..] == Pass(Pass(old(r[..]))) && MulOutput(r[..])
    {
      ghost var was := r[..];
      assert forall i :: 0 <= i < 32 ==> was[i] == r[i];
      CarryPass(r);
      PassCong(Val(was), was[31] / 128, Val(r[..]));
      PassTop(was);
      ValBound(was[..31], if rep == 0 then 4_244_400_000 else 255);
      rep := rep + 1;
    }
  }

  ghost predicate CoefficientsFit(t: seq<int>)
  {
    |t| == 63 && forall k :: 0 <= k < 63 ==> 0 <= t[k] <= MAX_PRODUCT * if k < 32 then k + 1 else 63 - k
  }

  lemma CoefficientBounds(t: seq<int>, x: seq<int>, y: seq<int>)
    requires |x| == |y| == 32 && ProductsFit(x, y) && t == Conv(x, y)
    ensures CoefficientsFit(t) && FoldedBounds(Fold(t))
  {
    forall k | 0 <= k < 63 ensures 0 <= t[k] <= MAX_PRODUCT * if k < 32 then k + 1 else 63 - k {
      RowSumBound(x, y, 32, k);
    }
    forall k | 0 <= k < 31 ensures Fold(t)[k] <= MAX_PRODUCT * (k + 1 + 38 * (31 - k)) {
      assert t[..32][k] == t[k] && t[32..][k] == t[k + 32];
    }
    assert t[..32][31] == t[31];
  }

  /** The fold by 38, which cannot wrap on product coefficients in range. */
  method FoldLimbs(t: array<u32>) returns (a: array<u32>)
    requires t.Length == 63 && CoefficientsFit(t[..])
    ensures fresh(a) && a[..] == Fold(t[..])
  {
    hide W;
    assert forall k :: 0 <= k < 63 ==> t[..][k] == t[k];
    a := new u32[32](_ => 0);
    var i := 32;
    while i < 63
      invariant 32 <= i <= 63
      invariant forall k :: 0 <= k < i - 32 ==> a[k] == t[k] + 38 * t[k + 32]
    {
      a[i - 32] := W(t[i - 32] + W(38 * t[i]));
      i := i + 1;
    }
    a[31] := t[31];
  }

  /** The second half of mul and square: the fold by 38, then reduce_mul. */
  method FoldAndReduce(t: array<u32>, ghost x: seq<int>, ghost y: seq<int>) returns (r: Limbs)
    requires t.Length == 63 && |x| == |y| == 32 && ProductsFit(x, y) && t[..] == Conv(x, y)
    ensures r == MulLimbs(x, y) && MulOutput(r)
    ensures Cong(Val(r), Val(x) * Val(y), P)
  {
    CoefficientBounds(t[..], x, y);
    FoldValue(t[..]);
    EvalConv(x, y, 256);
    var a := FoldLimbs(t);
    ReduceMul(a);
    r := a[..];
  }

  method Mul(x: Limbs, y: Limbs) returns (r: Limbs)
    requires ProductsFit(x, y)
    ensures r == MulLimbs(x, y) && MulOutput(r)
    ensures Cong(Val(r), Val(x) * Val(y), P)
  {
    hide W;
    var t := new u32[63](_ => 0);
    AccumulateStart(t[..], x, y);
    var i := 0;
    while i < 32
      invariant 0 <= i <= 32
      invariant Accumulated(t[..], x, y, i, 0)
    {
      var j := 0;
      while j < 32
        invariant 0 <= j <= 32
        invariant j < 32 ==> Accumulated(t[..], x, y, i, j)
        invariant j == 32 ==> Accumulated(t[..], x, y, i + 1, 0)
      {
        ghost var before := t[..];
        RowSumBound(x, y, i, i + j);
        AccumulateStep(before, x, y, i, j);
        assert t[i + j] == RowSum(x, y, i, i + j);
        t[i + j] := W(t[i + j] + W(x[i] * y[j]));
        assert t[..] == before[i + j := before[i + j] + x[i] * y[j]];
        j := j + 1;
      }
      i := i + 1;
    }
    AccumulateEnd(t[..], x, y);
    r := FoldAndReduce(t, x, y);
  }

  // ------------------------------------------------------------- squaring

  /** The contribution of row `a` of the squaring loop to coefficient `k`. */
  function SquareTerm(x: seq<int>, a: nat, k: int): int
    requires a < |x|
  {
    if k == 2 * a then x[a] * x[a]
    else if a < k - a < |x| then 2 * x[a] * x[k - a]
    else 0
  }

  function SquareSum(x: seq<int>, i: nat, k: int): int
    requires i <= |x|
  {
    if i == 0 then 0 else SquareSum(x, i - 1, k) + SquareTerm(x, i - 1, k)
  }

  function RowTerm(x: seq<int>, a: nat, k: int): int
    requires a < |x|
  {
    if 0 <= k - a < |x| then x[a] * x[k - a] else 0
  }

  /** The difference between the two sums over the rows in [lo, hi). */
  function Excess(x: seq<int>, lo: nat, hi: nat, k: int): int
    requires lo <= hi <= |x|
    decreases hi - lo
  {
    if lo == hi then 0 else Excess(x, lo, hi - 1, k) + SquareTerm(x, hi - 1, k) - RowTerm(x, hi - 1, k)
  }

  lemma {:induction false} ExcessSplit(x: seq<int>, lo: nat, mid: nat, hi: nat, k: int)
    requires lo <= mid <= hi <= |x|
    ensures Excess(x, lo, hi, k) == Excess(x, lo, mid, k) + Excess(x, mid, hi, k)
    decreases hi
  {
    if mid < hi { ExcessSplit(x, lo, mid, hi - 1, k); }
  }

  lemma {:induction false} ExcessOutside(x: seq<int>, lo: nat, hi: nat, k: int)
    requires lo <= hi <= |x|
    requires lo == hi || k < lo || k - hi >= |x| - 1
    ensures Excess(x, lo, hi, k) == 0
    decreases hi
  {
    if lo < hi { ExcessOutside(x, lo, hi - 1, k); }
  }

  /** Rows `a` and `k - a` together balance: one doubled product against two single ones. */
  lemma {:induction false} ExcessMirror(x: seq<int>, lo: nat, hi: nat, k: int)
    requires lo <= hi <= |x| && lo + hi == k + 1
    ensures Excess(x, lo, hi, k) == 0
    decreases hi - lo
  {
    if lo + 1 == hi {
      assert Excess(x, lo, lo, k) == 0;
    } else if lo < hi {
      ExcessMirror(x, lo + 1, hi - 1, k);
      ExcessSplit(x, lo, lo + 1, hi - 1, k);
      assert Excess(x, lo, lo, k) == 0;
      assert SquareTerm(x, lo, k) == 2 * x[lo] * x[hi - 1] && SquareTerm(x, hi - 1, k) == 0;
      assert RowTerm(x, lo, k) == x[lo] * x[hi - 1] && RowTerm(x, hi - 1, k) == x[hi - 1] * x[lo];
    }
  }

  lemma {:induction false} ExcessIsDifference(x: seq<int>, i: nat, k: int)
    requires i <= |x|
    ensures Excess(x, 0, i, k) == SquareSum(x, i, k) - RowSum(x, x, i, k)
  {
    if i > 0 { ExcessIsDifference(x, i - 1, k); }
  }

  /** The squaring loop accumulates exactly the coefficients of the full product. */
  lemma SquareIsProduct(x: seq<int>, k: nat)
    requires k <= 2 * |x| - 2
    ensures SquareSum(x, |x|, k) == RowSum(x, x, |x|, k)
  {
    var n := |x|;
    var lo, hi := if k < n then 0 else k - n + 1, if k < n then k + 1 else n;
    ExcessSplit(x, 0, lo, n, k);
    ExcessSplit(x, lo, hi, n, k);
    ExcessOutside(x, 0, lo, k);
    ExcessMirror(x, lo, hi, k);
    ExcessOutside(x, hi, n, k);
    ExcessIsDifference(x, n, k);
  }

  lemma {:induction false} SquareSumGrows(x: seq<int>, i: nat, j: nat, k: int)
    requires i <= j <= |x| && ProductsFit(x, x)
    ensures 0 <= SquareSum(x, i, k) <= SquareSum(x, j, k)
    decreases j
  {
    if i < j {
      SquareSumGrows(x, i, j - 1, k);
      SquareTermNonNeg(x, j - 1, k);
    } else if i > 0 {
      SquareSumGrows(x, i - 1, i - 1, k);
      SquareTermNonNeg(x, i - 1, k);
    }
  }

  lemma SquareTermNonNeg(x: seq<int>, a: nat, k: int)
    requires a < |x| && ProductsFit(x, x)
    ensures SquareTerm(x, a, k) >= 0
  {
    if a < k - a < |x| {
      assert 0 <= x[a] * x[k - a];
      MulAssoc(2, x[a], x[k - a]);
    } else {
      assert 0 <= x[a] * x[a];
    }
  }

  lemma SquareSumBound(x: seq<int>, i: nat, k: nat)
    requires |x| == 32 && i < 32 && k < 63 && ProductsFit(x, x)
    ensures 0 <= SquareSum(x, i, k) && SquareSum(x, i, k) + SquareTerm(x, i, k) <= 32 * MAX_PRODUCT
  {
    SquareSumGrows(x, i, i + 1, k);
    SquareSumGrows(x, i + 1, 32, k);
    SquareIsProduct(x, k);
    RowSumBound(x, x, 32, k);
  }

  lemma SquareLimbSmall(x: seq<int>, a: nat)
    requires a < |x| && ProductsFit(x, x) && x[a] >= 0
    ensures x[a] <= 1897
  {
    assert x[a] * x[a] <= MAX_PRODUCT;
    if x[a] > 1897 {
      MulMono(1898, x[a], 1898);
      MulMono(1898, x[a], x[a]);
    }
  }

  /** One row of the squaring loop. */
  method SquareRow(t: array<u32>, x: Limbs, i: nat)
    requires t.Length == 63 && i < 32 && ProductsFit(x, x)
    requires forall k :: 0 <= k < 63 ==> t[k] == SquareSum(x, i, k)
    modifies t
    ensures forall k :: 0 <= k < 63 ==> t[k] == SquareSum(x, i + 1, k)
  {
    hide W;
    SquareSumBound(x, i, 2 * i);
    SquareLimbSmall(x, i);
    t[i + i] := W(t[i + i] + W(x[i] * x[i]));
    var j := i + 1;
    while j < 32
      invariant i + 1 <= j <= 32
      invariant forall k :: 0 <= k < 63 ==>
        t[k] == SquareSum(x, i, k) + if 2 * i <= k < i + j then SquareTerm(x, i, k) else 0
    {
      SquareSumBound(x, i, i + j);
      assert 0 <= x[i] * x[j] <= MAX_PRODUCT;
      MulAssoc(2, x[i], x[j]);
      t[i + j] := W(t[i + j] + W(W(2 * x[i]) * x[j]));
      j := j + 1;
    }
  }

  /** fe25519_square: limb for limb the result of fe25519_mul on two copies. */
  method Square(x: Limbs) returns (r: Limbs)
    requires ProductsFit(x, x)
    ensures r == MulLimbs(x, x) && MulOutput(r)
    ensures Cong(Val(r), Val(x) * Val(x), P)
  {
    var t := new u32[63](_ => 0);
    var i := 0;
    while i < 32
      invariant 0 <= i <= 32
      invariant forall k :: 0 <= k < 63 ==> t[k] == SquareSum(x, i, k)
    {
      SquareRow(t, x, i);
      i := i + 1;
    }
    forall k | 0 <= k < 63 ensures t[k] == RowSum(x, x, 32, k) {
      SquareIsProduct(x, k);
    }
    assert t[..] == Conv(x, x);
    r := FoldAndReduce(t, x, x);
  }
}
