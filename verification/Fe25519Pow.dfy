/**
 field25519/fe25519.cpp: fixed-window exponentiation and the inversion chain, over the limb
 operations. `IsPow(z, b, e)` says that the limbs of `z` hold b^e in a range that may be
 multiplied again without wrapping.
 */
module Fe25519Pow {
  import opened Numbers
  import opened Poly
  import opened Fe25519

  /** Limbs whose pairwise products stay within the exact range of mul: 1897^2 <= 3600000. */
  ghost predicate Small(s: seq<int>)
  {
    |s| == 32 && forall i :: 0 <= i < 32 ==> 0 <= s[i] <= 1897
  }

  ghost predicate IsPow(z: seq<int>, b: int, e: nat)
  {
    Small(z) && Cong(Val(z), Pow(b, e), P)
  }

  lemma SmallProducts(x: seq<int>, y: seq<int>)
    requires Small(x) && Small(y)
    ensures ProductsFit(x, y)
  {
    forall i, j | 0 <= i < 32 && 0 <= j < 32 ensures 0 <= x[i] * y[j] <= MAX_PRODUCT {
      MulNonNeg(x[i], y[j]);
      MulMono(x[i], 1897, y[j]);
    }
  }

  lemma MulOutputSmall(s: seq<int>)
    requires MulOutput(s)
    ensures Small(s)
  {}

  /** `e` doubled `k` times. */
  function Doubled(e: nat, k: nat): nat
  {
    if k == 0 then e else 2 * Doubled(e, k - 1)
  }

  lemma {:induction false} DoubledValue(e: nat, k: nat)
    ensures Doubled(e, k) == Pow(2, k) * e
  {
    if k > 0 {
      DoubledValue(e, k - 1);
      MulAssoc(2, Pow(2, k - 1), e);
    }
  }

  /** fe25519_square on a tracked power. */
  method SquarePow(x: Limbs, ghost b: int, ghost e: nat) returns (r: Limbs)
    requires IsPow(x, b, e)
    ensures IsPow(r, b, 2 * e)
  {
    SmallProducts(x, x);
    r := Square(x);
    MulOutputSmall(r);
    CongMul(Val(x), Pow(b, e), Val(x), Pow(b, e), P);
    PowAdd(b, e, e);
  }

  /** fe25519_mul on two tracked powers of the same base. */
  method MulPow(x: Limbs, y: Limbs, ghost b: int, ghost d: nat, ghost e: nat) returns (r: Limbs)
    requires IsPow(x, b, d) && IsPow(y, b, e)
    ensures IsPow(r, b, d + e)
  {
    SmallProducts(x, y);
    r := Mul(x, y);
    MulOutputSmall(r);
    CongMul(Val(x), Pow(b, d), Val(y), Pow(b, e), P);
    PowAdd(b, d, e);
  }

  // ----------------------------------------------------------- fe25519_pow

  /** fe25519_cmov with a flag of 0 or 1. */
  method Cmov(r: Limbs, x: Limbs, b: int) returns (s: Limbs)
    requires Small(r) && Small(x) && 0 <= b <= 1
    ensures s == if b == 1 then x else r
  {
    var nb := 1 - b;
    s := r;
    var i := 0;
    while i < 32
      invariant 0 <= i <= 32
      invariant forall k :: 0 <= k < i ==> s[k] == if b == 1 then x[k] else r[k]
      invariant forall k :: i <= k < 32 ==> s[k] == r[k]
    {
      s := s[i := W(nb * s[i] + b * x[i])];
      i := i + 1;
    }
  }

  function One(): Limbs
  {
    [1] + seq(31, _ => 0)
  }

  lemma OneIsPow(b: int)
    ensures IsPow(One(), b, 0)
  {
    EvalZeros(One()[1..], 256);
  }

  lemma BaseIsPow(x: seq<int>)
    requires Small(x)
    ensures IsPow(x, Val(x), 1)
  {
    assert Pow(Val(x), 1) == Val(x);
  }

  ghost predicate IsTable(pre: seq<Limbs>, b: int, n: nat)
  {
    |pre| == 16 && forall k: nat :: k < n <= 16 ==> IsPow(pre[k], b, k)
  }

  /** The table of the first sixteen powers. */
  method Precompute(x: Limbs) returns (pre: seq<Limbs>)
    requires Small(x)
    ensures IsTable(pre, Val(x), 16)
  {
    hide IsPow;
    ghost var b := Val(x);
    OneIsPow(b);
    BaseIsPow(x);
    pre := seq(16, _ => One());
    pre := pre[1 := x];
    var i := 2;
    while i < 16
      invariant 2 <= i <= 16 && i % 2 == 0
      invariant IsTable(pre, b, i)
    {
      assert IsPow(pre[i / 2], b, i / 2) && IsPow(pre[1], b, 1);
      var even := SquarePow(pre[i / 2], b, i / 2);
      var odd := MulPow(even, pre[1], b, i, 1);
      pre := pre[i := even][i + 1 := odd];
      i := i + 2;
    }
  }

  /** The constant-time table lookup: every entry is visited, entry `w` is kept. */
  method Select(pre: seq<Limbs>, w: nat) returns (t: Limbs)
    requires |pre| == 16 && w < 16 && forall k :: 0 <= k < 16 ==> Small(pre[k])
    ensures t == pre[w]
  {
    hide Small;
    t := pre[0];
    var k := 1;
    while k < 16
      invariant 1 <= k <= 16
      invariant t == if w < k then pre[w] else pre[0]
    {
      t := Cmov(t, pre[k], if k == w then 1 else 0);
      k := k + 1;
    }
  }

  /** Four squarings. */
  method SquareFour(g: Limbs, ghost b: int, ghost e: nat) returns (r: Limbs)
    requires IsPow(g, b, e)
    ensures IsPow(r, b, 16 * e)
  {
    hide IsPow;
    r := g;
    var k := 0;
    while k < 4
      invariant 0 <= k <= 4 && IsPow(r, b, Doubled(e, k))
    {
      r := SquarePow(r, b, Doubled(e, k));
      k := k + 1;
    }
    assert Doubled(e, 2) == 4 * e;
    assert Doubled(e, 4) == 4 * Doubled(e, 2);
  }

  /** One window: four squarings, then the multiplication with the selected table entry. */
  method Window(g: Limbs, pre: seq<Limbs>, w: nat, ghost b: int, ghost e: nat) returns (r: Limbs)
    requires IsPow(g, b, e) && IsTable(pre, b, 16) && w < 16
    ensures IsPow(r, b, 16 * e + w)
  {
    r := SquareFour(g, b, e);
    var t := Select(pre, w);
    r := MulPow(r, t, b, 16 * e, w);
  }

  /** fe25519_pow: x to the 32-byte little-endian exponent. */
  method PowWindowed(x: Limbs, e: seq<int>) returns (r: Limbs)
    requires Small(x) && |e| == 32 && forall i :: 0 <= i < 32 ==> 0 <= e[i] <= 255
    ensures Val(e) >= 0 && IsPow(r, Val(x), Val(e))
  {
    ghost var b := Val(x);
    var pre := Precompute(x);
    var g := One();
    OneIsPow(b);
    ghost var done := 0;
    var i := 32;
    assert e[32..] == [];
    while i > 0
      invariant 0 <= i <= 32
      invariant done == Val(e[i..]) >= 0 && IsPow(g, b, done)
    {
      g := Window(g, pre, e[i - 1] / 16, b, done);
      g := Window(g, pre, e[i - 1] % 16, b, 16 * done + e[i - 1] / 16);
      assert e[i - 1..][1..] == e[i..];
      done := 256 * done + e[i - 1];
      i := i - 1;
    }
    assert e[0..] == e;
    r := g;
  }

  // -------------------------------------------------------- fe25519_invert

  /** `for (i = 2; i < n; i += 2)` with two squarings per iteration. */
  method SquareLoop(x: Limbs, n: nat, ghost b: int, ghost e: nat) returns (r: Limbs)
    requires IsPow(x, b, e) && n >= 2 && n % 2 == 0
    ensures IsPow(r, b, Doubled(e, n - 2))
  {
    r := x;
    ghost var d := e;
    var i := 2;
    while i < n
      invariant 2 <= i <= n && i % 2 == 0 && d == Doubled(e, i - 2) && IsPow(r, b, d)
    {
      var t := SquarePow(r, b, d);
      r := SquarePow(t, b, 2 * d);
      d := 4 * d;
      i := i + 2;
    }
  }

  lemma PowersOfTwo()
    ensures Pow(2, 8) == 0x100 && Pow(2, 18) == 0x4_0000 && Pow(2, 48) == 0x1_0000_0000_0000
    ensures Pow(2, 98) == 0x4_0000_0000_0000_0000_0000_0000
  {
    assert Pow(2, 2) == 4 && Pow(2, 8) == 0x100;
    PowAdd(2, 8, 8);
    PowAdd(2, 16, 2);
    PowAdd(2, 16, 16);
    PowAdd(2, 32, 16);
    PowAdd(2, 48, 48);
    PowAdd(2, 96, 2);
  }

  const E5: int := 0x1f
  const E10: int := 0x3ff
  const E20: int := 0xf_ffff
  const E40: int := 0xff_ffff_ffff
  const E50: int := 0x3_ffff_ffff_ffff
  const E100: int := 0xf_ffff_ffff_ffff_ffff_ffff_ffff
  const E200: int := (E100 + 1) * (E100 + 1) - 1
  const E250: int := (E200 + 1) * (E50 + 1) - 1

  lemma ChainExponents()
    ensures Doubled(4 * E10, 8) + E10 == E20 && Doubled(4 * E20, 18) + E20 == E40
    ensures Doubled(4 * E40, 8) + E10 == E50 && Doubled(4 * E50, 48) + E50 == E100
    ensures Doubled(4 * E100, 98) + E100 == E200 && Doubled(4 * E200, 48) + E50 == E250
  {
    PowersOfTwo();
    DoubledValue(4 * E10, 8);
    DoubledValue(4 * E20, 18);
    DoubledValue(4 * E40, 8);
    DoubledValue(4 * E50, 48);
    DoubledValue(4 * E100, 98);
    DoubledValue(4 * E200, 48);
  }

  /** The first block of the chain: exponents 2, 9, 11, 31 and then 2^10 - 1. */
  method ChainHead(x: Limbs) returns (z11: Limbs, z2_10_0: Limbs)
    requires Small(x)
    ensures IsPow(z11, Val(x), 11) && IsPow(z2_10_0, Val(x), E10)
  {
    hide IsPow;
    ghost var b := Val(x);
    BaseIsPow(x);
    var z2 := SquarePow(x, b, 1);
    var t1 := SquarePow(z2, b, 2);
    var t0 := SquarePow(t1, b, 4);
    var z9 := MulPow(t0, x, b, 8, 1);
    z11 := MulPow(z9, z2, b, 9, 2);
    t0 := SquarePow(z11, b, 11);
    var z2_5_0 := MulPow(t0, z9, b, 22, 9);
    t0 := SquarePow(z2_5_0, b, E5);
    t1 := SquarePow(t0, b, 2 * E5);
    t0 := SquarePow(t1, b, 4 * E5);
    t1 := SquarePow(t0, b, 8 * E5);
    t0 := SquarePow(t1, b, 16 * E5);
    z2_10_0 := MulPow(t0, z2_5_0, b, 32 * E5, E5);
  }

  /** Two squarings and a loop raise to 2^n; the product with `y` closes the block. */
  method ChainBlock(x: Limbs, y: Limbs, n: nat, ghost b: int, ghost d: nat, ghost e: nat) returns (r: Limbs)
    requires IsPow(x, b, d) && IsPow(y, b, e) && n >= 2 && n % 2 == 0
    ensures IsPow(r, b, Doubled(4 * d, n - 2) + e)
  {
    var t0 := SquarePow(x, b, d);
    var t1 := SquarePow(t0, b, 2 * d);
    t1 := SquareLoop(t1, n, b, 4 * d);
    r := MulPow(t1, y, b, Doubled(4 * d, n - 2), e);
  }

  /** fe25519_invert raises to the power p - 2. */
  method Invert(x: Limbs) returns (r: Limbs)
    requires Small(x)
    ensures IsPow(r, Val(x), P - 2)
  {
    hide IsPow;
    ghost var b := Val(x);
    ChainExponents();
    var z11, z2_10_0 := ChainHead(x);
    var z2_20_0 := ChainBlock(z2_10_0, z2_10_0, 10, b, E10, E10);
    var t0 := ChainBlock(z2_20_0, z2_20_0, 20, b, E20, E20);
    var z2_50_0 := ChainBlock(t0, z2_10_0, 10, b, E40, E10);
    var z2_100_0 := ChainBlock(z2_50_0, z2_50_0, 50, b, E50, E50);
    var t1 := ChainBlock(z2_100_0, z2_100_0, 100, b, E100, E100);
    t0 := ChainBlock(t1, z2_50_0, 50, b, E200, E50);
    t1 := SquarePow(t0, b, E250);
    t0 := SquarePow(t1, b, 2 * E250);
    t1 := SquarePow(t0, b, 4 * E250);
    t0 := SquarePow(t1, b, 8 * E250);
    t1 := SquarePow(t0, b, 16 * E250);
    assert 32 * E250 + 11 == P - 2;
    r := MulPow(t1, z11, b, 32 * E250, 11);
  }

  /** The inversion chain yields the multiplicative inverse of every nonzero residue. */
  lemma InverseIsInverse(x: seq<int>, r: seq<int>)
    requires IsPrime(P) && Val(x) % P != 0 && IsPow(r, Val(x), P - 2)
    ensures Cong(Val(x) * Val(r), 1, P)
  {
    var b := Val(x);
    CongMul(b, b, Val(r), Pow(b, P - 2), P);
    assert Pow(b, P - 1) == b * Pow(b, P - 2);
    Fermat(P, b);
  }
}
