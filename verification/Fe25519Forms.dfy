/**
 field25519/fe25519.cpp: lazy addition and subtraction, the canonical form (freeze),
 the byte form (pack and unpack) and the zero test built from them.
 */
module Fe25519Forms {
  import opened Numbers
  import opened Poly
  import opened Fe25519

  // ---------------------------------------------- lazy addition, subtraction

  method AddLazy(x: Limbs, y: Limbs) returns (r: Limbs)
    requires forall i :: 0 <= i < 32 ==> x[i] + y[i] < TWO32
    ensures Val(r) == Val(x) + Val(y)
    ensures forall i :: 0 <= i < 32 ==> r[i] == x[i] + y[i]
  {
    var a := new u32[32](_ => 0);
    var i := 0;
    while i < 32
      invariant 0 <= i <= 32
      invariant forall k :: 0 <= k < i ==> a[k] == x[k] + y[k]
    {
      a[i] := W(x[i] + y[i]);
      i := i + 1;
    }
    r := a[..];
    assert r == AddScaled(x, y, 1);
    EvalAddScaled(x, y, 1, 256);
  }

  /** The limbs of 2p that keep a lazy difference non-negative. */
  const TWICE_P: Limbs := [0x1da] + seq(30, _ => 0x1fe) + [0xfe]

  lemma {:induction false} ConstantValue(c: int, n: nat)
    ensures 255 * Val(seq(n, _ => c)) == c * (Pow(256, n) - 1)
  {
    if n > 0 {
      ConstantValue(c, n - 1);
      assert seq(n, _ => c)[1..] == seq(n - 1, _ => c);
      var q := Pow(256, n - 1);
      assert 255 * c + 256 * (c * (q - 1)) == c * (256 * q - 1);
    }
  }

  lemma TwicePValue()
    ensures Val(TWICE_P) == 2 * P
  {
    var mid := seq(30, _ => 0x1fe);
    EvalAppend([0x1da] + mid, [0xfe], 256);
    EvalAppend([0x1da], mid, 256);
    EvalSingle(0x1da, 256);
    EvalSingle(0xfe, 256);
    ConstantValue(0x1fe, 30);
    Pow256();
    assert Pow(256, 31) == 256 * Pow(256, 30);
  }

  /** fe25519_sub_lazy: exact as long as no limb of y exceeds that of x + 2p. */
  method SubLazy(x: Limbs, y: Limbs) returns (r: Limbs)
    requires forall i :: 0 <= i < 32 ==> y[i] <= x[i] + TWICE_P[i] < TWO32
    ensures Val(r) == Val(x) + 2 * P - Val(y) && Cong(Val(r), Val(x) - Val(y), P)
    ensures forall i :: 0 <= i < 32 ==> r[i] == x[i] + TWICE_P[i] - y[i]
  {
    hide W;
    var t := new u32[32](_ => 0);
    var a := new u32[32](_ => 0);
    t[0] := W(x[0] + 0x1da);
    t[31] := W(x[31] + 0xfe);
    var i := 1;
    while i < 31
      invariant 1 <= i <= 31
      invariant forall k :: 0 <= k < i || k == 31 ==> t[k] == x[k] + TWICE_P[k]
    {
      t[i] := W(x[i] + 0x1fe);
      i := i + 1;
    }
    i := 0;
    while i < 32
      invariant 0 <= i <= 32
      invariant forall k :: 0 <= k < 32 ==> t[k] == x[k] + TWICE_P[k]
      invariant forall k :: 0 <= k < i ==> a[k] == x[k] + TWICE_P[k] - y[k]
    {
      a[i] := W(t[i] - y[i]);
      i := i + 1;
    }
    r := a[..];
    DifferenceValue(x, y, r);
  }

  lemma DifferenceValue(x: seq<int>, y: seq<int>, r: seq<int>)
    requires |x| == |y| == |r| == |TWICE_P|
    requires forall i :: 0 <= i < |r| ==> r[i] == x[i] + TWICE_P[i] - y[i]
    ensures Val(r) == Val(x) + 2 * P - Val(y) && Cong(Val(r), Val(x) - Val(y), P)
  {
    var lifted := AddScaled(x, TWICE_P, 1);
    assert r == AddScaled(lifted, y, -1);
    EvalAddScaled(x, TWICE_P, 1, 256);
    EvalAddScaled(lifted, y, -1, 256);
    TwicePValue();
    CongFrom(Val(r), Val(x) - Val(y), 2, P);
  }

  // ------------------------------------------------------ canonical form

  lemma {:induction false} MaximalLimbs(s: seq<int>, top: nat)
    requires s != [] && BytesBelowTop(s) && 0 <= s[|s| - 1] <= top
    ensures 0 <= Val(s) < (top + 1) * Pow(256, |s| - 1)
    ensures Val(s) == (top + 1) * Pow(256, |s| - 1) - 1
       <==> s[|s| - 1] == top && forall i :: 0 <= i < |s| - 1 ==> s[i] == 255
    decreases |s|
  {
    if |s| == 1 {
      assert s == [s[0]];
      EvalSingle(s[0], 256);
    } else {
      var u := s[1..];
      MaximalLimbs(u, top);
      var q := (top + 1) * Pow(256, |u| - 1);
      assert (top + 1) * Pow(256, |s| - 1) == 256 * q by {
        MulAssoc(256, top + 1, Pow(256, |u| - 1));
        MulAssoc(top + 1, 256, Pow(256, |u| - 1));
      }
      assert Val(s) == s[0] + 256 * Val(u);
      assert (forall i :: 0 <= i < |s| - 1 ==> s[i] == 255) <==>
        (s[0] == 255 && forall i :: 0 <= i < |u| - 1 ==> u[i] == 255) by {
        assert forall i :: 1 <= i < |s| - 1 ==> s[i] == u[i - 1];
      }
    }
  }

  /** The limb test of fe25519_freeze. */
  predicate AtLeastP(s: seq<int>)
    requires |s| == 32
  {
    s[31] == 127 && (forall i :: 1 <= i <= 30 ==> s[i] == 255) && s[0] >= 237
  }

  lemma AtLeastPValue(s: seq<int>)
    requires Reduced(s)
    ensures 0 <= Val(s) < 2 * P
    ensures AtLeastP(s) <==> Val(s) >= P
    ensures AtLeastP(s) ==> Val(s) == P + s[0] - 237
  {
    var u := s[1..];
    MaximalLimbs(u, 127);
    Pow256();
    PowAdd(256, 30, 1);
    assert Val(s) == s[0] + 256 * Val(u);
    assert (forall i :: 0 <= i < 30 ==> u[i] == 255) <==> (forall i :: 1 <= i <= 30 ==> s[i] == 255) by {
      assert forall i :: 1 <= i <= 30 ==> s[i] == u[i - 1];
      assert forall i :: 0 <= i < 30 ==> u[i] == s[i + 1];
    }
  }

  lemma LowLimbOnly(s: seq<int>)
    requires |s| == 32 && forall i :: 1 <= i < 32 ==> s[i] == 0
    ensures Val(s) == s[0]
  {
    EvalZeros(s[1..], 256);
  }

  /** Multiplies together the limb comparisons from `from` up, then the one on limb 0. */
  method Mask(r: array<u32>, from: nat) returns (m: int)
    requires r.Length == 32 && 1 <= from <= 2
    ensures m == if r[31] == 127 && (forall k :: from <= k <= 30 ==> r[k] == 255) && r[0] >= 237 then 1 else 0
  {
    m := if r[31] == 127 then 1 else 0;
    var i := 30;
    while i >= from
      invariant from - 1 <= i <= 30
      invariant m == if r[31] == 127 && forall k :: i < k <= 30 ==> r[k] == 255 then 1 else 0
    {
      m := m * if r[i] == 255 then 1 else 0;
      i := i - 1;
    }
    m := m * if r[0] >= 237 then 1 else 0;
  }

  /** Wrap-around of an unsigned result at `width`. */
  function Wrap(x: int, width: int): (w: int)
    requires width > 0
    ensures 0 <= w < width
    ensures 0 <= x < width ==> w == x
    ensures -width <= x < 0 ==> w == x + width
  {
    x % width
  }

  /** Subtracts `m` times the limbs of p, each limb wrapping at `width`. */
  method SubtractMasked(r: array<u32>, m: int, width: int)
    requires r.Length == 32 && 0 <= m <= 1 && 0 < width <= TWO32
    modifies r
    ensures forall k :: 1 <= k <= 30 ==> r[k] == Wrap(old(r[k]) - m * 255, width)
    ensures r[31] == Wrap(old(r[31]) - m * 127, width) && r[0] == Wrap(old(r[0]) - m * 237, width)
  {
    hide Wrap;
    r[31] := Wrap(r[31] - m * 127, width);
    var i := 30;
    while i > 0
      invariant 0 <= i <= 30
      invariant forall k :: i < k <= 30 ==> r[k] == Wrap(old(r[k]) - m * 255, width)
      invariant forall k :: 0 <= k <= i ==> r[k] == old(r[k])
      invariant r[31] == Wrap(old(r[31]) - m * 127, width)
    {
      r[i] := Wrap(r[i] - m * 255, width);
      i := i - 1;
    }
    r[0] := Wrap(r[0] - m * 237, width);
  }

  lemma AllZeroButLow(s: seq<int>)
    requires Reduced(s) && AtLeastP(s)
    ensures Val([s[0] - 237] + seq(31, _ => 0)) == Val(s) % P
  {
    AtLeastPValue(s);
    LowLimbOnly([s[0] - 237] + seq(31, _ => 0));
    ModUnique(Val(s), 1, Val(s) - P, P);
  }

  lemma TopLimbValue(s: seq<int>)
    requires MulOutput(s) && s[31] == 128
    ensures Val(s) >= P && Val(s) % P != Val(s)
  {
    SplitTop(s);
    ValBound(s[..31], 255);
    Pow256();
  }

  /**
   fe25519_freeze on what a product or a sum may leave. The result is the representative below p exactly if limb 31
   is below 128; limb 31 can be 128 after a product, and then nothing is subtracted.
   */
  method Freeze(r: array<u32>)
    requires r.Length == 32 && MulOutput(r[..])
    modifies r
    ensures Val(r[..]) == old(Val(r[..])) % P <==> old(r[31]) <= 127
    ensures old(r[31]) <= 127 ==> Reduced(r[..])
    ensures old(r[31]) == 128 ==> r[..] == old(r[..])
  {
    hide Wrap;
    ghost var was := r[..];
    assert forall k :: 0 <= k < 31 ==> r[k] == was[k] <= 255;
    var m := Mask(r, 1);
    assert m == if AtLeastP(was) then 1 else 0;
    SubtractMasked(r, m, TWO32);
    if m == 1 {
      AllZeroButLow(was);
      assert r[..] == [was[0] - 237] + seq(31, _ => 0);
    } else {
      assert r[..] == was;
      if was[31] <= 127 {
        AtLeastPValue(was);
        ModUnique(Val(was), 0, Val(was), P);
      } else {
        TopLimbValue(was);
      }
    }
  }

  lemma {:induction false} RowSumOne(x: seq<int>, y: seq<int>, i: nat, k: int)
    requires i <= |x| && y != [] && y[0] == 1 && forall j :: 1 <= j < |y| ==> y[j] == 0
    ensures RowSum(x, y, i, k) == if 0 <= k < i then x[k] else 0
  {
    if i > 0 { RowSumOne(x, y, i - 1, k); }
  }

  /** A product, by one, that leaves 2^255: limb 31 is 128, and `Freeze` does not reach the canonical value 19. */
  lemma FreezeWitness() returns (x: Limbs, y: Limbs)
    ensures ProductsFit(x, y) && MulOutput(MulLimbs(x, y)) && MulLimbs(x, y)[31] == 128
  {
    hide Val, Pass, Fold, Conv;
    x, y := [237] + seq(29, _ => 255) + [33023, 127], [1] + seq(31, _ => 0);
    var z: Limbs, w: Limbs := [237] + seq(31, _ => 255), seq(31, _ => 0) + [128];
    FoldedByOne(x, y);
    assert x[31 := x[31] + 128][30 := x[30] - 256 * 128] == z;
    CarryMove(x, 30, 128);
    FullValue(z);
    TopValue(w);
    PassIs(x, z);
    PassIs(z, w);
  }

  lemma PassIs(s: seq<int>, t: seq<int>)
    requires |s| == |t| == 32 && BytesBelowTop(t) && Val(t) == Val(s) - (s[31] / 128) * P
    ensures Pass(s) == t
  {
    DigitsUnique(t);
  }

  lemma FullValue(z: seq<int>)
    requires z == [237] + seq(31, _ => 255)
    ensures Val(z) == P + 128 * R248
  {
    var full := seq(32, _ => 255);
    MaximalLimbs(full, 255);
    assert full[0 := full[0] + -18] == z;
    EvalUpdate(full, 0, -18, 256);
    Pow256();
  }

  lemma TopValue(w: seq<int>)
    requires w == seq(31, _ => 0) + [128]
    ensures Val(w) == 128 * R248
  {
    SplitTop(w);
    EvalZeros(w[..31], 256);
  }

  lemma FoldedByOne(x: Limbs, y: Limbs)
    requires y == [1] + seq(31, _ => 0)
    ensures Fold(Conv(x, y)) == x
  {
    forall k | 0 <= k < 63 ensures Conv(x, y)[k] == if k < 32 then x[k] else 0 { RowSumOne(x, y, 32, k); }
    assert Conv(x, y) == x + seq(31, _ => 0);
    assert (x + seq(31, _ => 0))[..32] == x;
  }

  /** Reduce, freeze and fe25519_iszero: the zero test used by every protocol check. */
  method IsZero(r: array<u32>) returns (zero: bool)
    requires r.Length == 32 && forall i :: 0 <= i < 32 ==> r[i] <= 0x8000_0000
    modifies r
    ensures zero <==> old(Val(r[..])) % P == 0
    ensures Reduced(r[..]) && Val(r[..]) == old(Val(r[..])) % P
  {
    ReduceAddSub(r);
    Freeze(r);
    var b := if r[0] == 0 then 1 else 0;
    var i := 1;
    while i < 32
      invariant 1 <= i <= 32
      invariant b == if forall k :: 0 <= k < i ==> r[k] == 0 then 1 else 0
    {
      b := b * if r[i] == 0 then 1 else 0;
      i := i + 1;
    }
    zero := b == 1;
    ZeroValue(r[..]);
    assert zero <==> forall k :: 0 <= k < 32 ==> r[..][k] == 0;
  }

  lemma {:induction false} ZeroValue(s: seq<int>)
    requires forall i :: 0 <= i < |s| ==> s[i] >= 0
    ensures Val(s) >= 0
    ensures Val(s) == 0 <==> forall i :: 0 <= i < |s| ==> s[i] == 0
  {
    if s != [] {
      ZeroValue(s[1..]);
      assert forall i :: 1 <= i < |s| ==> s[i] == s[1..][i - 1];
      if Val(s) == 0 {
        assert s[0] == 0 && Val(s[1..]) == 0;
      }
    }
  }

  // ----------------------------------------------------------- byte form

  predicate IsBytes(s: seq<int>)
  {
    |s| == 32 && forall i :: 0 <= i < 32 ==> 0 <= s[i] <= 255
  }

  /** fe25519_unpack: little-endian bytes with the top bit masked (section 5 of RFC 7748). */
  method Unpack(x: seq<int>) returns (r: Limbs)
    requires IsBytes(x)
    ensures Reduced(r) && Val(r) == Val(x) % (128 * R248)
  {
    var a := new u32[32](_ => 0);
    var i := 0;
    while i < 32
      invariant 0 <= i <= 32
      invariant forall k :: 0 <= k < i ==> a[k] == x[k]
    {
      a[i] := x[i];
      i := i + 1;
    }
    a[31] := a[31] % 128;
    r := a[..];
    var t := x[31] / 128;
    assert r == x[31 := x[31] + -128 * t];
    EvalUpdate(x, 31, -128 * t, 256);
    Pow256();
    SplitTop(r);
    ValBound(r[..31], 255);
    ModUnique(Val(x), t, Val(r), 128 * R248);
  }

  /** The canonical inputs on which the test in fe25519_pack, which skips limb 1, misfires. */
  predicate SkippedBand(s: seq<int>)
    requires |s| == 32
  {
    s[31] == 127 && (forall i :: 2 <= i <= 30 ==> s[i] == 255) && s[0] >= 237 && s[1] < 255
  }

  lemma BandValue(s: seq<int>)
    requires Reduced(s) && SkippedBand(s)
    ensures P - 0x1_0000 <= Val(s) < P
  {
    AtLeastPValue(s);
    var full := s[1 := s[1] + (255 - s[1])];
    EvalUpdate(s, 1, 255 - s[1], 256);
    assert full[1] == 255;
    AtLeastPValue(full);
    assert Pow(256, 1) == 256;
  }

  /** The bytes written for an input in the skipped band. */
  function BandBytes(s: seq<int>): seq<int>
    requires |s| == 32
  {
    [s[0] - 237, s[1] + 1] + seq(30, _ => 0)
  }

  lemma BandBytesValue(s: seq<int>)
    requires Reduced(s) && SkippedBand(s)
    ensures Val(BandBytes(s)) < 0x1_0000 && Val(s) % P == Val(s)
  {
    var r := BandBytes(s);
    EvalZeros(r[2..], 256);
    assert r[1..][1..] == r[2..];
    assert Val(r) == r[0] + 256 * Val(r[1..]);
    assert Val(r[1..]) == r[1] + 256 * Val(r[2..]);
    BandValue(s);
    ModUnique(Val(s), 0, Val(s), P);
  }

  lemma PackedValue(x: seq<int>, r: seq<int>, m: int)
    requires Reduced(x) && |r| == 32
    requires m == if AtLeastP(x) || SkippedBand(x) then 1 else 0
    requires forall k :: 1 <= k <= 30 ==> r[k] == Wrap(x[k] - m * 255, 256)
    requires r[31] == Wrap(x[31] - m * 127, 256) && r[0] == Wrap(x[0] - m * 237, 256)
    ensures Val(r) == Val(x) % P <==> !SkippedBand(x)
    ensures SkippedBand(x) ==> r == BandBytes(x)
  {
    hide Wrap;
    AtLeastPValue(x);
    if SkippedBand(x) {
      assert r == BandBytes(x);
      BandBytesValue(x);
      BandValue(x);
    } else if AtLeastP(x) {
      AllZeroButLow(x);
      assert r == [x[0] - 237] + seq(31, _ => 0);
    } else {
      assert r == x;
      ModUnique(Val(x), 0, Val(x), P);
    }
  }

  /**
   fe25519_pack writes the canonical bytes exactly outside the skipped band, and inside it
   writes the bytes of a different residue.
   */
  method Pack(x: Limbs) returns (r: seq<int>)
    requires Reduced(x)
    ensures |r| == 32 && forall i :: 0 <= i < 32 ==> 0 <= r[i] <= 255
    ensures Val(r) == Val(x) % P <==> !(x[31] == 127 && (forall i :: 2 <= i <= 30 ==> x[i] == 255) && x[0] >= 237 && x[1] < 255)
    ensures SkippedBand(x) ==> r == [x[0] - 237, x[1] + 1] + seq(30, _ => 0)
  {
    hide Wrap;
    var a := new u32[32](_ => 0);
    var i := 0;
    while i < 32
      invariant 0 <= i <= 32
      invariant forall k :: 0 <= k < i ==> a[k] == x[k]
    {
      a[i] := Wrap(x[i], 256);
      i := i + 1;
    }
    assert a[..] == x;
    var m := Mask(a, 2);
    SubtractMasked(a, m, 256);
    r := a[..];
    PackedValue(x, r, m);
  }

  /** reduce_add_sub on a struct value. */
  method Reduce(x: Limbs) returns (r: Limbs)
    requires forall i :: 0 <= i < 32 ==> 0 <= x[i] <= 0x8000_0000
    ensures Reduced(r) && Cong(Val(r), Val(x), P)
  {
    var a := new u32[32](i requires 0 <= i < 32 => x[i]);
    assert a[..] == x;
    ReduceAddSub(a);
    r := a[..];
  }

  lemma ZeroLimbs()
    ensures Val(seq(32, _ => 0)) == 0
  {
    EvalZeros(seq(32, _ => 0), 256);
  }

  /** fe25519_neg on byte limbs. */
  method Neg(x: Limbs) returns (r: Limbs)
    requires Reduced(x)
    ensures Reduced(r) && Cong(Val(r), -Val(x), P)
  {
    ZeroLimbs();
    r := SubLazy(seq(32, _ => 0), x);
    r := Reduce(r);
  }

  /** A lazy difference of byte limbs, reduced at once. */
  method SubReduce(x: Limbs, y: Limbs) returns (r: Limbs)
    requires Reduced(x) && Reduced(y)
    ensures Reduced(r) && Cong(Val(r), Val(x) - Val(y), P)
  {
    r := SubLazy(x, y);
    r := Reduce(r);
  }

  /** A residue that fe25519_pack sends to a different one: p - 256. */
  lemma PackBandWitness() returns (x: Limbs)
    ensures Reduced(x) && SkippedBand(x) && Val(x) == P - 256
  {
    x := [237, 254] + seq(29, _ => 255) + [127];
    var full := x[1 := x[1] + 1];
    EvalUpdate(x, 1, 1, 256);
    assert Pow(256, 1) == 256;
    AtLeastPValue(full);
  }
}
