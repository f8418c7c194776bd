/**
 128-bit blocks as the point-function code uses them: XOR, masking by a saturated block, the low bit,
 and XOR sums over strided rows. A block is its bits, the low bit first.
 */
module Blocks {
  const WIDTH: nat := 128

  type Block = b: seq<bool> | |b| == WIDTH witness seq(WIDTH, _ => false)

  /** The block -x for a bit x. */
  function Saturated(x: bool): Block { seq(WIDTH, _ => x) }

  const ZERO: Block := Saturated(false)

  function Xor(a: Block, b: Block): Block
  {
    seq(WIDTH, i requires 0 <= i < WIDTH => a[i] != b[i])
  }

  function And(a: Block, b: Block): Block
  {
    seq(WIDTH, i requires 0 <= i < WIDTH => a[i] && b[i])
  }

  function Lsb(b: Block): bool { b[0] }

  function WithLsb(b: Block, x: bool): Block { b[0 := x] }

  /** tagBit: the low bit, repeated. */
  function TagBit(b: Block): Block { Saturated(Lsb(b)) }

  /** block(0, x). */
  function OneBit(x: bool): Block { ZERO[0 := x] }

  /** The operations bit by bit. */
  lemma BlockBits(a: Block, b: Block, x: bool, i: nat)
    requires i < 128
    ensures Xor(a, b)[i] == (a[i] != b[i]) && And(a, b)[i] == (a[i] && b[i])
    ensures Saturated(x)[i] == x && ZERO[i] == false && TagBit(a)[i] == a[0] && Lsb(a) == a[0]
    ensures WithLsb(a, x)[i] == (if i == 0 then x else a[i]) && OneBit(x)[i] == (i == 0 && x)
  {}

  lemma XorCommutes(a: Block, b: Block)
    ensures Xor(a, b) == Xor(b, a)
  {}

  lemma XorAssociates(a: Block, b: Block, c: Block)
    ensures Xor(Xor(a, b), c) == Xor(a, Xor(b, c))
  {}

  /** Sums of pairs regroup. */
  lemma XorSwap(a: Block, b: Block, c: Block, d: Block)
    ensures Xor(Xor(a, b), Xor(c, d)) == Xor(Xor(a, c), Xor(b, d))
  {}

  lemma XorZero(a: Block, b: Block)
    ensures Xor(a, b) == ZERO <==> a == b
    ensures Xor(a, ZERO) == a == Xor(ZERO, a)
  {
    if Xor(a, b) == ZERO {
      forall i | 0 <= i < WIDTH ensures a[i] == b[i] { assert Xor(a, b)[i] == ZERO[i]; }
      assert a == b;
    }
  }

  lemma LsbXor(a: Block, b: Block)
    ensures Lsb(Xor(a, b)) == (Lsb(a) != Lsb(b))
  {}

  /** Two parties correct a node whose tags are opposite: the difference moves by the correction word. */
  lemma CorrectOpposite(c0: Block, c1: Block, x: bool, sigma: Block)
    ensures Xor(Xor(c0, And(Saturated(x), sigma)), Xor(c1, And(Saturated(!x), sigma))) == Xor(Xor(c0, c1), sigma)
  {
    var l := Xor(Xor(c0, And(Saturated(x), sigma)), Xor(c1, And(Saturated(!x), sigma)));
    var r := Xor(Xor(c0, c1), sigma);
    forall i | 0 <= i < WIDTH ensures l[i] == r[i] {}
    assert l == r;
  }

  // ------------------------------------------------------------------ sums

  /** The XOR of the blocks at positions j, j + step, j + 2 * step, ... below n * step. */
  function XorSum(s: seq<Block>, step: nat, j: nat, n: nat): Block
    requires j < step && n * step <= |s|
  {
    if n == 0 then ZERO
    else
      assert (n - 1) * step + step == n * step;
      Xor(XorSum(s, step, j, n - 1), s[(n - 1) * step + j])
  }
}
