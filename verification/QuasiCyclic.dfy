/**
 QuasiCyclicCode.h: the shifted XOR and the reduction modulo x^p - 1. A buffer is its 64-bit words, two to a
 block; a word is its bits, the low bit first. Block shifts act on the two words separately.
 */
module QuasiCyclic {
  import opened Numbers

  const BITS: nat := 64

  type Word = w: seq<bool> | |w| == BITS witness seq(BITS, _ => false)

  function XorW(a: Word, b: Word): Word
  {
    seq(BITS, t requires 0 <= t < BITS => a[t] != b[t])
  }

  /** w >> s, for s up to 64. */
  function Shr(w: Word, s: nat): Word
  {
    seq(BITS, t requires 0 <= t < BITS => t + s < BITS && w[t + s])
  }

  /** w << s, for s up to 64. */
  function Shl(w: Word, s: nat): Word
  {
    seq(BITS, t requires 0 <= t < BITS => t >= s && w[t - s])
  }

  /** Bit t of a buffer; none beyond its end. */
  function BitOf(ws: seq<Word>, t: nat): bool
  {
    t / BITS < |ws| && ws[t / BITS][t % BITS]
  }

  lemma BitOfWritten(ws: seq<Word>, t: nat)
    ensures BitOf(ws, t) <==> t < 64 * |ws| && ws[t / 64][t % 64]
  {}

  /** Word j of the buffer shifted right by `shift` bits. */
  function ShiftedWord(ws: seq<Word>, j: nat, shift: nat): Word
  {
    seq(BITS, t requires 0 <= t < BITS => BitOf(ws, BITS * j + t + shift))
  }

  /** Two neighbouring words, shifted against each other, are one word of the shifted buffer. */
  lemma ShiftedPair(ws: seq<Word>, j: nat, q: nat, s: nat)
    requires j + q < |ws| && s <= 64
    ensures ShiftedWord(ws, j, BITS * q + s)
         == if j + q + 1 < |ws| then XorW(Shr(ws[j + q], s), Shl(ws[j + q + 1], 64 - s)) else Shr(ws[j + q], s)
  {
    var l := ShiftedWord(ws, j, BITS * q + s);
    forall t | 0 <= t < BITS
      ensures l[t] == if t + s < BITS then ws[j + q][t + s] else j + q + 1 < |ws| && ws[j + q + 1][t + s - BITS]
    {
      if t + s < BITS { BitAt(ws, j + q, t + s); } else { BitAt(ws, j + q + 1, t + s - BITS); }
    }
    if j + q + 1 < |ws| {
      assert l == XorW(Shr(ws[j + q], s), Shl(ws[j + q + 1], 64 - s));
    } else {
      assert l == Shr(ws[j + q], s);
    }
  }

  lemma BitAt(ws: seq<Word>, j: nat, t: nat)
    requires t < BITS
    ensures BitOf(ws, BITS * j + t) == (j < |ws| && ws[j][t])
  {
    ModUnique(BITS * j + t, j, t, BITS);
  }

  lemma ShiftedBeyond(ws: seq<Word>, j: nat, shift: nat)
    requires BITS * j + shift >= BITS * |ws|
    ensures ShiftedWord(ws, j, shift) == seq(BITS, _ => false)
  {
    var l := ShiftedWord(ws, j, shift);
    forall t | 0 <= t < BITS ensures !l[t] {
      var x := BITS * j + t + shift;
      assert x / BITS >= |ws|;
      assert l[t] == BitOf(ws, BITS * j + t + shift) == BitOf(ws, x);
    }
    assert l == seq(BITS, _ => false);
  }

  /** Bit t of word j, XORed with the shifted buffer: bit 64j + t + shift of the input, if it has that many bits. */
  lemma ShiftedWritten(w: Word, ws: seq<Word>, j: nat, shift: nat, t: nat)
    requires t < 64
    ensures var x := 64 * j + t + shift;
      XorW(w, ShiftedWord(ws, j, shift))[t] == (w[t] != (x < 64 * |ws| && ws[x / 64][x % 64]))
  {
    var x := 64 * j + t + shift;
    assert x / 64 < |ws| <==> x < 64 * |ws|;
  }

  lemma XorNothing(w: Word)
    ensures XorW(w, seq(BITS, _ => false)) == w
  {}

  lemma XorAssoc(a: Word, b: Word, c: Word)
    ensures XorW(XorW(a, b), c) == XorW(a, XorW(b, c))
  {}

  /**
   bitShiftXor: for every shift from 0 to 127, XORs the input shifted right by that many bits, truncated to the
   destination, into the destination; a larger shift is refused.
   */
  method BitShiftXor(dest: array<Word>, input: seq<Word>, bitShift: nat) returns (ok: bool)
    requires dest.Length % 2 == 0 && |input| % 2 == 0 && |input| >= 2
    modifies dest
    ensures ok <==> bitShift <= 127
    ensures !ok ==> dest[..] == old(dest[..])
    ensures ok ==> forall j :: 0 <= j < dest.Length ==> dest[j] == XorW(old(dest[j]), ShiftedWord(input, j, bitShift))
  {
    hide XorW, Shr, Shl, ShiftedWord;
    if bitShift > 127 { return false; }
    ok := true;
    if bitShift >= 64 {
      UpperShift(dest, input, bitShift - 64);
    } else if bitShift > 0 {
      LowerShift(dest, input, bitShift);
    } else {
      var end := Min(dest.Length / 2, |input| / 2);
      var i := 0;
      while i < end
        invariant 0 <= i <= end
        invariant forall j :: 0 <= j < 2 * i ==> dest[j] == XorW(old(dest[j]), ShiftedWord(input, j, 0))
        invariant forall j :: 2 * i <= j < dest.Length ==> dest[j] == old(dest[j])
      {
        Unshifted(input, 2 * i);
        Unshifted(input, 2 * i + 1);
        dest[2 * i] := XorW(dest[2 * i], input[2 * i]);
        dest[2 * i + 1] := XorW(dest[2 * i + 1], input[2 * i + 1]);
        i := i + 1;
      }
      forall j | 2 * end <= j < dest.Length ensures dest[j] == XorW(old(dest[j]), ShiftedWord(input, j, 0)) {
        ShiftedBeyond(input, j, 0);
        XorNothing(dest[j]);
      }
    }
  }

  lemma Unshifted(ws: seq<Word>, j: nat)
    requires j < |ws|
    ensures ShiftedWord(ws, j, 0) == ws[j]
  {
    forall t | 0 <= t < BITS ensures BitOf(ws, BITS * j + t) == ws[j][t] { ModUnique(BITS * j + t, j, t, BITS); }
    assert ShiftedWord(ws, j, 0) == ws[j];
  }

  /** Shifts from 64 on: the input pointer starts one word in. */
  method UpperShift(dest: array<Word>, input: seq<Word>, s: nat)
    requires dest.Length % 2 == 0 && |input| % 2 == 0 && |input| >= 2 && s < 64
    modifies dest
    ensures forall j :: 0 <= j < dest.Length ==> dest[j] == XorW(old(dest[j]), ShiftedWord(input, j, BITS + s))
  {
    hide XorW, Shr, Shl, ShiftedWord;
    var end := Min(dest.Length / 2, |input| / 2 - 1);
    var i := 0;
    while i < end
      invariant 0 <= i <= end
      invariant forall j :: 0 <= j < 2 * i ==> dest[j] == XorW(old(dest[j]), ShiftedWord(input, j, BITS + s))
      invariant forall j :: 2 * i <= j < dest.Length ==> dest[j] == old(dest[j])
    {
      AddPair(dest[2 * i], input, 2 * i, 1, s);
      AddPair(dest[2 * i + 1], input, 2 * i + 1, 1, s);
      dest[2 * i] := XorW(XorW(dest[2 * i], Shr(input[2 * i + 1], s)), Shl(input[2 * i + 2], 64 - s));
      dest[2 * i + 1] := XorW(XorW(dest[2 * i + 1], Shr(input[2 * i + 2], s)), Shl(input[2 * i + 3], 64 - s));
      i := i + 1;
    }
    if end != dest.Length / 2 {
      ShiftedPair(input, 2 * end, 1, s);
      dest[2 * end] := XorW(dest[2 * end], Shr(input[2 * end + 1], s));
      forall j | 2 * end + 1 <= j < dest.Length ensures dest[j] == XorW(old(dest[j]), ShiftedWord(input, j, BITS + s)) {
        ShiftedBeyond(input, j, BITS + s);
        XorNothing(dest[j]);
      }
    }
  }

  /** Shifts from 1 to 63. */
  method LowerShift(dest: array<Word>, input: seq<Word>, s: nat)
    requires dest.Length % 2 == 0 && |input| % 2 == 0 && |input| >= 2 && 0 < s < 64
    modifies dest
    ensures forall j :: 0 <= j < dest.Length ==> dest[j] == XorW(old(dest[j]), ShiftedWord(input, j, s))
  {
    hide XorW, Shr, Shl, ShiftedWord;
    var end := Min(dest.Length / 2, |input| / 2 - 1);
    var i := 0;
    while i < end
      invariant 0 <= i <= end
      invariant forall j :: 0 <= j < 2 * i ==> dest[j] == XorW(old(dest[j]), ShiftedWord(input, j, s))
      invariant forall j :: 2 * i <= j < dest.Length ==> dest[j] == old(dest[j])
    {
      AddPair(dest[2 * i], input, 2 * i, 0, s);
      AddPair(dest[2 * i + 1], input, 2 * i + 1, 0, s);
      dest[2 * i] := XorW(XorW(dest[2 * i], Shr(input[2 * i], s)), Shl(input[2 * i + 1], 64 - s));
      dest[2 * i + 1] := XorW(XorW(dest[2 * i + 1], Shr(input[2 * i + 1], s)), Shl(input[2 * i + 2], 64 - s));
      i := i + 1;
    }
    if end != dest.Length / 2 {
      AddPair(dest[2 * end], input, 2 * end, 0, s);
      ShiftedPair(input, 2 * end + 1, 0, s);
      dest[2 * end] := XorW(dest[2 * end], Shr(input[2 * end], s));
      dest[2 * end + 1] := XorW(dest[2 * end + 1], Shr(input[2 * end + 1], s));
      dest[2 * end] := XorW(dest[2 * end], Shl(input[2 * end + 1], 64 - s));
      forall j | 2 * end + 2 <= j < dest.Length ensures dest[j] == XorW(old(dest[j]), ShiftedWord(input, j, s)) {
        ShiftedBeyond(input, j, s);
        XorNothing(dest[j]);
      }
    }
  }

  lemma AddPair(w: Word, ws: seq<Word>, j: nat, q: nat, s: nat)
    requires j + q + 1 < |ws| && s <= 64
    ensures XorW(XorW(w, Shr(ws[j + q], s)), Shl(ws[j + q + 1], 64 - s)) == XorW(w, ShiftedWord(ws, j, BITS * q + s))
  {
    ShiftedPair(ws, j, q, s);
    XorAssoc(w, Shr(ws[j + q], s), Shl(ws[j + q + 1], 64 - s));
  }

  // ------------------------------------------------------------------- modp

  /** The XOR of bit k of the first n chunks of p bits. */
  function Folded(ws: seq<Word>, p: nat, k: nat, n: nat): bool
  {
    if n == 0 then false else Folded(ws, p, k, n - 1) != BitOf(ws, (n - 1) * p + k)
  }

  /** The chunks below `n` whose bit k is set. */
  ghost function Odd(ws: seq<Word>, p: nat, k: nat, n: nat): set<nat>
  {
    set i: nat | i < n && ChunkBit(ws, p, k, i)
  }

  lemma OddStep(ws: seq<Word>, p: nat, k: nat, n: nat)
    ensures Odd(ws, p, k, 0) == {}
    ensures |Odd(ws, p, k, n + 1)| == |Odd(ws, p, k, n)| + if ChunkBit(ws, p, k, n) then 1 else 0
  {
    hide ChunkBit;
    var a := Odd(ws, p, k, n);
    assert n !in a;
    assert Odd(ws, p, k, n + 1) == if ChunkBit(ws, p, k, n) then a + {n} else a;
  }

  /** The folded bit is the parity of the number of chunks that set it. */
  lemma {:induction false} FoldedParity(ws: seq<Word>, p: nat, k: nat, n: nat)
    ensures Folded(ws, p, k, n) == (|set i: nat | i < n && ChunkBit(ws, p, k, i)| % 2 == 1)
  {
    hide ChunkBit, Folded;
    OddStep(ws, p, k, n);
    if n > 0 {
      FoldedParity(ws, p, k, n - 1);
      OddStep(ws, p, k, n - 1);
      FoldedStep(ws, p, k, n - 1);
    } else {
      FoldedStart(ws, p, k);
    }
    assert Odd(ws, p, k, n) == set i: nat | i < n && ChunkBit(ws, p, k, i);
    assert n > 0 ==> Odd(ws, p, k, n - 1) == set i: nat | i < n - 1 && ChunkBit(ws, p, k, i);
  }

  lemma FoldedStart(ws: seq<Word>, p: nat, k: nat)
    ensures !Folded(ws, p, k, 0)
  {}

  lemma FoldedStep(ws: seq<Word>, p: nat, k: nat, n: nat)
    ensures Folded(ws, p, k, n + 1) == (Folded(ws, p, k, n) != ChunkBit(ws, p, k, n))
  {
    hide BitOf;
    MulNonNeg(n, p);
  }

  /** Bit k of chunk i is set. */
  function ChunkBit(ws: seq<Word>, p: nat, k: nat, i: nat): bool
  {
    MulNonNeg(i, p);
    BitOf(ws, i * p + k)
  }

  lemma ChunkBitWritten(ws: seq<Word>, p: nat, k: nat, i: nat)
    ensures i * p >= 0
    ensures ChunkBit(ws, p, k, i) <==> i * p + k < 64 * |ws| && ws[(i * p + k) / 64][(i * p + k) % 64]
  {
    MulNonNeg(i, p);
    var x := i * p + k;
    assert x / 64 < |ws| <==> x < 64 * |ws|;
  }

  /** The first `count` bytes of the input over the destination (memcpy). */
  function Copied(dest: seq<Word>, input: seq<Word>, bytes: nat): (r: seq<Word>)
    requires |dest| * 8 >= bytes
    ensures |r| == |dest|
  {
    seq(|dest|, j requires 0 <= j < |dest| => Blend(dest[j], input, j, bytes))
  }

  function Blend(w: Word, input: seq<Word>, j: nat, bytes: nat): Word
  {
    seq(BITS, t requires 0 <= t < BITS => if BITS * j + t < 8 * bytes then BitOf(input, BITS * j + t) else w[t])
  }

  /** Only the first p bits stay (the byte mask and memset). */
  function Cut(w: Word, j: nat, p: nat): Word
  {
    seq(BITS, t requires 0 <= t < BITS => BITS * j + t < p && w[t])
  }

  function Blocks(p: nat): nat { (p + 127) / 128 }

  function Chunks(bits: nat, p: nat): nat
    requires p > 0
  {
    (bits + p - 1) / p
  }

  lemma ChunkBounds(bits: nat, p: nat, i: nat)
    requires p > 0
    ensures i < Chunks(bits, p) <==> i * p < bits
  {
    var n := Chunks(bits, p);
    assert bits + p - 1 == n * p + (bits + p - 1) % p;
    if i < n {
      MulMono(i + 1, n, p);
      assert (i + 1) * p == i * p + p;
    } else {
      MulMono(n, i, p);
    }
  }

  /** Bit x of a buffer, read through the block that holds it. */
  lemma {:induction false} ThroughBlock(ws: seq<Word>, begin: nat, stop: nat, x: nat)
    requires begin / 128 < stop && 2 * stop <= |ws|
    ensures var part := ws[2 * (begin / 128)..2 * stop];
      BitOf(part, x + begin % 128) == (BitOf(ws, begin + x) && begin + x < 128 * stop)
  {
    var part := ws[2 * (begin / 128)..2 * stop];
    var y, z := x + begin % 128, begin + x;
    assert z == BITS * (2 * (begin / 128)) + y;
    assert z / BITS == 2 * (begin / 128) + y / BITS && z % BITS == y % BITS by {
      ModUnique(z, 2 * (begin / 128) + y / BITS, y % BITS, BITS);
    }
    assert z < 128 * stop <==> z / BITS < 2 * stop;
  }

  /** The bits of the destination below p, after `n` chunks. */
  ghost predicate Holds(dest: seq<Word>, input: seq<Word>, p: nat, n: nat)
  {
    forall k: nat :: k < p ==> BitOf(dest, k) == Folded(input, p, k, n)
  }

  lemma StartHolds(dest: seq<Word>, input: seq<Word>, p: nat)
    requires |dest| >= 2 * Blocks(p)
    ensures Holds(Copied(dest, input, (p + 7) / 8), input, p, 1)
  {
    var r := Copied(dest, input, (p + 7) / 8);
    forall k: nat | k < p ensures BitOf(r, k) == Folded(input, p, k, 1) {
      var j, t := k / BITS, k % BITS;
      assert BITS * j + t == k;
      assert r[j][t] == BitOf(input, k);
      assert Folded(input, p, k, 1) == (Folded(input, p, k, 0) != BitOf(input, 0 * p + k));
    }
  }

  /** The blocks of the input that hold the bits from `begin` to p further on. */
  function Part(input: seq<Word>, begin: nat, p: nat): seq<Word>
    requires begin < BITS * |input| && |input| % 2 == 0 && p >= 1
  {
    input[2 * (begin / 128)..2 * ((Min(begin + p, BITS * |input|) + 127) / 128)]
  }

  lemma PartBit(input: seq<Word>, begin: nat, p: nat, k: nat)
    requires begin < BITS * |input| && |input| % 2 == 0 && k < p
    ensures BitOf(Part(input, begin, p), k + begin % 128) == BitOf(input, begin + k)
  {
    var stop := (Min(begin + p, BITS * |input|) + 127) / 128;
    ThroughBlock(input, begin, stop, k);
    assert begin + k >= 128 * stop ==> !BitOf(input, begin + k);
  }

  /** XORing the shifted part of the input that starts in chunk i adds that chunk to the low p bits. */
  lemma ChunkAdded(before: seq<Word>, after: seq<Word>, input: seq<Word>, p: nat, i: nat, begin: nat)
    requires p > 0 && |input| % 2 == 0 && |before| == |after| && |before| >= 2 * Blocks(p)
    requires begin == i * p < BITS * |input| && Holds(before, input, p, i)
    requires forall j :: 0 <= j < |after| ==>
      after[j] == XorW(before[j], ShiftedWord(Part(input, begin, p), j, begin % 128))
    ensures Holds(after, input, p, i + 1)
  {
    hide Part;
    forall k: nat | k < p ensures BitOf(after, k) == Folded(input, p, k, i + 1) {
      var j, t := k / BITS, k % BITS;
      assert BITS * j + t == k;
      assert after[j][t] == (before[j][t] != BitOf(Part(input, begin, p), BITS * j + t + begin % 128));
      PartBit(input, begin, p, k);
      FoldNext(input, p, k, i, begin);
    }
  }

  lemma FoldNext(input: seq<Word>, p: nat, k: nat, i: nat, begin: nat)
    requires begin == i * p
    ensures Folded(input, p, k, i + 1) == (Folded(input, p, k, i) != BitOf(input, begin + k))
  {}

  /**
   modp: reduction modulo x^p - 1, for every p and every input length. Buffers shorter than p bits are refused;
   otherwise bit k of the result is the XOR of bit i * p + k of the input over all i, and bits from p on are zero.
   */
  method Modp(dest: array<Word>, input: seq<Word>, p: nat) returns (ok: bool)
    requires p >= 1 && dest.Length % 2 == 0 && |input| % 2 == 0
    modifies dest
    ensures ok <==> dest.Length / 2 >= (p + 127) / 128 && |input| / 2 >= (p + 127) / 128
    ensures !ok ==> dest[..] == old(dest[..])
    ensures ok ==> forall k: nat :: k < BITS * dest.Length ==>
      BitOf(dest[..], k) == (k < p && Folded(input, p, k, Chunks(BITS * |input|, p)))
  {
    hide XorW, ShiftedWord, Copied, Cut, Holds, Folded, BitOf, Part, Chunks;
    var pBlocks, pBytes := Blocks(p), (p + 7) / 8;
    if dest.Length / 2 < pBlocks || |input| / 2 < pBlocks { return false; }
    var count := Chunks(BITS * |input|, p);
    ghost var start := dest[..];
    var copied := Copied(dest[..], input, pBytes);
    forall j | 0 <= j < dest.Length { dest[j] := copied[j]; }
    assert dest[..] == copied;
    StartHolds(start, input, p);
    ChunkBounds(BITS * |input|, p, 0);
    var i := 1;
    while i < count
      invariant 1 <= i <= count && Holds(dest[..], input, p, i)
    {
      ghost var before := dest[..];
      var begin := i * p;
      ChunkBounds(BITS * |input|, p, i);
      MulNonNeg(i, p);
      AddChunk(dest, input, p, begin);
      ChunkAdded(before, dest[..], input, p, i, begin);
      i := i + 1;
    }
    ghost var sum := dest[..];
    forall j | 0 <= j < dest.Length { dest[j] := Cut(dest[j], j, p); }
    CutHolds(sum, dest[..], input, p, count);
    ok := true;
  }

  /** The step of the loop for the chunk from bit `begin` on; its sanity check on the block range never fails. */
  method AddChunk(dest: array<Word>, input: seq<Word>, p: nat, begin: nat)
    requires p >= 1 && dest.Length % 2 == 0 && |input| % 2 == 0 && begin < BITS * |input|
    modifies dest
    ensures forall j :: 0 <= j < dest.Length ==>
      dest[..][j] == XorW(old(dest[..])[j], ShiftedWord(Part(input, begin, p), j, begin % 128))
  {
    hide XorW, ShiftedWord;
    var end := Min(begin + p, BITS * |input|);
    BlockRange(begin, end, |input|);
    var part := input[2 * (begin / 128)..2 * ((end + 127) / 128)];
    var fine := BitShiftXor(dest, part, begin % 128);
  }

  lemma BlockRange(begin: nat, end: nat, words: nat)
    requires begin < end <= BITS * words && words % 2 == 0
    ensures begin / 128 < (end + 127) / 128 && 2 * ((end + 127) / 128) <= words
  {}

  lemma CutHolds(before: seq<Word>, after: seq<Word>, input: seq<Word>, p: nat, n: nat)
    requires |after| == |before| && Holds(before, input, p, n)
    requires forall j :: 0 <= j < |after| ==> after[j] == Cut(before[j], j, p)
    ensures forall k: nat :: k < BITS * |after| ==> BitOf(after, k) == (k < p && Folded(input, p, k, n))
  {
    forall k: nat | k < BITS * |after| ensures BitOf(after, k) == (k < p && Folded(input, p, k, n)) {
      var j, t := k / BITS, k % BITS;
      assert BITS * j + t == k;
      assert after[j][t] == (k < p && before[j][t]);
    }
  }
}
