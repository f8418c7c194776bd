/**
 DpfMult.h: one secret bit times one secret block, from two oblivious transfers per product.
 Each `multiply` is the step before its message and the step after the other party's message.
 */
module DpfMult {
  import opened Blocks
  import opened Wrappers

  /** What a party keeps between its message and the other party's. */
  datatype Pending = Pending(a: seq<bool>, b1: seq<Block>, c: seq<Block>, theta: seq<Block>, phi: seq<bool>)

  function XorBits(a: seq<bool>, b: seq<bool>): (r: seq<bool>)
    requires |a| == |b|
    ensures |r| == |a| && forall j :: 0 <= j < |a| ==> r[j] == (a[j] != b[j])
  {
    seq(|a|, j requires 0 <= j < |a| => a[j] != b[j])
  }

  class DpfMult {
    var partyIdx: nat
    var totalMults: nat
    var choiceBits: seq<bool>
    var recvOts: seq<Block>
    var sendOts: seq<(Block, Block)>
    var otIdx: nat

    constructor ()
      ensures choiceBits == [] && recvOts == [] && sendOts == [] && partyIdx == totalMults == otIdx == 0
    {
      partyIdx, totalMults, otIdx := 0, 0, 0;
      choiceBits, recvOts, sendOts := [], [], [];
    }

    ghost predicate Valid()
      reads this
    {
      partyIdx <= 1 && |choiceBits| == |recvOts| == |sendOts| && (|choiceBits| == totalMults || |choiceBits| == 0)
    }

    method Init(partyIdx: nat, n: nat) returns (ok: bool)
      modifies this
      ensures ok <==> partyIdx <= 1
      ensures ok ==> Valid() && this.partyIdx == partyIdx && totalMults == n && otIdx == 0 && choiceBits == []
      ensures !ok ==> unchanged(this)
    {
      if partyIdx > 1 { return false; }
      this.partyIdx, totalMults, otIdx := partyIdx, n, 0;
      choiceBits, recvOts, sendOts := [], [], [];
      ok := true;
    }

    method SetBaseOts(send: seq<(Block, Block)>, recv: seq<Block>, choices: seq<bool>) returns (ok: bool)
      requires Valid()
      modifies this
      ensures ok <==> |send| == |recv| == |choices| == old(totalMults)
      ensures ok ==> Valid() && sendOts == send && recvOts == recv && choiceBits == choices && otIdx == 0
      ensures ok ==> partyIdx == old(partyIdx) && totalMults == old(totalMults)
      ensures !ok ==> unchanged(this)
    {
      if |send| != totalMults || |recv| != totalMults || |choices| != totalMults { return false; }
      sendOts, recvOts, choiceBits, otIdx := send, recv, choices, 0;
      ok := true;
    }

    /** The Beaver triple share and the two masked messages; refused on unequal sizes and too few or no transfers. */
    method Send(x: seq<bool>, y: seq<Block>) returns (r: Result<Pending>)
      requires Valid()
      ensures r.Ok? <==> |x| == |y| && |x| + otIdx <= totalMults && |choiceBits| > 0
      ensures r.Ok? ==> IsPending(x, y, r.value)
    {
      if |x| != |y| || |x| + otIdx > totalMults || |choiceBits| == 0 { return Err; }
      var a0 := choiceBits[otIdx..otIdx + |x|];
      var b1, c, theta := [], [], [];
      var j := 0;
      while j < |x|
        invariant 0 <= j <= |x| && |b1| == |c| == |theta| == j
        invariant forall k :: 0 <= k < j ==> b1[k] == Xor(sendOts[otIdx + k].0, sendOts[otIdx + k].1)
        invariant forall k :: 0 <= k < j ==>
          c[k] == Xor(Xor(recvOts[otIdx + k], sendOts[otIdx + k].0), And(b1[k], Saturated(a0[k])))
        invariant forall k :: 0 <= k < j ==> theta[k] == Xor(y[k], b1[k])
      {
        var mask := Saturated(a0[j]);
        var b := Xor(sendOts[otIdx + j].0, sendOts[otIdx + j].1);
        b1 := b1 + [b];
        c := c + [Xor(Xor(recvOts[otIdx + j], sendOts[otIdx + j].0), And(b, mask))];
        theta := theta + [Xor(y[j], b)];
        j := j + 1;
      }
      r := Ok(Pending(a0, b1, c, theta, XorBits(x, a0)));
    }

    /** What `Send` leaves behind. */
    ghost predicate IsPending(x: seq<bool>, y: seq<Block>, p: Pending)
      reads this
    {
      && |x| == |y| == |p.a| == |p.b1| == |p.c| == |p.theta| == |p.phi|
      && |x| + otIdx <= |choiceBits| == |recvOts| == |sendOts|
      && forall j :: 0 <= j < |x| ==>
           && p.a[j] == choiceBits[otIdx + j]
           && p.b1[j] == Xor(sendOts[otIdx + j].0, sendOts[otIdx + j].1)
           && p.c[j] == Xor(Xor(recvOts[otIdx + j], sendOts[otIdx + j].0), And(p.b1[j], Saturated(p.a[j])))
           && p.theta[j] == Xor(y[j], p.b1[j])
           && p.phi[j] == (x[j] != p.a[j])
    }

    /** The product share from the other party's message; the transfers used are behind `otIdx`. */
    method Receive(p: Pending, theta1: seq<Block>, phi1: seq<bool>) returns (xy: seq<Block>)
      requires Valid() && |p.a| == |p.b1| == |p.c| == |p.theta| == |p.phi| == |theta1| == |phi1|
      modifies this`otIdx
      ensures otIdx == old(otIdx) + |p.a|
      ensures |xy| == |p.a| && forall j :: 0 <= j < |xy| ==>
        xy[j] == Share(partyIdx, p.c[j], Xor(p.theta[j], theta1[j]), p.phi[j] != phi1[j], p.a[j], p.b1[j])
    {
      var phi := XorBits(p.phi, phi1);
      xy := [];
      var j := 0;
      while j < |p.a|
        invariant 0 <= j <= |p.a| && |xy| == j && otIdx == old(otIdx)
        invariant forall k :: 0 <= k < j ==>
          xy[k] == Share(partyIdx, p.c[k], Xor(p.theta[k], theta1[k]), p.phi[k] != phi1[k], p.a[k], p.b1[k])
      {
        var open := Saturated(phi[j]);
        var theta := Xor(p.theta[j], theta1[j]);
        var r := Xor(Xor(p.c[j], And(theta, Saturated(p.a[j]))), And(open, p.b1[j]));
        if partyIdx != 0 { r := Xor(r, And(theta, open)); }
        xy := xy + [r];
        j := j + 1;
      }
      otIdx := otIdx + |p.a|;
    }
  }

  function Share(partyIdx: nat, c: Block, theta: Block, phi: bool, a: bool, b1: Block): Block
  {
    var r := Xor(Xor(c, And(theta, Saturated(a))), And(Saturated(phi), b1));
    if partyIdx != 0 then Xor(r, And(theta, Saturated(phi))) else r
  }

  /** A received message is the one the choice bit selects. */
  ghost predicate Transferred(recv: seq<Block>, choices: seq<bool>, send: seq<(Block, Block)>)
  {
    && |recv| == |choices| == |send|
    && forall j :: 0 <= j < |recv| ==> recv[j] == if choices[j] then send[j].1 else send[j].0
  }

  /** The transfers of the two parties match in both directions. */
  ghost predicate Paired(m0: DpfMult, m1: DpfMult)
    reads m0, m1
  {
    && m0.Valid() && m1.Valid() && m0.partyIdx == 0 && m1.partyIdx == 1
    && m0.totalMults == m1.totalMults && m0.otIdx == m1.otIdx
    && Transferred(m0.recvOts, m0.choiceBits, m1.sendOts) && Transferred(m1.recvOts, m1.choiceBits, m0.sendOts)
  }

  /** Bit by bit: a Beaver triple from two transfers opens to the product. */
  lemma BeaverBit(x0: bool, x1: bool, y0: bool, y1: bool, a0: bool, a1: bool,
                  s00: bool, s01: bool, s10: bool, s11: bool, xy0: bool, xy1: bool)
    requires var r0 := (if a0 then s11 else s10);
             var r1 := (if a1 then s01 else s00);
             var b0, b1 := s00 != s01, s10 != s11;
             var theta := ((y0 != b0) != (y1 != b1));
             var phi := ((x0 != a0) != (x1 != a1));
             && xy0 == ((((r0 != s00) != (b0 && a0)) != (theta && a0)) != (phi && b0))
             && xy1 == (((((r1 != s10) != (b1 && a1)) != (theta && a1)) != (phi && b1)) != (theta && phi))
    ensures (xy0 != xy1) == ((x0 != x1) && (y0 != y1))
  {}

  lemma BeaverShares(x0: bool, x1: bool, y0: Block, y1: Block, a0: bool, a1: bool,
                     s00: Block, s01: Block, s10: Block, s11: Block)
    ensures
      var r0 := (if a0 then s11 else s10);
      var r1 := (if a1 then s01 else s00);
      var b0, b1 := Xor(s00, s01), Xor(s10, s11);
      var theta := Xor(Xor(y0, b0), Xor(y1, b1));
      var phi := (x0 != a0) != (x1 != a1);
      var c0 := Xor(Xor(r0, s00), And(b0, Saturated(a0)));
      var c1 := Xor(Xor(r1, s10), And(b1, Saturated(a1)));
      Xor(Share(0, c0, theta, phi, a0, b0), Share(1, c1, theta, phi, a1, b1))
        == (if x0 != x1 then Xor(y0, y1) else ZERO)
  {
    var r0, r1 := (if a0 then s11 else s10), (if a1 then s01 else s00);
    var b0, b1 := Xor(s00, s01), Xor(s10, s11);
    var theta, phi := Xor(Xor(y0, b0), Xor(y1, b1)), (x0 != a0) != (x1 != a1);
    var c0, c1 := Xor(Xor(r0, s00), And(b0, Saturated(a0))), Xor(Xor(r1, s10), And(b1, Saturated(a1)));
    var xy0, xy1 := Share(0, c0, theta, phi, a0, b0), Share(1, c1, theta, phi, a1, b1);
    var want := if x0 != x1 then Xor(y0, y1) else ZERO;
    forall i | 0 <= i < WIDTH ensures Xor(xy0, xy1)[i] == want[i] {
      ShareAt(0, r0, s00, theta, phi, a0, b0, i);
      ShareAt(1, r1, s10, theta, phi, a1, b1, i);
      hide Xor, And, Saturated, Share;
      XorAt(s00, s01, i); XorAt(s10, s11, i); XorAt(y0, b0, i); XorAt(y1, b1, i);
      XorAt(Xor(y0, b0), Xor(y1, b1), i); XorAt(xy0, xy1, i); XorAt(y0, y1, i);
      BeaverBit(x0, x1, y0[i], y1[i], a0, a1, s00[i], s01[i], s10[i], s11[i], xy0[i], xy1[i]);
      ZeroAt(i);
    }
    assert Xor(xy0, xy1) == want;
  }

  lemma XorAt(a: Block, b: Block, i: nat)
    requires i < WIDTH
    ensures Xor(a, b)[i] == (a[i] != b[i])
  {}

  lemma ZeroAt(i: nat)
    requires i < WIDTH
    ensures !ZERO[i]
  {}

  lemma ShareAt(partyIdx: nat, r: Block, s: Block, theta: Block, phi: bool, a: bool, b: Block, i: nat)
    requires i < WIDTH && partyIdx < 2
    ensures Share(partyIdx, Xor(Xor(r, s), And(b, Saturated(a))), theta, phi, a, b)[i]
         == (((((r[i] != s[i]) != (b[i] && a)) != (theta[i] && a)) != (phi && b[i])) != (partyIdx == 1 && theta[i] && phi))
  {}

  /** The entry of a product share that both halves of the protocol fix. */
  lemma ProductEntry(m0: DpfMult, m1: DpfMult, x0: seq<bool>, y0: seq<Block>, x1: seq<bool>, y1: seq<Block>,
                     p0: Pending, p1: Pending, j: nat)
    requires Paired(m0, m1) && m0.IsPending(x0, y0, p0) && m1.IsPending(x1, y1, p1) && j < |x0| == |x1|
    ensures Xor(Share(0, p0.c[j], Xor(p0.theta[j], p1.theta[j]), p0.phi[j] != p1.phi[j], p0.a[j], p0.b1[j]),
                Share(1, p1.c[j], Xor(p1.theta[j], p0.theta[j]), p1.phi[j] != p0.phi[j], p1.a[j], p1.b1[j]))
         == if x0[j] != x1[j] then Xor(y0[j], y1[j]) else ZERO
  {
    hide Xor, And, Saturated, Share;
    var i := m0.otIdx + j;
    BeaverShares(x0[j], x1[j], y0[j], y1[j], m0.choiceBits[i], m1.choiceBits[i],
                 m0.sendOts[i].0, m0.sendOts[i].1, m1.sendOts[i].0, m1.sendOts[i].1);
    XorCommutes(p0.theta[j], p1.theta[j]);
  }

  /**
   Both parties of one `multiply`: it fails for both when the arguments are refused, and otherwise the
   results are shares of the products and exactly |x| transfers are used up.
   */
  method Multiply(m0: DpfMult, m1: DpfMult, x0: seq<bool>, y0: seq<Block>, x1: seq<bool>, y1: seq<Block>)
    returns (r: Result<(seq<Block>, seq<Block>)>)
    requires Paired(m0, m1) && |x0| == |x1| && |y0| == |y1|
    modifies m0`otIdx, m1`otIdx
    ensures r.Ok? <==> old(|x0| == |y0| && |x0| + m0.otIdx <= m0.totalMults && |m0.choiceBits| > 0)
    ensures r.Err? ==> unchanged(m0) && unchanged(m1)
    ensures r.Ok? ==> m0.otIdx == m1.otIdx == old(m0.otIdx) + |x0| <= m0.totalMults && Paired(m0, m1)
    ensures r.Ok? ==> |r.value.0| == |r.value.1| == |x0|
    ensures r.Ok? ==> forall j :: 0 <= j < |x0| ==>
      Xor(r.value.0[j], r.value.1[j]) == if x0[j] != x1[j] then Xor(y0[j], y1[j]) else ZERO
  {
    hide Xor, And, Saturated, Share;
    var s0 := m0.Send(x0, y0);
    var s1 := m1.Send(x1, y1);
    if s0.Err? || s1.Err? { return Err; }
    forall j | 0 <= j < |x0| {
      ProductEntry(m0, m1, x0, y0, x1, y1, s0.value, s1.value, j);
    }
    var xy0 := m0.Receive(s0.value, s1.value.theta, s1.value.phi);
    var xy1 := m1.Receive(s1.value, s0.value.theta, s0.value.phi);
    r := Ok((xy0, xy1));
  }
}
