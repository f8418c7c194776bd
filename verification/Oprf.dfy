/**
 OPRF.h: the server's and the client's phases, and one whole honest run of the protocol. Messages are
 passed as values; random draws, seed expansions, punctures and challenges are inputs.
 */
module Oprf {
  import opened Numbers
  import opened Field
  import opened ZkConstraints
  import opened PowerResidue
  import FR = FastResidue
  import V = VolePlus
  import Zkp

  /** pow5 of fe25519.h. */
  function Pow5(x: Fe): Fe
  {
    var x2 := Mul(x, x);
    Mul(Mul(x2, x2), x)
  }

  /** Every entry is the fifth power of the one before. */
  ghost predicate IsChain(y: seq<Fe>)
  {
    forall i :: 1 <= i < |y| ==> y[i] == Pow5(y[i - 1])
  }

  function Product(v: seq<Fe>, n: nat): Fe
    requires n <= |v|
  {
    if n == 0 then 1 else Mul(Product(v, n - 1), v[n - 1])
  }

  /** The values a server draws. */
  datatype Draws = Draws(r: seq<Fe>, s: seq<Fe>, ru: Fe, rv: Fe, masks: seq<Fe>)
  {
    predicate Valid() { |r| == LEVAL && |s| == CHALLENGES && |masks| == 5 }
  }

  /** The values a client draws or expands, in the order of use. */
  datatype Challenges = Challenges(checkGamma: seq<Fe>, gamma: seq<Fe>, lambda: seq<Fe>, c: seq<nat>, scalars: seq<Fe>)
  {
    ghost predicate Valid(lenCom: nat, kPlus: nat)
    {
      && |checkGamma| == VOLE_LEN - 1 && |gamma| == LEVAL + 1 && gamma[LEVAL] == 1 && |lambda| == kPlus
      && |c| == CHALLENGES && |scalars| == CONSTRAINTS - 1
      && forall i :: 0 <= i < CHALLENGES ==> c[i] < lenCom
    }
  }

  function Bytes(c: seq<nat>): (b: seq<nat>)
    ensures |b| == |c| && forall i :: 0 <= i < |c| ==> b[i] == c[i] % 256
  {
    seq(|c|, i requires 0 <= i < |c| => c[i] % 256)
  }

  /** What phase 1 of blindedEval puts into the witness. */
  ghost predicate IsWitness(key: Fe, d: Draws, offsets: seq<Fe>, u: seq<Fe>, v: seq<Fe>, w: seq<Fe>)
  {
    && d.Valid() && |offsets| >= LEVAL && |u| == |v| == LEVAL && |w| == WITNESS_LEN
    && w[K_POS] == key && w[RU_POS] == d.ru && w[RV_POS] == d.rv
    && (forall i :: 0 <= i < LEVAL ==> w[V_OFFSET + i] == v[i] == R(Pow(d.r[i], FR.EPS)))
    && (forall i :: 0 <= i < LEVAL ==> u[i] == Mul(Add(key, offsets[i]), v[i]))
    && (forall i :: 0 <= i < CHALLENGES ==> w[B_OFFSET + i] == R(Pow(d.s[i], FR.EPS)))
    && Completed(w)
  }

  lemma {:induction false} ProductExtend(v: seq<Fe>, n: nat)
    requires n + 5 <= |v|
    ensures Product(v, n + 5) == Product(v, n) * (v[n] * v[n + 1] * v[n + 2] * v[n + 3] * v[n + 4])
  {
    var p := Product(v, n);
    assert Product(v, n + 1) == p * v[n];
    assert Product(v, n + 2) == p * v[n] * v[n + 1];
    assert Product(v, n + 3) == p * v[n] * v[n + 1] * v[n + 2];
    assert Product(v, n + 4) == p * v[n] * v[n + 1] * v[n + 2] * v[n + 3];
    assert Product(v, n + 5) == p * v[n] * v[n + 1] * v[n + 2] * v[n + 3] * v[n + 4];
    FiveFactors(p, v[n], v[n + 1], v[n + 2], v[n + 3], v[n + 4]);
  }

  lemma FiveFactors(p: int, a: int, b: int, c: int, d: int, e: int)
    ensures p * a * b * c * d * e == p * (a * b * c * d * e)
  {
    MulAssoc(p, a, b);
    MulAssoc(p, a * b, c);
    MulAssoc(p, a * b * c, d);
    MulAssoc(p, a * b * c * d, e);
  }

  class Oprf {
    const lenCom: nat
    const bits: nat
    const offsets: seq<Fe>
    const plus: V.VolePlus
    const prover: Zkp.Prover
    const verifier: Zkp.Verifier

    /** The repetition counts are those of the three constructors called here. */
    constructor (lenCom: nat, statistical: nat, bits: nat, offsets: seq<Fe>)
      requires bits > 0 && statistical > 0 && |offsets| == LEVAL + lenCom
      ensures Valid() && this.lenCom == lenCom && this.bits == bits && this.offsets == offsets
      ensures fresh(plus) && fresh(prover) && fresh(verifier)
      ensures plus.len == LEVAL && plus.kVole == KPlus(statistical, bits)
      ensures prover.kVole == verifier.kVole == KZk(statistical, bits) && prover.bits == verifier.bits == bits
    {
      this.lenCom := lenCom;
      this.bits := bits;
      this.offsets := offsets;
      this.plus := new V.VolePlus(LEVAL, KPlus(statistical, bits));
      this.prover := new Zkp.Prover(KZk(statistical, bits), bits);
      this.verifier := new Zkp.Verifier(KZk(statistical, bits), bits);
    }

    ghost predicate Valid()
    {
      && |offsets| == LEVAL + lenCom && bits > 0
      && prover.kVole == verifier.kVole && prover.bits == verifier.bits == bits
      && plus.len == LEVAL && plus.kVole > 0
    }

    // -------------------------------------------------------------- server

    /** Phase 1: v, u, b, a, the powers of a and the two products, as one vector. */
    method Witness(key: Fe, d: Draws) returns (w: seq<Fe>, u: seq<Fe>, v: seq<Fe>)
      requires Valid() && d.Valid()
      ensures IsWitness(key, d, offsets, u, v, w)
    {
      hide R, Pow, Mul, Product;
      var b: seq<Fe>;
      v, u := [], [];
      var a := 1;
      ProductEmpty(v);
      var i := 0;
      while i < LEVAL
        invariant 0 <= i <= LEVAL && |u| == |v| == i && a == Product(v, i)
        invariant forall k :: 0 <= k < i ==> v[k] == R(Pow(d.r[k], FR.EPS)) && u[k] == Mul(Add(key, offsets[k]), v[k])
      {
        var x := FR.PowEps(d.r[i]);
        ProductSnoc(v, x);
        v := v + [x];
        u := u + [Mul(Add(key, offsets[i]), x)];
        a := Mul(a, x);
        i := i + 1;
      }
      a := FR.PowY(a);
      b := [];
      i := 0;
      while i < CHALLENGES
        invariant 0 <= i <= CHALLENGES && |b| == i
        invariant forall k :: 0 <= k < i ==> b[k] == R(Pow(d.s[k], FR.EPS))
      {
        var x := FR.PowEps(d.s[i]);
        b := b + [x];
        i := i + 1;
      }
      var y, a0, a1, c0, c1 := Powers(a, v);
      w := [key] + v + b + [d.ru, d.rv, a] + y + [a0, a1, c0, c1];
      assert w[V_OFFSET..V_OFFSET + LEVAL] == v;
      assert w[B_OFFSET..B_OFFSET + CHALLENGES] == b;
      forall k | 0 <= k < LEVAL ensures w[V_OFFSET + k] == v[k] { assert w[V_OFFSET..V_OFFSET + LEVAL][k] == v[k]; }
      forall k | 0 <= k < CHALLENGES ensures w[B_OFFSET + k] == b[k] {
        assert w[B_OFFSET..B_OFFSET + CHALLENGES][k] == b[k];
      }
      CompletedWitness(w, a, v, y, a0, a1, c0, c1);
    }

    /** The chain y_i = y_{i-1}^5, the quotient a_1 and the two half products. */
    method Powers(a: Fe, v: seq<Fe>) returns (y: seq<Fe>, a0: Fe, a1: Fe, c0: Fe, c1: Fe)
      requires |v| == LEVAL
      ensures |y| == 8 && IsChain([a] + y)
      ensures a0 == Mul(Mul(Mul(Mul(y[7], y[7]), y[3]), y[0]), y[0])
      ensures a1 == Mul(Mul(y[0], a0), Inverse(Mul(Mul(a, a), y[2])))
      ensures c0 == Product(v, 5) && c1 == Product(v[5..], 5)
    {
      hide Mul, R, Pow, Pow5;
      y := [];
      var prev := a;
      var i := 0;
      while i < 8
        invariant 0 <= i <= 8 && |y| == i && prev == ([a] + y)[i] && IsChain([a] + y)
      {
        prev := Pow5(prev);
        assert [a] + (y + [prev]) == [a] + y + [prev];
        y := y + [prev];
        i := i + 1;
      }
      a0 := Mul(Mul(Mul(Mul(y[7], y[7]), y[3]), y[0]), y[0]);
      a1 := Mul(Mul(y[0], a0), Inverse(Mul(Mul(a, a), y[2])));
      c0, c1 := 1, 1;
      i := 0;
      while i < 5
        invariant 0 <= i <= 5 && c0 == Product(v, i) && c1 == Product(v[5..], i)
      {
        c0 := Mul(c0, v[i]);
        c1 := Mul(c1, v[i + 5]);
        i := i + 1;
      }
    }

    /** The symbols e_i of the shifted keys. */
    method Symbols(key: Fe) returns (e: seq<nat>)
      requires Valid()
      ensures |e| == lenCom && forall i :: 0 <= i < lenCom ==> e[i] == FR.Symbol(key + offsets[LEVAL + i])
    {
      hide FR.Symbol;
      e := [];
      var i := 0;
      while i < lenCom
        invariant 0 <= i <= lenCom && |e| == i
        invariant forall k :: 0 <= k < i ==> e[k] == FR.Symbol(key + offsets[LEVAL + k])
      {
        var kli := Add(key, offsets[i + LEVAL]);
        var x := FR.PresidueEps(kli);
        e := e + [x];
        i := i + 1;
      }
    }

    /** Phase 6: m_i = b_i * (K + l_{c_i}), at the received one-byte indices. */
    method Masked(key: Fe, b: seq<Fe>, c: seq<nat>) returns (m: seq<Fe>)
      requires Valid() && |b| == |c| == CHALLENGES && forall i :: 0 <= i < CHALLENGES ==> c[i] < lenCom
      ensures |m| == CHALLENGES
      ensures forall i :: 0 <= i < CHALLENGES ==> m[i] == Mul(b[i], Add(key, offsets[LEVAL + c[i]]))
    {
      m := [];
      var i := 0;
      while i < CHALLENGES
        invariant 0 <= i <= CHALLENGES && |m| == i
        invariant forall k :: 0 <= k < i ==> m[k] == Mul(b[k], Add(key, offsets[LEVAL + c[k]]))
      {
        var lci := offsets[LEVAL + c[i]];
        m := m + [Mul(b[i], Add(key, lci))];
        i := i + 1;
      }
    }

    /** Phase 7: c_u = r_u + <gamma, u> and c_v = r_v + <gamma, v>. */
    method FoldShares(ru: Fe, rv: Fe, u: seq<Fe>, v: seq<Fe>, gamma: seq<Fe>) returns (cu: Fe, cv: Fe)
      requires |u| == |v| == LEVAL && |gamma| >= LEVAL
      ensures cu == ru + Dot(gamma, u) && cv == rv + Dot(gamma, v)
    {
      cu, cv := ru, rv;
      var i := 0;
      assert u[..0] == [] == v[..0];
      while i < LEVAL
        invariant 0 <= i <= LEVAL && cu == ru + Dot(gamma, u[..i]) && cv == rv + Dot(gamma, v[..i])
      {
        assert u[..i + 1][..i] == u[..i] && v[..i + 1][..i] == v[..i];
        cu := Add(cu, Mul(gamma[i], u[i]));
        cv := Add(cv, Mul(gamma[i], v[i]));
        i := i + 1;
      }
      assert u[..LEVAL] == u && v[..LEVAL] == v;
    }

    // -------------------------------------------------------------- client

    /** Phase 4: no symbol may be zero. */
    method NoneZero(e: seq<nat>) returns (ok: bool)
      requires |e| == lenCom
      ensures ok <==> forall i :: 0 <= i < lenCom ==> e[i] != 0
    {
      var i := 0;
      while i < lenCom
        invariant 0 <= i <= lenCom && forall k :: 0 <= k < i ==> e[k] != 0
      {
        if e[i] == 0 { return false; }
        i := i + 1;
      }
      ok := true;
    }

    /** Phase 6: every received m_i must carry the challenged symbol. */
    method Opened(e: seq<nat>, c: seq<nat>, m: seq<Fe>) returns (ok: bool)
      requires |e| == lenCom && |c| == |m| == CHALLENGES && forall i :: 0 <= i < CHALLENGES ==> c[i] < lenCom
      ensures ok <==> forall i :: 0 <= i < CHALLENGES ==> FR.Symbol(m[i]) == e[c[i]]
    {
      hide FR.Symbol;
      var i := 0;
      while i < CHALLENGES
        invariant 0 <= i <= CHALLENGES && forall k :: 0 <= k < i ==> FR.Symbol(m[k]) == e[c[k]]
      {
        var x := FR.PresidueEps(m[i]);
        if x != e[c[i]] { return false; }
        i := i + 1;
      }
      ok := true;
    }

    /** Phase 8: the evaluation symbols, narrowed to 32 bits. */
    method EvalSymbols(o: seq<Fe>) returns (e: seq<nat>)
      requires |o| == LEVAL
      ensures |e| == LEVAL && forall i :: 0 <= i < LEVAL ==> e[i] == FR.Symbol(o[i]) % 0x1_0000_0000
    {
      hide FR.Symbol;
      e := [];
      var i := 0;
      while i < LEVAL
        invariant 0 <= i <= LEVAL && |e| == i
        invariant forall k :: 0 <= k < i ==> e[k] == FR.Symbol(o[k]) % 0x1_0000_0000
      {
        var x := FR.PresidueEps(o[i]);
        e := e + [x % 0x1_0000_0000];
        i := i + 1;
      }
    }
  }

  /** VolePlus.h line 37 and ZKP.h: the numbers of repetitions, the least that reach the security levels. */
  function KPlus(statistical: nat, bits: nat): (k: nat)
    requires bits > 0
    ensures 2 * statistical + 255 <= bits * k < 2 * statistical + 255 + bits
  {
    (2 * statistical + 255 + bits - 1) / bits
  }

  function KZk(statistical: nat, bits: nat): (k: nat)
    requires bits > 0
    ensures statistical <= bits * k < statistical + bits
  {
    (statistical + bits - 1) / bits
  }

  lemma ProductEmpty(v: seq<Fe>)
    ensures Product(v, 0) == 1
  {}

  lemma ProductSnoc(v: seq<Fe>, x: Fe)
    ensures Product(v + [x], |v| + 1) == Mul(Product(v, |v|), x)
  {
    ProductPrefix(v, x, |v|);
  }

  lemma {:induction false} ProductPrefix(v: seq<Fe>, x: Fe, n: nat)
    requires n <= |v|
    ensures Product(v + [x], n) == Product(v, n)
  {
    if n > 0 { ProductPrefix(v, x, n - 1); }
  }

  /** The server's vector is the completion that the certificate asks for. */
  lemma CompletedWitness(w: seq<Fe>, a: Fe, v: seq<Fe>, y: seq<Fe>, a0: Fe, a1: Fe, c0: Fe, c1: Fe)
    requires |w| == WITNESS_LEN && |v| == LEVAL && |y| == 8 && a == R(Pow(Product(v, LEVAL), FR.Y))
    requires w[V_OFFSET..V_OFFSET + LEVAL] == v && w[Y_OFFSET..] == [a] + y + [a0, a1, c0, c1]
    requires IsChain([a] + y)
    requires a0 == Mul(Mul(Mul(Mul(y[7], y[7]), y[3]), y[0]), y[0])
    requires a1 == Mul(Mul(y[0], a0), Inverse(Mul(Mul(a, a), y[2])))
    requires c0 == Product(v, 5) && c1 == Product(v[5..], 5)
    ensures Completed(w)
  {
    hide R, Pow, Inverse, Product, IsChain, Pow5, Fifth, Mul;
    HalfProducts(w, v);
    ChainInWitness(w, a, y, w[Y_OFFSET + 9..]);
    assert w[A0_POS] == w[Y_OFFSET..][9] && w[A1_POS] == w[Y_OFFSET..][10];
    assert w[C0_POS] == w[Y_OFFSET..][11] && w[C1_POS] == w[Y_OFFSET..][12];
    CanonicalTwice(Pow(Product(v, LEVAL), FR.Y));
    MulNames();
    forall j: nat | j < RULES ensures Rule(w, j) {
      if 1 <= j <= 8 { assert w[Y_OFFSET + j] == Fifth(w[Y_OFFSET + j - 1]); }
    }
  }

  lemma MulNames()
    ensures forall x, y {:trigger Mul(x, y)} :: Mul(x, y) == x * y
  {}

  lemma ChainInWitness(w: seq<Fe>, a: Fe, y: seq<Fe>, rest: seq<Fe>)
    requires |w| == WITNESS_LEN && |y| == 8 && w[Y_OFFSET..] == [a] + y + rest && IsChain([a] + y)
    ensures w[Y_OFFSET] == a && forall i :: 0 <= i < 8 ==> y[i] == w[Y_OFFSET + 1 + i]
    ensures forall i :: Y_OFFSET < i <= Y_OFFSET + 8 ==> w[i] == Fifth(w[i - 1])
  {
    hide Mul;
    var z := [a] + y;
    assert forall i :: 0 <= i <= 8 ==> w[Y_OFFSET + i] == w[Y_OFFSET..][i] == z[i];
    forall i | Y_OFFSET < i <= Y_OFFSET + 8 ensures w[i] == Fifth(w[i - 1]) {
      var k := i - Y_OFFSET;
      assert w[Y_OFFSET + k] == z[k] && w[Y_OFFSET + (k - 1)] == z[k - 1];
    }
  }

  lemma HalfProducts(w: seq<Fe>, v: seq<Fe>)
    requires |w| == WITNESS_LEN && |v| == LEVAL && w[V_OFFSET..V_OFFSET + LEVAL] == v
    ensures Product(v, 5) == w[1] * w[2] * w[3] * w[4] * w[5]
    ensures Product(v[5..], 5) == w[6] * w[7] * w[8] * w[9] * w[10]
    ensures Product(v, LEVAL) == ProductV(w)
  {
    hide Product, Mul;
    ProductExtend(v, 0);
    ProductExtend(v, 5);
    ProductExtend(v[5..], 0);
    ProductEmpty(v);
    ProductEmpty(v[5..]);
    assert forall k :: 0 <= k < LEVAL ==> v[k] == w[V_OFFSET + k];
    assert v[0] == w[1] && v[1] == w[2] && v[2] == w[3] && v[3] == w[4] && v[4] == w[5];
    assert v[5] == w[6] && v[6] == w[7] && v[7] == w[8] && v[8] == w[9] && v[9] == w[10];
  }
}
