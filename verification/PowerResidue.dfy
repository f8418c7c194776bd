/**
 The power-residue part of the proof (ZKP.h, blocks 4 to 7; OPRF.h, phase 1): what the constraints on
 c_0, c_1, y_i, a_0, a_1 and the last one say about the product of the committed v_i, and the values
 with which the server meets them.
 */
module PowerResidue {
  import opened Numbers
  import opened Field
  import opened ZkConstraints
  import FR = FastResidue

  /** The constraints 55 to 67 hold modulo p. */
  ghost predicate CertificateHolds(st: Statement, w: seq<Fe>)
    requires st.Valid() && |w| == VOLE_LEN
  {
    forall j :: 55 <= j < CONSTRAINTS ==> R(Residual(st, w, j)) == 0
  }

  /** The product of the ten v_i. */
  function ProductV(w: seq<Fe>): Fe
    requires |w| >= WITNESS_LEN
  {
    (w[1] * w[2] * w[3] * w[4] * w[5]) * (w[6] * w[7] * w[8] * w[9] * w[10])
  }

  function FivePow(i: nat): nat
  {
    if i == 0 then 1 else 5 * FivePow(i - 1)
  }

  lemma FivePowers()
    ensures FivePow(0) == 1 && FivePow(1) == 5 && FivePow(3) == 125 && FivePow(4) == 625 && FivePow(8) == 390625
  {
    assert FivePow(2) == 25 && FivePow(5) == 3125 && FivePow(6) == 15625 && FivePow(7) == 78125;
  }

  // ----------------------------------------------------- residues, step by step

  lemma SameFrom(x: Fe, y: Fe)
    requires R(x - y) == 0
    ensures R(x) == R(y)
  {
    ZeroIsCanonical();
    Congruent(x - y, 0, y, y);
  }

  lemma SameTo(x: Fe, y: Fe)
    requires R(x) == R(y)
    ensures R(x - y) == 0
  {
    ZeroIsCanonical();
    Congruent(x, y, y, y);
  }

  /** Congruent to powers of `a`: the product adds the exponents. */
  lemma MulPowers(a: Fe, x: Fe, m: nat, y: Fe, n: nat)
    requires R(x) == R(Pow(a, m)) && R(y) == R(Pow(a, n))
    ensures R(x * y) == R(Pow(a, m + n))
  {
    PowAdd(a, m, n);
    Congruent(x, Pow(a, m), y, Pow(a, n));
  }

  /** A factor that is not zero modulo p cancels. */
  lemma Cancel(f: Fe, x: Fe, y: Fe)
    requires IsPrime(P) && R(f) != 0 && R(f * x) == R(f * y)
    ensures R(x) == R(y)
  {
    hide R;
    SameTo(f * x, f * y);
    assert f * x - f * y == f * (x - y);
    ZeroFactor(f, x - y);
    SameFrom(x, y);
  }

  // --------------------------------------------------------- the powers of a

  /** The constraints 57 to 64: y_i is the 5^i-th power of a. */
  lemma {:induction false} FifthChain(st: Statement, w: seq<Fe>, i: nat)
    requires st.Valid() && |w| == VOLE_LEN && i <= 8 && CertificateHolds(st, w)
    ensures R(w[Y_OFFSET + i]) == R(Pow(w[Y_OFFSET], FivePow(i)))
  {
    hide R, Pow;
    var a := w[Y_OFFSET];
    if i == 0 {
      PowOneIsSelf(a);
    } else {
      FifthChain(st, w, i - 1);
      assert R(Residual(st, w, 56 + i)) == 0;
      SameFrom(w[Y_OFFSET + i], Pow(w[Y_OFFSET + i - 1], 5));
      PowSame(w[Y_OFFSET + i - 1], Pow(a, FivePow(i - 1)), 5);
      PowOfPow(a, FivePow(i - 1), 5);
    }
  }

  lemma PowOneIsSelf(a: Fe)
    ensures Pow(a, 1) == a
  {}

  /** The values of constraints 65 and 66 as powers of a, for any y_i of the chain. */
  lemma ChainPowers(a: Fe, y1: Fe, y3: Fe, y4: Fe, y8: Fe)
    requires R(y1) == R(Pow(a, FivePow(1))) && R(y3) == R(Pow(a, FivePow(3)))
    requires R(y4) == R(Pow(a, FivePow(4))) && R(y8) == R(Pow(a, FivePow(8)))
    ensures R(y8 * y8 * y4 * (y1 * y1)) == R(Pow(a, 781885))
    ensures R(a * a * y3) == R(Pow(a, 127))
  {
    hide R, Pow, FivePow;
    FivePowers();
    MulPowers(a, y8, 390625, y8, 390625);
    MulPowers(a, y8 * y8, 781250, y4, 625);
    MulPowers(a, y1, 5, y1, 5);
    MulPowers(a, y8 * y8 * y4, 781875, y1 * y1, 10);
    PowOneIsSelf(a);
    MulPowers(a, a, 1, a, 1);
    MulPowers(a, a * a, 2, y3, 125);
  }

  lemma ZeroProduct(x: Fe, y: Fe)
    requires R(x) == 0
    ensures R(x * y) == 0 && R(y * x) == 0
  {
    Congruent(x, 0, y, y);
    assert x * y == y * x;
  }

  /** a_1 is the 781763rd power of a once the last constraint makes a nonzero. */
  lemma LastFactor(a: Fe, a0: Fe, a1: Fe, y1: Fe, f: Fe, c: Fe)
    requires IsPrime(P) && R(f) == R(Pow(a, 127)) && R(y1) == R(Pow(a, 5)) && R(a0) == R(Pow(a, 781885))
    requires R(y1 * a0) == R(f * a1) && R(c * a * a1) == 1
    ensures R(a1) == R(Pow(a, 781763))
  {
    hide R, Pow;
    if R(a) == 0 {
      ZeroProduct(a, c);
      ZeroProduct(c * a, a1);
    }
    NonzeroPower(a, 127);
    MulPowers(a, y1, 5, a0, 781885);
    MulPowers(a, f, 127, Pow(a, 781763), 781763);
    Cancel(f, a1, Pow(a, 781763));
  }

  /**
   The certificate. Any committed values, chosen in any way, that meet the constraints 55 to 67 have
   (product of the v_i) * a^781764 = 1 modulo p.
   */
  lemma Certificate(st: Statement, w: seq<Fe>)
    requires IsPrime(P) && st.Valid() && |w| == VOLE_LEN && CertificateHolds(st, w)
    ensures R(ProductV(w) * Pow(w[Y_OFFSET], FR.EPS)) == 1
  {
    hide R, Pow, FivePow;
    var a := w[Y_OFFSET];
    FivePowers();
    FifthChain(st, w, 1); FifthChain(st, w, 3); FifthChain(st, w, 4); FifthChain(st, w, 8);
    ChainPowers(a, w[Y_OFFSET + 1], w[Y_OFFSET + 3], w[Y_OFFSET + 4], w[Y_OFFSET + 8]);
    assert R(Residual(st, w, 65)) == 0 && R(Residual(st, w, 66)) == 0 && R(Residual(st, w, 67)) == 0;
    assert R(Residual(st, w, 55)) == 0 && R(Residual(st, w, 56)) == 0;
    SameFrom(w[A0_POS], w[Y_OFFSET + 8] * w[Y_OFFSET + 8] * w[Y_OFFSET + 4] * (w[Y_OFFSET + 1] * w[Y_OFFSET + 1]));
    SameFrom(w[Y_OFFSET + 1] * w[A0_POS], a * a * w[Y_OFFSET + 3] * w[A1_POS]);
    SameFrom(w[C0_POS] * w[C1_POS] * a * w[A1_POS], 1);
    OneIsCanonical();
    LastFactor(a, w[A0_POS], w[A1_POS], w[Y_OFFSET + 1], a * a * w[Y_OFFSET + 3], w[C0_POS] * w[C1_POS]);
    SameFrom(w[C0_POS], w[1] * w[2] * w[3] * w[4] * w[5]);
    SameFrom(w[C1_POS], w[6] * w[7] * w[8] * w[9] * w[10]);
    Congruent(w[C0_POS], w[1] * w[2] * w[3] * w[4] * w[5], w[C1_POS], w[6] * w[7] * w[8] * w[9] * w[10]);
    PowOneIsSelf(a);
    MulPowers(a, a, 1, w[A1_POS], 781763);
    Congruent(w[C0_POS] * w[C1_POS], ProductV(w), a * w[A1_POS], Pow(a, FR.EPS));
    MulAssoc(w[C0_POS] * w[C1_POS], a, w[A1_POS]);
  }

  // ----------------------------------------------------------- power residues

  function Inverse(x: Fe): Fe
  {
    R(Pow(x, P - 2))
  }

  lemma InverseMeans(x: Fe)
    requires IsPrime(P) && R(x) != 0
    ensures R(x * Inverse(x)) == 1
  {
    hide R, Pow;
    FermatResidue(x);
    CanonicalTwice(Pow(x, P - 2));
    PowNext(x, P - 2);
    Congruent(x, x, Inverse(x), Pow(x, P - 2));
  }

  lemma PowNext(x: Fe, n: nat)
    ensures Pow(x, n + 1) == x * Pow(x, n)
  {}

  /** The full-width symbol of a nonzero EPS-th power is one. */
  lemma SymbolOfPower(r: Fe)
    requires IsPrime(P) && R(r) != 0
    ensures R(Pow(Pow(r, FR.EPS), FR.D)) == 1
  {
    hide R, Pow;
    FR.ExponentFacts();
    FermatResidue(r);
    PowOfPow(r, FR.EPS, FR.D);
  }

  /** An EPS-th root of a value whose symbol is one: its Y-th power, inverted. */
  lemma RootFromSymbol(v: Fe)
    requires IsPrime(P) && R(Pow(v, FR.D)) == 1
    ensures R(v * Pow(Pow(v, FR.Y), FR.EPS)) == 1
  {
    hide R, Pow;
    FR.ExponentFacts();
    OneIsCanonical();
    PowOfPow(v, FR.Y, FR.EPS);
    PowOneIsSelf(v);
    PowAdd(v, 1, FR.Y * FR.EPS);
    PowOfPow(v, FR.D, 386083);
    PowSame(Pow(v, FR.D), 1, 386083);
    PowOne(386083);
  }

  /** A zero value has no symbol one. */
  lemma SymbolOneNonzero(v: Fe)
    requires R(Pow(v, FR.D)) == 1
    ensures R(v) != 0
  {
    if R(v) == 0 { PowOfZero(v, FR.D); }
  }

  // ------------------------------------------------------ the values that pass

  /** The server's rule number j: a, the eight y_i, a_0, a_1, c_0, c_1, up to residues. */
  ghost predicate Rule(w: seq<Fe>, j: nat)
    requires |w| >= WITNESS_LEN
  {
    if j == 0 then R(w[Y_OFFSET]) == R(Pow(ProductV(w), FR.Y))
    else if j <= 8 then R(w[Y_OFFSET + j]) == R(Fifth(w[Y_OFFSET + j - 1]))
    else if j == 9 then
      R(w[A0_POS]) == R(w[Y_OFFSET + 8] * w[Y_OFFSET + 8] * w[Y_OFFSET + 4] * w[Y_OFFSET + 1] * w[Y_OFFSET + 1])
    else if j == 10 then
      R(w[A1_POS]) == R((w[Y_OFFSET + 1] * w[A0_POS]) * Inverse(w[Y_OFFSET] * w[Y_OFFSET] * w[Y_OFFSET + 3]))
    else if j == 11 then R(w[C0_POS]) == R(w[1] * w[2] * w[3] * w[4] * w[5])
    else R(w[C1_POS]) == R(w[6] * w[7] * w[8] * w[9] * w[10])
  }

  const RULES: nat := 13

  ghost predicate Completed(w: seq<Fe>)
    requires |w| >= WITNESS_LEN
  {
    forall j: nat {:trigger Rule(w, j)} :: j < RULES ==> Rule(w, j)
  }

  lemma {:induction false} CompletedChain(w: seq<Fe>, i: nat)
    requires |w| == VOLE_LEN && i <= 8 && Completed(w)
    ensures R(w[Y_OFFSET + i]) == R(Pow(w[Y_OFFSET], FivePow(i)))
  {
    hide R, Pow, Fifth, ProductV, Inverse;
    var a := w[Y_OFFSET];
    if i == 0 {
      PowOneIsSelf(a);
    } else {
      CompletedChain(w, i - 1);
      assert Rule(w, i);
      FifthPower(w[Y_OFFSET + i - 1]);
      PowSame(w[Y_OFFSET + i - 1], Pow(a, FivePow(i - 1)), 5);
      PowOfPow(a, FivePow(i - 1), 5);
    }
  }

  /** The inverse really divides. */
  lemma QuotientTimes(x: Fe, f: Fe, q: Fe)
    requires IsPrime(P) && R(f) != 0 && R(q) == R(x * Inverse(f))
    ensures R(f * q) == R(x)
  {
    hide R, Inverse;
    InverseMeans(f);
    OneIsCanonical();
    Congruent(f, f, q, x * Inverse(f));
    assert f * (x * Inverse(f)) == x * (f * Inverse(f)) by {
      MulAssoc(f, x, Inverse(f));
      MulAssoc(x, f, Inverse(f));
    }
    Congruent(x, x, f * Inverse(f), 1);
  }

  /** The server's a_1, and what its last constraint then says. */
  lemma CompletedTail(w: seq<Fe>)
    requires IsPrime(P) && |w| == VOLE_LEN && Completed(w) && R(Pow(ProductV(w), FR.D)) == 1
    ensures R(w[Y_OFFSET + 1] * w[A0_POS]) == R(w[Y_OFFSET] * w[Y_OFFSET] * w[Y_OFFSET + 3] * w[A1_POS])
    ensures R(w[C0_POS] * w[C1_POS] * w[Y_OFFSET] * w[A1_POS]) == 1
  {
    hide R, Pow, FivePow, Fifth, Inverse;
    var a, v := w[Y_OFFSET], ProductV(w);
    var f := a * a * w[Y_OFFSET + 3];
    assert Rule(w, 0) && Rule(w, 9) && Rule(w, 10) && Rule(w, 11) && Rule(w, 12);
    FivePowers();
    CompletedChain(w, 1); CompletedChain(w, 3); CompletedChain(w, 4); CompletedChain(w, 8);
    ChainPowers(a, w[Y_OFFSET + 1], w[Y_OFFSET + 3], w[Y_OFFSET + 4], w[Y_OFFSET + 8]);
    MulAssoc(w[Y_OFFSET + 8] * w[Y_OFFSET + 8] * w[Y_OFFSET + 4], w[Y_OFFSET + 1], w[Y_OFFSET + 1]);
    SymbolOneNonzero(v);
    NonzeroPower(v, FR.Y);
    NonzeroPower(a, 127);
    QuotientTimes(w[Y_OFFSET + 1] * w[A0_POS], f, w[A1_POS]);
    MulPowers(a, w[Y_OFFSET + 1], 5, w[A0_POS], 781885);
    MulPowers(a, f, 127, Pow(a, 781763), 781763);
    Cancel(f, w[A1_POS], Pow(a, 781763));
    PowOneIsSelf(a);
    MulPowers(a, a, 1, w[A1_POS], 781763);
    Congruent(w[C0_POS], w[1] * w[2] * w[3] * w[4] * w[5], w[C1_POS], w[6] * w[7] * w[8] * w[9] * w[10]);
    Congruent(w[C0_POS] * w[C1_POS], v, a * w[A1_POS], Pow(a, FR.EPS));
    MulAssoc(w[C0_POS] * w[C1_POS], a, w[A1_POS]);
    RootFromSymbol(v);
    PowSame(a, Pow(v, FR.Y), FR.EPS);
    Congruent(v, v, Pow(a, FR.EPS), Pow(Pow(v, FR.Y), FR.EPS));
  }

  /** The server's values meet the constraints 55 to 65, whatever the v_i are. */
  lemma CompletedHead(st: Statement, w: seq<Fe>, j: nat)
    requires st.Valid() && |w| == VOLE_LEN && Completed(w) && 55 <= j < 66
    ensures R(Residual(st, w, j)) == 0
  {
    hide R, Pow, Fifth, Inverse;
    if j == 55 {
      assert Rule(w, 11);
      SameTo(w[C0_POS], w[1] * w[2] * w[3] * w[4] * w[5]);
    } else if j == 56 {
      assert Rule(w, 12);
      SameTo(w[C1_POS], w[6] * w[7] * w[8] * w[9] * w[10]);
    } else if j < 65 {
      assert Rule(w, j - 56);
      FifthPower(w[Y_OFFSET + j - 57]);
      SameTo(w[Y_OFFSET + j - 56], Pow(w[Y_OFFSET + j - 57], 5));
    } else {
      assert Rule(w, 9);
      MulAssoc(w[Y_OFFSET + 8] * w[Y_OFFSET + 8] * w[Y_OFFSET + 4], w[Y_OFFSET + 1], w[Y_OFFSET + 1]);
      SameTo(w[A0_POS], w[Y_OFFSET + 8] * w[Y_OFFSET + 8] * w[Y_OFFSET + 4] * (w[Y_OFFSET + 1] * w[Y_OFFSET + 1]));
    }
  }

  /** The server's values meet the constraints 55 to 67. */
  lemma CompletedHolds(st: Statement, w: seq<Fe>)
    requires IsPrime(P) && st.Valid() && |w| == VOLE_LEN && Completed(w)
    requires R(Pow(ProductV(w), FR.D)) == 1
    ensures CertificateHolds(st, w)
  {
    hide R, Pow, Fifth, Inverse, Completed;
    CompletedTail(w);
    OneIsCanonical();
    forall j | 55 <= j < CONSTRAINTS ensures R(Residual(st, w, j)) == 0 {
      if j < 66 {
        CompletedHead(st, w, j);
      } else if j == 66 {
        SameTo(w[Y_OFFSET + 1] * w[A0_POS], w[Y_OFFSET] * w[Y_OFFSET] * w[Y_OFFSET + 3] * w[A1_POS]);
      } else {
        SameTo(w[C0_POS] * w[C1_POS] * w[Y_OFFSET] * w[A1_POS], 1);
      }
    }
  }

  /** A zero product leaves the last constraint, and only that one, unmet: its residual is minus one. */
  lemma CompletedZero(st: Statement, w: seq<Fe>)
    requires st.Valid() && |w| == VOLE_LEN && Completed(w) && R(ProductV(w)) == 0
    ensures forall j :: 55 <= j < 67 ==> R(Residual(st, w, j)) == 0
    ensures R(Residual(st, w, 67)) == R(-1)
  {
    hide R, Pow, Fifth, Inverse;
    var a := w[Y_OFFSET];
    assert Rule(w, 0) && Rule(w, 1) && Rule(w, 11) && Rule(w, 12);
    forall j | 55 <= j < 67 ensures R(Residual(st, w, j)) == 0 {
      if j < 66 {
        CompletedHead(st, w, j);
      } else {
        PowOfZero(ProductV(w), FR.Y);
        ZeroProduct(a, a);
        ZeroProduct(a * a, w[Y_OFFSET + 3]);
        ZeroProduct(a * a * w[Y_OFFSET + 3], w[A1_POS]);
        FifthPower(a);
        PowOfZero(a, 5);
        assert R(w[Y_OFFSET + 1]) == 0;
        ZeroProduct(w[Y_OFFSET + 1], w[A0_POS]);
        SameTo(w[Y_OFFSET + 1] * w[A0_POS], a * a * w[Y_OFFSET + 3] * w[A1_POS]);
      }
    }
    Congruent(w[C0_POS], w[1] * w[2] * w[3] * w[4] * w[5], w[C1_POS], w[6] * w[7] * w[8] * w[9] * w[10]);
    ZeroProduct(w[C0_POS] * w[C1_POS], a);
    ZeroProduct(w[C0_POS] * w[C1_POS] * a, w[A1_POS]);
    ZeroIsCanonical();
    Congruent(w[C0_POS] * w[C1_POS] * a * w[A1_POS], 0, 1, 1);
  }

  lemma PowOfZero(a: Fe, n: nat)
    requires R(a) == 0 && n > 0
    ensures R(Pow(a, n)) == 0
  {
    ZeroProduct(a, Pow(a, n - 1));
  }

  // ------------------------------------------------------ exactly which products

  /** Two committed vectors with the same v_i. */
  ghost predicate SameV(w: seq<Fe>, w': seq<Fe>)
  {
    |w| == |w'| == VOLE_LEN && forall i :: V_OFFSET <= i < V_OFFSET + LEVAL ==> w[i] == w'[i]
  }

  /** The server's completion of any choice of the v_i. */
  lemma Completion(w: seq<Fe>) returns (w': seq<Fe>)
    requires |w| == VOLE_LEN
    ensures SameV(w, w') && Completed(w')
  {
    hide R, Pow, Fifth, Inverse;
    var a := Pow(ProductV(w), FR.Y);
    var y1 := Fifth(a); var y2 := Fifth(y1); var y3 := Fifth(y2); var y4 := Fifth(y3);
    var y5 := Fifth(y4); var y6 := Fifth(y5); var y7 := Fifth(y6); var y8 := Fifth(y7);
    var a0 := y8 * y8 * y4 * y1 * y1;
    var a1 := (y1 * a0) * Inverse(a * a * y3);
    var c0, c1 := w[1] * w[2] * w[3] * w[4] * w[5], w[6] * w[7] * w[8] * w[9] * w[10];
    w' := w[..Y_OFFSET] + [a, y1, y2, y3, y4, y5, y6, y7, y8, a0, a1, c0, c1] + w[MASK_POS..];
    assert Rule(w', 0) && Rule(w', 9) && Rule(w', 10) && Rule(w', 11) && Rule(w', 12);
    assert Rule(w', 1) && Rule(w', 2) && Rule(w', 3) && Rule(w', 4);
    assert Rule(w', 5) && Rule(w', 6) && Rule(w', 7) && Rule(w', 8);
  }

  /**
   Given the v_i, values for a, y, a_0, a_1, c_0, c_1 that meet the constraints 55 to 67 exist if and
   only if the full-width residue symbol of the product of the v_i is one.
   */
  lemma CertificateExistsIff(st: Statement, w: seq<Fe>)
    requires IsPrime(P) && st.Valid() && |w| == VOLE_LEN
    ensures (exists w' :: SameV(w, w') && CertificateHolds(st, w')) <==> R(Pow(ProductV(w), FR.D)) == 1
  {
    hide R, Pow, Completed;
    if R(Pow(ProductV(w), FR.D)) == 1 {
      var w' := Completion(w);
      assert ProductV(w') == ProductV(w);
      CompletedHolds(st, w');
    }
    if w' :| SameV(w, w') && CertificateHolds(st, w') {
      assert ProductV(w') == ProductV(w);
      Certificate(st, w');
      InvertedPower(ProductV(w), w'[Y_OFFSET]);
    }
  }

  /** v * a^EPS = 1 forces the symbol of v to one. */
  lemma InvertedPower(v: Fe, a: Fe)
    requires IsPrime(P) && R(v * Pow(a, FR.EPS)) == 1
    ensures R(Pow(v, FR.D)) == 1
  {
    hide R, Pow;
    OneIsCanonical();
    if R(a) == 0 { PowOfZero(a, FR.EPS); ZeroProduct(Pow(a, FR.EPS), v); }
    SymbolOfPower(a);
    PowOfProduct(v, Pow(a, FR.EPS), FR.D);
    PowSame(v * Pow(a, FR.EPS), 1, FR.D);
    PowOne(FR.D);
    Congruent(Pow(v, FR.D), Pow(v, FR.D), Pow(Pow(a, FR.EPS), FR.D), 1);
  }

  /** Hence the product of the committed v_i is the EPS-th power of the inverse of a. */
  lemma CertificateIsPower(st: Statement, w: seq<Fe>)
    requires IsPrime(P) && st.Valid() && |w| == VOLE_LEN && CertificateHolds(st, w)
    ensures R(ProductV(w)) == R(Pow(Inverse(w[Y_OFFSET]), FR.EPS))
  {
    hide R, Pow, Inverse, ProductV, CertificateHolds;
    var a, v := w[Y_OFFSET], ProductV(w);
    Certificate(st, w);
    OneIsCanonical();
    if R(a) == 0 { PowOfZero(a, FR.EPS); ZeroProduct(Pow(a, FR.EPS), v); }
    InverseMeans(a);
    PowOfProduct(a, Inverse(a), FR.EPS);
    PowSame(a * Inverse(a), 1, FR.EPS);
    PowOne(FR.EPS);
    NonzeroPower(a, FR.EPS);
    Cancel(Pow(a, FR.EPS), v, Pow(Inverse(a), FR.EPS));
  }
}
