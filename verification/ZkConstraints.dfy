/**
 ZKP.h: the 68 constraints of the proof. `Residual` is a constraint on the witness; `Term` is the
 scaled constraint as the verifier computes it on its keys, homogenized to degree five in its
 global key.
 */
module ZkConstraints {
  import opened Numbers
  import opened Field

  // The layout of the committed vector (ZKP.h, the position macros).
  const LEVAL: nat := 10
  const CHALLENGES: nat := 53
  const K_POS: nat := 0
  const V_OFFSET: nat := 1
  const B_OFFSET: nat := 11
  const RU_POS: nat := 64
  const RV_POS: nat := 65
  const Y_OFFSET: nat := 66
  const A0_POS: nat := 75
  const A1_POS: nat := 76
  const C0_POS: nat := 77
  const C1_POS: nat := 78
  const WITNESS_LEN: nat := 79
  const MASK_POS: nat := 79
  const CHECK_POS: nat := 84
  const VOLE_LEN: nat := 85

  const CONSTRAINTS: nat := 68

  /** The public inputs of the proof and the folding scalars. */
  datatype Statement = Statement(gamma: seq<Fe>, mm: seq<Fe>, cu: Fe, cv: Fe,
                                 offsets: seq<Fe>, c: seq<nat>, scalars: seq<Fe>)
  {
    ghost predicate Valid()
    {
      && |gamma| >= LEVAL && |mm| == |c| == CHALLENGES && |scalars| == CONSTRAINTS - 1
      && (forall i :: 0 <= i < CHALLENGES ==> LEVAL + c[i] < |offsets|)
      && LEVAL <= |offsets|
    }
  }

  // ------------------------------------------------------------- the keys

  function Shift(s: seq<Fe>, x: Fe, offset: Fe): Fe
    requires |s| == VOLE_LEN
  {
    Add(s[K_POS], Mul(x, offset))
  }

  function SumV(st: Statement, s: seq<Fe>, n: nat): Fe
    requires st.Valid() && |s| == VOLE_LEN && n <= LEVAL
  {
    if n == 0 then 0 else Add(SumV(st, s, n - 1), Mul(st.gamma[n - 1], s[V_OFFSET + n - 1]))
  }

  function SumU(st: Statement, s: seq<Fe>, x: Fe, n: nat): Fe
    requires st.Valid() && |s| == VOLE_LEN && n <= LEVAL
  {
    if n == 0 then 0
    else Add(SumU(st, s, x, n - 1), Mul(Mul(st.gamma[n - 1], s[V_OFFSET + n - 1]), Shift(s, x, st.offsets[n - 1])))
  }

  function X2(x: Fe): Fe { Mul(x, x) }
  function X3(x: Fe): Fe { Mul(x, X2(x)) }
  function X4(x: Fe): Fe { Mul(X2(x), X2(x)) }
  function X5(x: Fe): Fe { Mul(X2(x), X3(x)) }

  function Product5(s: seq<Fe>, i: nat): Fe
    requires |s| == VOLE_LEN && i + 4 < VOLE_LEN
  {
    Mul(Mul(Mul(Mul(s[i], s[i + 1]), s[i + 2]), s[i + 3]), s[i + 4])
  }

  function Fifth(y: Fe): Fe
  {
    Mul(Mul(Mul(y, y), Mul(y, y)), y)
  }

  function TermU(st: Statement, s: seq<Fe>, x: Fe): Fe
    requires st.Valid() && |s| == VOLE_LEN
  {
    Mul(Sub(Add(SumU(st, s, x, LEVAL), Mul(x, s[RU_POS])), Mul(X2(x), st.cu)), X3(x))
  }

  function TermV(st: Statement, s: seq<Fe>, x: Fe): Fe
    requires st.Valid() && |s| == VOLE_LEN
  {
    Mul(Sub(Add(SumV(st, s, LEVAL), s[RV_POS]), Mul(x, st.cv)), X4(x))
  }

  function TermB(st: Statement, s: seq<Fe>, x: Fe, i: nat): Fe
    requires st.Valid() && |s| == VOLE_LEN && i < CHALLENGES
  {
    Sub(Mul(st.mm[i], X2(x)), Mul(s[B_OFFSET + i], Shift(s, x, st.offsets[LEVAL + st.c[i]])))
  }

  function TermC(s: seq<Fe>, x: Fe, c: nat, v: nat): Fe
    requires |s| == VOLE_LEN && c < VOLE_LEN && v + 4 < VOLE_LEN
  {
    Sub(Mul(s[c], X4(x)), Product5(s, v))
  }

  function TermY(s: seq<Fe>, x: Fe, i: nat): Fe
    requires |s| == VOLE_LEN && 1 <= i <= 8
  {
    Sub(Mul(s[Y_OFFSET + i], X4(x)), Fifth(s[Y_OFFSET + i - 1]))
  }

  function TermA0(s: seq<Fe>, x: Fe): Fe
    requires |s| == VOLE_LEN
  {
    Sub(Mul(s[A0_POS], X4(x)),
        Mul(Mul(Mul(s[Y_OFFSET + 8], s[Y_OFFSET + 8]), s[Y_OFFSET + 4]), Mul(s[Y_OFFSET + 1], s[Y_OFFSET + 1])))
  }

  function TermA1(s: seq<Fe>, x: Fe): Fe
    requires |s| == VOLE_LEN
  {
    Sub(Mul(Mul(s[Y_OFFSET + 1], s[A0_POS]), X3(x)),
        Mul(Mul(Mul(Mul(s[Y_OFFSET], s[Y_OFFSET]), s[Y_OFFSET + 3]), s[A1_POS]), x))
  }

  function TermInv(s: seq<Fe>, x: Fe): Fe
    requires |s| == VOLE_LEN
  {
    Sub(Mul(Mul(Mul(s[C0_POS], s[C1_POS]), s[Y_OFFSET]), s[A1_POS]), X4(x))
  }

  /** Constraint j, folded with its scalar; the first one is not scaled. */
  function Term(st: Statement, s: seq<Fe>, x: Fe, j: nat): Fe
    requires st.Valid() && |s| == VOLE_LEN && j < CONSTRAINTS
  {
    if j == 0 then TermU(st, s, x)
    else
      var k := st.scalars[j - 1];
      if j == 1 then Mul(k, TermV(st, s, x))
      else if j < 2 + CHALLENGES then Mul(Mul(k, X3(x)), TermB(st, s, x, j - 2))
      else if j == 55 then Mul(k, TermC(s, x, C0_POS, V_OFFSET))
      else if j == 56 then Mul(k, TermC(s, x, C1_POS, V_OFFSET + 5))
      else if j < 65 then Mul(k, TermY(s, x, j - 56))
      else if j == 65 then Mul(k, TermA0(s, x))
      else if j == 66 then Mul(k, TermA1(s, x))
      else Mul(Mul(k, TermInv(s, x)), x)
  }

  function FoldTerms(st: Statement, s: seq<Fe>, x: Fe, n: nat): Fe
    requires st.Valid() && |s| == VOLE_LEN && n <= CONSTRAINTS
  {
    if n == 0 then 0 else Add(FoldTerms(st, s, x, n - 1), Term(st, s, x, n - 1))
  }

  // ------------------------------------------------------ the plain constraints

  function GammaV(st: Statement, w: seq<Fe>, n: nat): Fe
    requires st.Valid() && |w| == VOLE_LEN && n <= LEVAL
  {
    if n == 0 then 0 else GammaV(st, w, n - 1) + st.gamma[n - 1] * w[V_OFFSET + n - 1]
  }

  function GammaU(st: Statement, w: seq<Fe>, n: nat): Fe
    requires st.Valid() && |w| == VOLE_LEN && n <= LEVAL
  {
    if n == 0 then 0
    else GammaU(st, w, n - 1) + st.gamma[n - 1] * w[V_OFFSET + n - 1] * (w[K_POS] + st.offsets[n - 1])
  }

  /** Constraint j on the witness: zero modulo p when it holds. */
  function Residual(st: Statement, w: seq<Fe>, j: nat): Fe
    requires st.Valid() && |w| == VOLE_LEN && j < CONSTRAINTS
  {
    if j == 0 then GammaU(st, w, LEVAL) + w[RU_POS] - st.cu
    else if j == 1 then GammaV(st, w, LEVAL) + w[RV_POS] - st.cv
    else if j < 55 then st.mm[j - 2] - w[B_OFFSET + j - 2] * (w[K_POS] + st.offsets[LEVAL + st.c[j - 2]])
    else if j == 55 then w[C0_POS] - w[1] * w[2] * w[3] * w[4] * w[5]
    else if j == 56 then w[C1_POS] - w[6] * w[7] * w[8] * w[9] * w[10]
    else if j < 65 then w[Y_OFFSET + j - 56] - Pow(w[Y_OFFSET + j - 57], 5)
    else if j == 65 then
      w[A0_POS] - w[Y_OFFSET + 8] * w[Y_OFFSET + 8] * w[Y_OFFSET + 4] * (w[Y_OFFSET + 1] * w[Y_OFFSET + 1])
    else if j == 66 then
      w[Y_OFFSET + 1] * w[A0_POS] - w[Y_OFFSET] * w[Y_OFFSET] * w[Y_OFFSET + 3] * w[A1_POS]
    else w[C0_POS] * w[C1_POS] * w[Y_OFFSET] * w[A1_POS] - 1
  }

  function FoldResiduals(st: Statement, w: seq<Fe>, n: nat): Fe
    requires st.Valid() && |w| == VOLE_LEN && n <= CONSTRAINTS
  {
    if n == 0 then 0
    else FoldResiduals(st, w, n - 1) + (if n == 1 then 1 else st.scalars[n - 2]) * Residual(st, w, n - 1)
  }

  lemma {:induction false} SumsAtOne(st: Statement, w: seq<Fe>, n: nat)
    requires st.Valid() && |w| == VOLE_LEN && n <= LEVAL
    ensures SumV(st, w, n) == GammaV(st, w, n) && SumU(st, w, 1, n) == GammaU(st, w, n)
  {
    if n > 0 { SumsAtOne(st, w, n - 1); }
  }

  lemma FifthPower(y: Fe)
    ensures Pow(y, 5) == Fifth(y)
  {
    assert Pow(y, 1) == y;
    PowAdd(y, 1, 1);
    PowAdd(y, 2, 2);
    PowAdd(y, 4, 1);
  }

  /** At key 1 the homogenized term is the scaled residual. */
  lemma TermAtOne(st: Statement, w: seq<Fe>, j: nat)
    requires st.Valid() && |w| == VOLE_LEN && j < CONSTRAINTS
    ensures Term(st, w, 1, j) == (if j == 0 then 1 else st.scalars[j - 1]) * Residual(st, w, j)
  {
    hide SumV, SumU, GammaV, GammaU, Pow;
    SumsAtOne(st, w, LEVAL);
    if 57 <= j < 65 { FifthPower(w[Y_OFFSET + j - 57]); }
  }

  lemma {:induction false} FoldAtOne(st: Statement, w: seq<Fe>, n: nat)
    requires st.Valid() && |w| == VOLE_LEN && n <= CONSTRAINTS
    ensures FoldTerms(st, w, 1, n) == FoldResiduals(st, w, n)
  {
    hide Term, Residual;
    if n > 0 {
      FoldAtOne(st, w, n - 1);
      TermAtOne(st, w, n - 1);
    }
  }

  // ------------------------------------------- congruent keys, congruent terms

  ghost predicate SameResidues(s: seq<Fe>, s': seq<Fe>)
  {
    |s| == |s'| == VOLE_LEN && forall i :: 0 <= i < VOLE_LEN ==> R(s[i]) == R(s'[i])
  }

  lemma {:induction false} SumsCongruent(st: Statement, s: seq<Fe>, s': seq<Fe>, x: Fe, n: nat)
    requires st.Valid() && SameResidues(s, s') && n <= LEVAL
    ensures R(SumV(st, s, n)) == R(SumV(st, s', n)) && R(SumU(st, s, x, n)) == R(SumU(st, s', x, n))
  {
    hide R, Add, Sub, Mul, AddR, SubR, MulR;
    Residues();
    if n > 0 { SumsCongruent(st, s, s', x, n - 1); }
  }

  lemma TermCongruent(st: Statement, s: seq<Fe>, s': seq<Fe>, x: Fe, j: nat)
    requires st.Valid() && SameResidues(s, s') && j < CONSTRAINTS
    ensures R(Term(st, s, x, j)) == R(Term(st, s', x, j))
  {
    hide R, Add, Sub, Mul, AddR, SubR, MulR, SumV, SumU;
    Residues();
    SumsCongruent(st, s, s', x, LEVAL);
  }

  lemma {:induction false} FoldCongruent(st: Statement, s: seq<Fe>, s': seq<Fe>, x: Fe, n: nat)
    requires st.Valid() && SameResidues(s, s') && n <= CONSTRAINTS
    ensures R(FoldTerms(st, s, x, n)) == R(FoldTerms(st, s', x, n))
  {
    hide R, Add, Sub, Mul, AddR, SubR, MulR, Term;
    Residues();
    if n > 0 {
      FoldCongruent(st, s, s', x, n - 1);
      TermCongruent(st, s, s', x, n - 1);
    }
  }

  /** Public inputs that differ in representatives only. */
  ghost predicate SameStatement(st: Statement, st': Statement)
  {
    && st.Valid() && st'.Valid() && st'.gamma == st.gamma && st'.offsets == st.offsets && st'.c == st.c
    && st'.scalars == st.scalars && R(st'.cu) == R(st.cu) && R(st'.cv) == R(st.cv)
    && forall i :: 0 <= i < CHALLENGES ==> R(st'.mm[i]) == R(st.mm[i])
  }

  lemma {:induction false} SumsOfStatement(st: Statement, st': Statement, s: seq<Fe>, x: Fe, n: nat)
    requires SameStatement(st, st') && |s| == VOLE_LEN && n <= LEVAL
    ensures SumV(st', s, n) == SumV(st, s, n) && SumU(st', s, x, n) == SumU(st, s, x, n)
  {
    hide R, Add, Mul;
    if n > 0 { SumsOfStatement(st, st', s, x, n - 1); }
  }

  lemma TermOfStatement(st: Statement, st': Statement, s: seq<Fe>, x: Fe, j: nat)
    requires SameStatement(st, st') && |s| == VOLE_LEN && j < CONSTRAINTS
    ensures R(Term(st', s, x, j)) == R(Term(st, s, x, j))
  {
    hide R, Add, Sub, Mul, AddR, SubR, MulR, SumV, SumU;
    Residues();
    SumsOfStatement(st, st', s, x, LEVAL);
  }

  lemma {:induction false} FoldOfStatement(st: Statement, st': Statement, s: seq<Fe>, x: Fe, n: nat)
    requires SameStatement(st, st') && |s| == VOLE_LEN && n <= CONSTRAINTS
    ensures R(FoldTerms(st', s, x, n)) == R(FoldTerms(st, s, x, n))
  {
    hide R, Add, Sub, Mul, AddR, SubR, MulR, Term;
    Residues();
    if n > 0 {
      FoldOfStatement(st, st', s, x, n - 1);
      TermOfStatement(st, st', s, x, n - 1);
    }
  }

  /** Statements that may differ in the values received or computed: cu, cv and the masked openings. */
  ghost predicate SameChallenge(st: Statement, st': Statement)
  {
    && st.Valid() && st'.Valid() && st'.gamma == st.gamma && st'.offsets == st.offsets && st'.c == st.c
    && st'.scalars == st.scalars
  }

  lemma {:induction false} SumsOfChallenge(st: Statement, st': Statement, s: seq<Fe>, x: Fe, n: nat)
    requires SameChallenge(st, st') && |s| == VOLE_LEN && n <= LEVAL
    ensures SumV(st', s, n) == SumV(st, s, n) && SumU(st', s, x, n) == SumU(st, s, x, n)
    ensures GammaV(st', s, n) == GammaV(st, s, n) && GammaU(st', s, n) == GammaU(st, s, n)
  {
    hide Add, Mul;
    if n > 0 { SumsOfChallenge(st, st', s, x, n - 1); }
  }

  lemma ShiftU(u: Fe, cu: Fe, cu': Fe, x: Fe)
    ensures Mul(Sub(u, Mul(X2(x), cu')), X3(x)) - Mul(Sub(u, Mul(X2(x), cu)), X3(x)) == X5(x) * (cu - cu')
  {
    var a, b := X2(x), X3(x);
    assert (u - a * cu') * b - (u - a * cu) * b == (a * cu) * b - (a * cu') * b;
    assert (a * cu) * b == (a * b) * cu && (a * cu') * b == (a * b) * cu' by {
      MulAssoc(a, cu, b); MulAssoc(a, b, cu);
      MulAssoc(a, cu', b); MulAssoc(a, b, cu');
    }
  }

  lemma ShiftV(v: Fe, cv: Fe, cv': Fe, k: Fe, x: Fe)
    ensures Mul(k, Mul(Sub(v, Mul(x, cv')), X4(x))) - Mul(k, Mul(Sub(v, Mul(x, cv)), X4(x))) == X5(x) * (k * (cv - cv'))
  {
    var b := X4(x);
    assert x * b == X5(x) by { MulAssoc(x, X2(x), X2(x)); }
    hide X4, X5;
    KeyShift(v, cv, cv', x, b);
    ScaledShift(k, (v - x * cv') * b, (v - x * cv) * b, x * b, cv - cv');
  }

  lemma KeyShift(v: Fe, cv: Fe, cv': Fe, x: Fe, b: Fe)
    ensures (v - x * cv') * b - (v - x * cv) * b == (x * b) * (cv - cv')
  {
    SubTimes(v, x * cv', b);
    SubTimes(v, x * cv, b);
    MulAssoc(x, cv, b);
    MulAssoc(x, b, cv);
    MulAssoc(x, cv', b);
    MulAssoc(x, b, cv');
    SubTimes(cv, cv', x * b);
  }

  lemma SubTimes(a: Fe, b: Fe, c: Fe)
    ensures (a - b) * c == a * c - b * c && c * (a - b) == c * a - c * b
  {}

  lemma ScaledShift(k: Fe, a: Fe, b: Fe, q: Fe, d: Fe)
    requires a - b == q * d
    ensures k * a - k * b == q * (k * d)
  {
    assert k * a - k * b == k * (q * d);
    MulAssoc(k, q, d);
    MulAssoc(q, k, d);
  }

  lemma ShiftB(m: Fe, m': Fe, b: Fe, k: Fe, x: Fe)
    ensures Mul(Mul(k, X3(x)), Sub(Mul(m', X2(x)), b)) - Mul(Mul(k, X3(x)), Sub(Mul(m, X2(x)), b)) == X5(x) * (k * (m' - m))
  {
    var q, a := X3(x), X2(x);
    assert m' * a - b - (m * a - b) == a * (m' - m);
    ScaledShift(k * q, m' * a - b, m * a - b, a, m' - m);
    assert a * ((k * q) * (m' - m)) == (a * q) * (k * (m' - m)) by {
      MulAssoc(k, q, m' - m); MulAssoc(q, k, m' - m); MulAssoc(a, q, k * (m' - m));
    }
  }

  /** What a change of the received values does to a term, for any keys, and to the residual, for any witness. */
  lemma TermShift(st: Statement, st': Statement, s: seq<Fe>, w: seq<Fe>, x: Fe, j: nat)
    requires SameChallenge(st, st') && |s| == |w| == VOLE_LEN && j < CONSTRAINTS
    ensures Term(st', s, x, j) - Term(st, s, x, j)
         == X5(x) * ((if j == 0 then 1 else st.scalars[j - 1]) * (Residual(st', w, j) - Residual(st, w, j)))
  {
    hide SumV, SumU, GammaV, GammaU, Pow, X2, X3, X4, X5, Mul, Add, Sub;
    SumsOfChallenge(st, st', s, x, LEVAL);
    SumsOfChallenge(st, st', w, x, LEVAL);
    if j == 0 {
      ShiftU(Add(SumU(st, s, x, LEVAL), Mul(x, s[RU_POS])), st.cu, st'.cu, x);
    } else if j == 1 {
      ShiftV(Add(SumV(st, s, LEVAL), s[RV_POS]), st.cv, st'.cv, st.scalars[0], x);
    } else if j < 55 {
      ShiftB(st.mm[j - 2], st'.mm[j - 2], Mul(s[B_OFFSET + (j - 2)], Shift(s, x, st.offsets[LEVAL + st.c[j - 2]])),
             st.scalars[j - 1], x);
    } else {
      assert Term(st', s, x, j) == Term(st, s, x, j) && Residual(st', w, j) == Residual(st, w, j);
    }
  }

  lemma {:induction false} FoldShift(st: Statement, st': Statement, s: seq<Fe>, w: seq<Fe>, x: Fe, n: nat)
    requires SameChallenge(st, st') && |s| == |w| == VOLE_LEN && n <= CONSTRAINTS
    ensures FoldTerms(st', s, x, n) - FoldTerms(st, s, x, n) == X5(x) * (FoldResiduals(st', w, n) - FoldResiduals(st, w, n))
  {
    hide Term, Residual, X5;
    if n > 0 {
      FoldShift(st, st', s, w, x, n - 1);
      TermShift(st, st', s, w, x, n - 1);
      var k, d := if n == 1 then 1 else st.scalars[n - 2], Residual(st', w, n - 1) - Residual(st, w, n - 1);
      assert k * Residual(st', w, n - 1) - k * Residual(st, w, n - 1) == k * d;
      SplitProduct(X5(x), FoldResiduals(st', w, n - 1) - FoldResiduals(st, w, n - 1), k * d);
    }
  }

  lemma SplitProduct(q: Fe, a: Fe, b: Fe)
    ensures q * (a + b) == q * a + q * b
  {}

  // --------------------------------------------------- the constraints written out

  lemma SumVWritten(st: Statement, w: seq<Fe>)
    requires st.Valid() && |w| == 85
    ensures GammaV(st, w, 10) ==
      st.gamma[0] * w[1] + st.gamma[1] * w[2] + st.gamma[2] * w[3] + st.gamma[3] * w[4] + st.gamma[4] * w[5] +
      st.gamma[5] * w[6] + st.gamma[6] * w[7] + st.gamma[7] * w[8] + st.gamma[8] * w[9] + st.gamma[9] * w[10]
  {
    assert GammaV(st, w, 1) == GammaV(st, w, 0) + st.gamma[0] * w[1];
    assert GammaV(st, w, 2) == GammaV(st, w, 1) + st.gamma[1] * w[2];
    assert GammaV(st, w, 3) == GammaV(st, w, 2) + st.gamma[2] * w[3];
    assert GammaV(st, w, 4) == GammaV(st, w, 3) + st.gamma[3] * w[4];
    assert GammaV(st, w, 5) == GammaV(st, w, 4) + st.gamma[4] * w[5];
    assert GammaV(st, w, 6) == GammaV(st, w, 5) + st.gamma[5] * w[6];
    assert GammaV(st, w, 7) == GammaV(st, w, 6) + st.gamma[6] * w[7];
    assert GammaV(st, w, 8) == GammaV(st, w, 7) + st.gamma[7] * w[8];
    assert GammaV(st, w, 9) == GammaV(st, w, 8) + st.gamma[8] * w[9];
    assert GammaV(st, w, 10) == GammaV(st, w, 9) + st.gamma[9] * w[10];
  }

  lemma SumUWritten(st: Statement, w: seq<Fe>)
    requires st.Valid() && |w| == 85
    ensures GammaU(st, w, 10) ==
      st.gamma[0] * w[1] * (w[0] + st.offsets[0]) + st.gamma[1] * w[2] * (w[0] + st.offsets[1]) + st.gamma[2] * w[3] * (w[0] + st.offsets[2]) +
      st.gamma[3] * w[4] * (w[0] + st.offsets[3]) + st.gamma[4] * w[5] * (w[0] + st.offsets[4]) + st.gamma[5] * w[6] * (w[0] + st.offsets[5]) +
      st.gamma[6] * w[7] * (w[0] + st.offsets[6]) + st.gamma[7] * w[8] * (w[0] + st.offsets[7]) + st.gamma[8] * w[9] * (w[0] + st.offsets[8]) +
      st.gamma[9] * w[10] * (w[0] + st.offsets[9])
  {
    assert GammaU(st, w, 1) == GammaU(st, w, 0) + st.gamma[0] * w[1] * (w[0] + st.offsets[0]);
    assert GammaU(st, w, 2) == GammaU(st, w, 1) + st.gamma[1] * w[2] * (w[0] + st.offsets[1]);
    assert GammaU(st, w, 3) == GammaU(st, w, 2) + st.gamma[2] * w[3] * (w[0] + st.offsets[2]);
    assert GammaU(st, w, 4) == GammaU(st, w, 3) + st.gamma[3] * w[4] * (w[0] + st.offsets[3]);
    assert GammaU(st, w, 5) == GammaU(st, w, 4) + st.gamma[4] * w[5] * (w[0] + st.offsets[4]);
    assert GammaU(st, w, 6) == GammaU(st, w, 5) + st.gamma[5] * w[6] * (w[0] + st.offsets[5]);
    assert GammaU(st, w, 7) == GammaU(st, w, 6) + st.gamma[6] * w[7] * (w[0] + st.offsets[6]);
    assert GammaU(st, w, 8) == GammaU(st, w, 7) + st.gamma[7] * w[8] * (w[0] + st.offsets[7]);
    assert GammaU(st, w, 9) == GammaU(st, w, 8) + st.gamma[8] * w[9] * (w[0] + st.offsets[8]);
    assert GammaU(st, w, 10) == GammaU(st, w, 9) + st.gamma[9] * w[10] * (w[0] + st.offsets[9]);
  }

  /** The 68 differences that a statement and a committed vector must make zero, in plain arithmetic. */
  ghost function Differences(st: Statement, w: seq<Fe>): (e: seq<Fe>)
    requires st.Valid() && |w| == 85
    ensures |e| == 68
    ensures e[0] ==
      st.gamma[0] * w[1] * (w[0] + st.offsets[0]) + st.gamma[1] * w[2] * (w[0] + st.offsets[1]) + st.gamma[2] * w[3] * (w[0] + st.offsets[2]) +
      st.gamma[3] * w[4] * (w[0] + st.offsets[3]) + st.gamma[4] * w[5] * (w[0] + st.offsets[4]) + st.gamma[5] * w[6] * (w[0] + st.offsets[5]) +
      st.gamma[6] * w[7] * (w[0] + st.offsets[6]) + st.gamma[7] * w[8] * (w[0] + st.offsets[7]) + st.gamma[8] * w[9] * (w[0] + st.offsets[8]) +
      st.gamma[9] * w[10] * (w[0] + st.offsets[9]) + w[64] - st.cu
    ensures e[1] ==
      st.gamma[0] * w[1] + st.gamma[1] * w[2] + st.gamma[2] * w[3] + st.gamma[3] * w[4] + st.gamma[4] * w[5] +
      st.gamma[5] * w[6] + st.gamma[6] * w[7] + st.gamma[7] * w[8] + st.gamma[8] * w[9] + st.gamma[9] * w[10] + w[65] - st.cv
    ensures forall i :: 0 <= i < 53 ==> e[2 + i] == st.mm[i] - w[11 + i] * (w[0] + st.offsets[10 + st.c[i]])
    ensures e[55] == w[77] - w[1] * w[2] * w[3] * w[4] * w[5] && e[56] == w[78] - w[6] * w[7] * w[8] * w[9] * w[10]
    ensures forall i :: 57 <= i <= 64 ==> e[i] == w[i + 10] - Pow(w[i + 9], 5)
    ensures e[65] == w[75] - w[74] * w[74] * w[70] * (w[67] * w[67])
    ensures e[66] == w[67] * w[75] - w[66] * w[66] * w[69] * w[76]
    ensures e[67] == w[77] * w[78] * w[66] * w[76] - 1
  {
    SumVWritten(st, w);
    SumUWritten(st, w);
    hide GammaV, GammaU, Pow;
    seq(68, j requires 0 <= j < 68 => Residual(st, w, j))
  }

  /** The folded residuals are the differences weighted by one and the scalars. */
  lemma {:induction false} FoldWritten(st: Statement, w: seq<Fe>, n: nat)
    requires st.Valid() && |w| == 85 && 1 <= n <= 68
    ensures FoldResiduals(st, w, n) == Differences(st, w)[0] + Dot(st.scalars, Differences(st, w)[1..n])
  {
    hide Residual, Dot;
    var e := Differences(st, w);
    if n == 1 {
      assert e[1..1] == [];
      DotEmpty(st.scalars);
    } else {
      FoldWritten(st, w, n - 1);
      assert e[1..n][..n - 2] == e[1..n - 1] && e[1..n][n - 2] == e[n - 1];
      DotSnoc(st.scalars, e[1..n]);
    }
  }

  lemma ZeroDifference(a: Fe, b: Fe)
    ensures R(a - b) == 0 <==> R(b) == R(a)
  {
    hide R;
    ZeroIsCanonical();
    if R(a - b) == 0 { Congruent(a - b, 0, b, b); }
    if R(b) == R(a) { Congruent(b, a, b, b); Congruent(a, a, b, a); }
  }

  /** The linear constraints hold exactly when the statement is the one that the committed values make true. */
  lemma LinearIff(st: Statement, w: seq<Fe>)
    requires st.Valid() && |w| == 85
    ensures (forall j :: 0 <= j < 55 ==> R(Differences(st, w)[j]) == 0) <==>
      (&& R(st.cu) == R(
            st.gamma[0] * w[1] * (w[0] + st.offsets[0]) + st.gamma[1] * w[2] * (w[0] + st.offsets[1]) + st.gamma[2] * w[3] * (w[0] + st.offsets[2]) +
            st.gamma[3] * w[4] * (w[0] + st.offsets[3]) + st.gamma[4] * w[5] * (w[0] + st.offsets[4]) + st.gamma[5] * w[6] * (w[0] + st.offsets[5]) +
            st.gamma[6] * w[7] * (w[0] + st.offsets[6]) + st.gamma[7] * w[8] * (w[0] + st.offsets[7]) + st.gamma[8] * w[9] * (w[0] + st.offsets[8]) +
            st.gamma[9] * w[10] * (w[0] + st.offsets[9]) + w[64])
       && R(st.cv) == R(
            st.gamma[0] * w[1] + st.gamma[1] * w[2] + st.gamma[2] * w[3] + st.gamma[3] * w[4] + st.gamma[4] * w[5] +
            st.gamma[5] * w[6] + st.gamma[6] * w[7] + st.gamma[7] * w[8] + st.gamma[8] * w[9] + st.gamma[9] * w[10] + w[65])
       && forall i :: 0 <= i < 53 ==> R(st.mm[i]) == R(w[11 + i] * (w[0] + st.offsets[10 + st.c[i]])))
  {
    hide R;
    var e := Differences(st, w);
    ZeroDifference(e[0] + st.cu, st.cu);
    ZeroDifference(e[1] + st.cv, st.cv);
    forall i | 0 <= i < 53
      ensures R(e[2 + i]) == 0 <==> R(st.mm[i]) == R(w[11 + i] * (w[0] + st.offsets[10 + st.c[i]]))
    {
      ZeroDifference(st.mm[i], w[11 + i] * (w[0] + st.offsets[10 + st.c[i]]));
    }
    LinearSplit(e, seq(53, i requires 0 <= i < 53 => R(st.mm[i]) == R(w[11 + i] * (w[0] + st.offsets[10 + st.c[i]]))));
  }

  lemma LinearSplit(e: seq<Fe>, b: seq<bool>)
    requires |e| == 68 && |b| == 53 && forall i :: 0 <= i < 53 ==> (R(e[2 + i]) == 0 <==> b[i])
    ensures (forall j :: 0 <= j < 55 ==> R(e[j]) == 0) <==> (R(e[0]) == 0 && R(e[1]) == 0 && forall i :: 0 <= i < 53 ==> b[i])
  {
    hide R;
    if R(e[0]) == 0 && R(e[1]) == 0 && forall i :: 0 <= i < 53 ==> b[i] {
      forall j | 0 <= j < 55 ensures R(e[j]) == 0 {
        if j >= 2 { assert b[j - 2] && R(e[2 + (j - 2)]) == 0; }
      }
    }
    if forall j :: 0 <= j < 55 ==> R(e[j]) == 0 {
      forall i | 0 <= i < 53 ensures b[i] { assert R(e[2 + i]) == 0; }
    }
  }

  lemma {:induction false} AllHold(st: Statement, w: seq<Fe>, n: nat)
    requires st.Valid() && |w| == VOLE_LEN && n <= CONSTRAINTS
    requires forall j :: 0 <= j < n ==> R(Residual(st, w, j)) == 0
    ensures R(FoldResiduals(st, w, n)) == 0
  {
    hide R, Residual;
    ZeroIsCanonical();
    if n > 0 {
      AllHold(st, w, n - 1);
      var k := if n == 1 then 1 else st.scalars[n - 2];
      Congruent(k, k, Residual(st, w, n - 1), 0);
      Congruent(FoldResiduals(st, w, n - 1), 0, k * Residual(st, w, n - 1), 0);
    }
  }

  lemma ZeroIsCanonical()
    ensures R(0) == 0
  {}
}
