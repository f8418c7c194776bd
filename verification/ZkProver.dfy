/**
 ZKP.h, PROPRF_ZKProver: the committed polynomials and the folded proof polynomial, by its value at
 every point and its leading coefficient.
 */
module ZkProver {
  import opened Numbers
  import opened Poly
  import opened Field
  import opened ZkPoly
  import opened ZkConstraints
  import V = VolePlus

  type Committed = s: seq<Polynomial> | |s| == VOLE_LEN && forall j :: 0 <= j < VOLE_LEN ==> |s[j]| == 2
    witness seq(VOLE_LEN, _ => [0, 0])

  /** The value of the limb written at bit i * bits: 2^(i * bits). */
  function Multiplier(i: nat, bits: nat): Fe
  {
    Pow(256, (i * bits) / 8) * Pow(2, (i * bits) % 8)
  }

  function Multipliers(k: nat, bits: nat): (m: seq<Fe>)
    ensures |m| == k && forall i :: 0 <= i < k ==> m[i] == Pow(2, i * bits)
  {
    MultipliersArePowers(k, bits);
    seq(k, i requires 0 <= i < k => Multiplier(i, bits))
  }

  lemma MultipliersArePowers(k: nat, bits: nat)
    ensures forall i :: 0 <= i < k ==> Multiplier(i, bits) == Pow(2, i * bits)
  {
    hide Multiplier, Pow;
    forall i | 0 <= i < k ensures Multiplier(i, bits) == Pow(2, i * bits) { MultiplierIsPower(i, bits); }
  }

  lemma MultiplierIsPower(i: nat, bits: nat)
    ensures Multiplier(i, bits) == Pow(2, i * bits)
  {
    MulNonNeg(i, bits);
    var n := i * bits;
    PowOfPow(2, 8, n / 8);
    assert Pow(2, 8) == 256;
    PowAdd(2, 8 * (n / 8), n % 8);
  }

  /** The keys that match the commitment at the point `x`. */
  function KeysAt(state: Committed, x: Fe): (s: seq<Fe>)
    ensures |s| == 85 && forall j :: 0 <= j < 85 ==> s[j] == state[j][0] + x * state[j][1]
  {
    seq(VOLE_LEN, j requires 0 <= j < VOLE_LEN => state[j][0] + x * state[j][1])
  }

  /** The committed values. */
  function Leads(state: Committed): (s: seq<Fe>)
    ensures |s| == 85 && forall j :: 0 <= j < 85 ==> s[j] == state[j][1]
  {
    seq(VOLE_LEN, j requires 0 <= j < VOLE_LEN => state[j][1])
  }

  lemma Linear(p: Polynomial, x: Fe)
    requires |p| == 2
    ensures Eval(p, x) == p[0] + x * p[1] && Lead(p) == p[1]
  {
    assert p[1..] == [p[1]];
    EvalSingle(p[1], x);
  }

  lemma PowersOfX(x: Fe)
    ensures Pow(x, 0) == 1 && Pow(x, 1) == x && Pow(x, 3) == X3(x) && Pow(x, 4) == X4(x) && Pow(x, 5) == X5(x)
    ensures X2(1) == X3(1) == X4(1) == X5(1) == 1
  {
    assert Pow(x, 1) == x;
    PowAdd(x, 1, 1);
    PowAdd(x, 1, 2);
    PowAdd(x, 2, 2);
    PowAdd(x, 2, 3);
  }

  lemma MulOne(a: Fe)
    ensures Mul(a, 1) == a
  {}

  /** What the prover leaves out of constraint j: the public constant, a multiple of x^5. */
  function Constant(st: Statement, j: nat): Fe
    requires st.Valid() && j < CONSTRAINTS
  {
    if j == 0 then st.cu
    else if j == 1 then st.scalars[0] * st.cv
    else if j < 55 then -(st.scalars[j - 1] * st.mm[j - 2])
    else if j == 67 then st.scalars[66]
    else 0
  }

  function Constants(st: Statement, n: nat): Fe
    requires st.Valid() && n <= CONSTRAINTS
  {
    if n == 0 then 0 else Constants(st, n - 1) + Constant(st, n - 1)
  }

  /** The polynomial the prover adds for constraint j. */
  ghost predicate IsTerm(st: Statement, state: Committed, x: Fe, j: nat, p: Polynomial)
    requires st.Valid() && j < CONSTRAINTS
  {
    && |p| == 6
    && Eval(p, x) == Term(st, KeysAt(state, x), x, j) + Constant(st, j) * X5(x)
    && Lead(p) == Term(st, Leads(state), 1, j) + Constant(st, j)
  }

  ghost predicate IsFold(st: Statement, state: Committed, x: Fe, n: nat, p: Polynomial)
    requires st.Valid() && n <= CONSTRAINTS
  {
    && |p| == 6
    && Eval(p, x) == FoldTerms(st, KeysAt(state, x), x, n) + Constants(st, n) * X5(x)
    && Lead(p) == FoldTerms(st, Leads(state), 1, n) + Constants(st, n)
  }

  /** The folded polynomial after `n` constraints, by its value at every point. */
  ghost predicate Folded(st: Statement, state: Committed, n: nat, p: Polynomial)
    requires st.Valid() && n <= CONSTRAINTS
  {
    |p| == 6 && forall x :: IsFold(st, state, x, n, p)
  }

  /** The polynomial of constraint j, by its value at every point. */
  ghost predicate Adds(st: Statement, state: Committed, j: nat, p: Polynomial)
    requires st.Valid() && j < CONSTRAINTS
  {
    |p| == 6 && forall x :: IsTerm(st, state, x, j, p)
  }

  lemma FoldStep(st: Statement, state: Committed, x: Fe, n: nat, check: Polynomial, p: Polynomial, out: Polynomial)
    requires st.Valid() && n < CONSTRAINTS && IsFold(st, state, x, n, check) && IsTerm(st, state, x, n, p)
    requires |out| == 6 && Eval(out, x) == Eval(check, x) + Eval(p, x) && Lead(out) == Lead(check) + Lead(p)
    ensures IsFold(st, state, x, n + 1, out)
  {
    hide Term, Constant, X5, Eval;
    DistributeRight(Constants(st, n), Constant(st, n), X5(x));
  }

  lemma DistributeRight(a: Fe, b: Fe, q: Fe)
    ensures (a + b) * q == a * q + b * q
  {}

  method Fold(check: Polynomial, p: Polynomial, ghost st: Statement, ghost state: Committed, ghost n: nat)
    returns (out: Polynomial)
    requires st.Valid() && n < CONSTRAINTS && Folded(st, state, n, check) && Adds(st, state, n, p)
    ensures Folded(st, state, n + 1, out)
  {
    hide IsFold, IsTerm;
    out := AddTo(check, p);
    ghost var m := n + 1;
    forall x ensures IsFold(st, state, x, m, out) {
      assert IsFold(st, state, x, n, check) && IsTerm(st, state, x, n, p);
      FoldStep(st, state, x, n, check, p, out);
    }
  }

  // ------------------------------------------------------ single constraints

  /** Block 1: the inner products of constraints 1 and 2. */
  method InnerProducts(st: Statement, state: Committed) returns (checkU: Polynomial, checkV: Polynomial)
    requires st.Valid()
    ensures |checkU| == 3 && |checkV| == 2
    ensures Lead(checkV) == SumV(st, Leads(state), LEVAL) && Lead(checkU) == SumU(st, Leads(state), 1, LEVAL)
    ensures forall x {:trigger Eval(checkV, x)} :: Eval(checkV, x) == SumV(st, KeysAt(state, x), LEVAL)
    ensures forall x {:trigger Eval(checkU, x)} :: Eval(checkU, x) == SumU(st, KeysAt(state, x), x, LEVAL)
  {
    hide Eval, Mul, KeysAt, Leads;
    checkV, checkU := [0, 0], [0, 0, 0];
    forall x ensures Eval(checkV, x) == Eval(checkU, x) == 0 {
      EvalZeros(checkV, x);
      EvalZeros(checkU, x);
    }
    var i := 0;
    while i < LEVAL
      invariant 0 <= i <= LEVAL && |checkU| == 3 && |checkV| == 2
      invariant Lead(checkV) == SumV(st, Leads(state), i) && Lead(checkU) == SumU(st, Leads(state), 1, i)
      invariant forall x {:trigger Eval(checkV, x)} :: Eval(checkV, x) == SumV(st, KeysAt(state, x), i)
      invariant forall x {:trigger Eval(checkU, x)} :: Eval(checkU, x) == SumU(st, KeysAt(state, x), x, i)
    {
      var kl := ShiftedKey(state, st.offsets[i]);
      var gammav := Scale(st.gamma[i], state[V_OFFSET + i]);
      forall x ensures Eval(gammav, x) == Mul(st.gamma[i], KeysAt(state, x)[V_OFFSET + i]) { KeyAt(state, V_OFFSET + i, x); }
      LeadAt(state, V_OFFSET + i);
      checkV := AddTo(checkV, gammav);
      var prod := Times(gammav, kl);
      checkU := AddTo(checkU, prod);
      i := i + 1;
    }
  }

  /** The committed key plus a public offset. */
  method ShiftedKey(state: Committed, offset: Fe) returns (kl: Polynomial)
    ensures |kl| == 2 && Lead(kl) == Shift(Leads(state), 1, offset)
    ensures forall x {:trigger Eval(kl, x)} :: Eval(kl, x) == Shift(KeysAt(state, x), x, offset)
  {
    hide Eval;
    kl := state[K_POS];
    kl := kl[1 := Add(kl[1], offset)];
    forall x ensures Eval(kl, x) == Shift(KeysAt(state, x), x, offset) {
      Linear(kl, x);
      assert x * (state[K_POS][1] + offset) == x * state[K_POS][1] + x * offset;
    }
  }

  lemma KeyAt(state: Committed, j: nat, x: Fe)
    requires j < VOLE_LEN
    ensures Eval(state[j], x) == KeysAt(state, x)[j]
  {
    Linear(state[j], x);
  }

  lemma LeadAt(state: Committed, j: nat)
    requires j < VOLE_LEN
    ensures Lead(state[j]) == Leads(state)[j]
  {}

  method TermsUV(st: Statement, state: Committed) returns (pu: Polynomial, pv: Polynomial)
    requires st.Valid()
    ensures Adds(st, state, 0, pu) && Adds(st, state, 1, pv)
  {
    hide Mul, Eval, X2, X3, X4, X5, Pow, SumU, SumV;
    var checkU, checkV := InnerProducts(st, state);
    var ru := ShiftUp(state[RU_POS], 1);
    checkU := AddTo(checkU, ru);
    checkV := AddTo(checkV, state[RV_POS]);
    pu := ShiftUp(checkU, 3);
    var sv := Scale(st.scalars[0], checkV);
    pv := ShiftUp(sv, 4);
    UAlgebra(SumU(st, Leads(state), 1, LEVAL), Leads(state)[RU_POS], st.cu, 1);
    VAlgebra(st.scalars[0], SumV(st, Leads(state), LEVAL), Leads(state)[RV_POS], st.cv, 1);
    PowersOfX(1);
    MulOne(state[RU_POS][1]);
    MulOne(Lead(checkU));
    MulOne(Lead(sv));
    forall x ensures IsTerm(st, state, x, 0, pu) && IsTerm(st, state, x, 1, pv) {
      KeyAt(state, RU_POS, x);
      KeyAt(state, RV_POS, x);
      PowersOfX(x);
      UAlgebra(SumU(st, KeysAt(state, x), x, LEVAL), KeysAt(state, x)[RU_POS], st.cu, x);
      VAlgebra(st.scalars[0], SumV(st, KeysAt(state, x), LEVAL), KeysAt(state, x)[RV_POS], st.cv, x);
    }
  }

  lemma UAlgebra(s: Fe, ru: Fe, cu: Fe, x: Fe)
    ensures Mul(s + Mul(ru, x), X3(x)) == Mul(Sub(Add(s, Mul(x, ru)), Mul(X2(x), cu)), X3(x)) + cu * X5(x)
  {}

  lemma VAlgebra(k: Fe, s: Fe, rv: Fe, cv: Fe, x: Fe)
    ensures Mul(Mul(k, s + rv), X4(x)) == Mul(k, Mul(Sub(Add(s, rv), Mul(x, cv)), X4(x))) + (k * cv) * X5(x)
  {}

  /** Block 2: the part of constraint 3 + i that the prover knows. */
  method TermOfB(st: Statement, state: Committed, i: nat) returns (p: Polynomial)
    requires st.Valid() && i < CHALLENGES
    ensures |p| == 6
    ensures forall x {:trigger Eval(p, x)} :: -Eval(p, x) == Term(st, KeysAt(state, x), x, i + 2) + Constant(st, i + 2) * X5(x)
    ensures -Lead(p) == Term(st, Leads(state), 1, i + 2) + Constant(st, i + 2)
  {
    hide Mul, Eval, X2, X3, X4, X5, Pow;
    PowersOfX(1);
    var kl := ShiftedKey(state, st.offsets[LEVAL + st.c[i]]);
    var bt := Times(state[B_OFFSET + i], kl);
    var sb := Scale(st.scalars[i + 1], bt);
    p := ShiftUp(sb, 3);
    BAlgebra(st.scalars[i + 1], st.mm[i], Leads(state)[B_OFFSET + i], Lead(kl), 1);
    MulOne(Lead(sb));
    forall x ensures -Eval(p, x) == Term(st, KeysAt(state, x), x, i + 2) + Constant(st, i + 2) * X5(x) {
      PowersOfX(x);
      KeyAt(state, B_OFFSET + i, x);
      BAlgebra(st.scalars[i + 1], st.mm[i], KeysAt(state, x)[B_OFFSET + i], Eval(kl, x), x);
    }
  }

  lemma BAlgebra(k: Fe, m: Fe, b: Fe, l: Fe, x: Fe)
    ensures -Mul(Mul(k, Mul(b, l)), X3(x)) == Mul(Mul(k, X3(x)), Sub(Mul(m, X2(x)), Mul(b, l))) + -(k * m) * X5(x)
  {
    var q := X3(x);
    assert X5(x) == X2(x) * q;
    assert (k * q) * (m * X2(x) - b * l) == (k * q) * (m * X2(x)) - (k * q) * (b * l);
    MulSwap(k, q, m, X2(x));
    MulSwap(k, q, b, l);
    assert q * (k * (b * l)) == (k * q) * (b * l) by { MulAssoc(q, k, b * l); }
    assert (k * m) * (q * X2(x)) == (k * m) * X5(x);
  }

  /** Block 3: a product of five committed values against a sixth. */
  method TermOfC(st: Statement, state: Committed, c: nat, v: nat, k: Fe) returns (p: Polynomial)
    requires c < VOLE_LEN && v + 4 < VOLE_LEN
    ensures |p| == 6
    ensures Lead(p) == Mul(k, TermC(Leads(state), 1, c, v))
    ensures forall x {:trigger Eval(p, x)} :: Eval(p, x) == Mul(k, TermC(KeysAt(state, x), x, c, v))
  {
    hide Mul, Eval, X4, Pow;
    PowersOfX(1);
    MulOne(state[c][1]);
    var v01 := Times(state[v], state[v + 1]);
    var v012 := Times(v01, state[v + 2]);
    var v0123 := Times(v012, state[v + 3]);
    var v01234 := Times(v0123, state[v + 4]);
    var check := ShiftUp(state[c], 4);
    check := SubFrom(check, v01234);
    p := Scale(k, check);
    forall x ensures Eval(p, x) == Mul(k, TermC(KeysAt(state, x), x, c, v)) {
      PowersOfX(x);
      KeyAt(state, v, x);
      KeyAt(state, v + 1, x);
      KeyAt(state, v + 2, x);
      KeyAt(state, v + 3, x);
      KeyAt(state, v + 4, x);
      KeyAt(state, c, x);
    }
  }

  /** Block 4: y_i against the fifth power of y_{i-1}. */
  method TermOfY(st: Statement, state: Committed, i: nat, k: Fe) returns (p: Polynomial)
    requires 1 <= i <= 8
    ensures |p| == 6
    ensures Lead(p) == Mul(k, TermY(Leads(state), 1, i))
    ensures forall x {:trigger Eval(p, x)} :: Eval(p, x) == Mul(k, TermY(KeysAt(state, x), x, i))
  {
    hide Mul, Eval, X4, Pow;
    PowersOfX(1);
    MulOne(state[Y_OFFSET + i][1]);
    var y := state[Y_OFFSET + i - 1];
    var y2 := Times(y, y);
    var y4 := Times(y2, y2);
    var y5 := Times(y4, y);
    var check := ShiftUp(state[Y_OFFSET + i], 4);
    check := SubFrom(check, y5);
    p := Scale(k, check);
    forall x ensures Eval(p, x) == Mul(k, TermY(KeysAt(state, x), x, i)) {
      PowersOfX(x);
      KeyAt(state, Y_OFFSET + i - 1, x);
      KeyAt(state, Y_OFFSET + i, x);
    }
  }

  /** Block 5: a0. */
  method TermOfA0(st: Statement, state: Committed, k: Fe) returns (p: Polynomial)
    ensures |p| == 6 && Lead(p) == Mul(k, TermA0(Leads(state), 1))
    ensures forall x {:trigger Eval(p, x)} :: Eval(p, x) == Mul(k, TermA0(KeysAt(state, x), x))
  {
    hide Mul, Eval, X4, Pow;
    PowersOfX(1);
    MulOne(state[A0_POS][1]);
    var sq := Times(state[Y_OFFSET + 8], state[Y_OFFSET + 8]);
    var y84 := Times(sq, state[Y_OFFSET + 4]);
    var y1 := Times(state[Y_OFFSET + 1], state[Y_OFFSET + 1]);
    var check := ShiftUp(state[A0_POS], 4);
    var prod := Times(y84, y1);
    check := SubFrom(check, prod);
    p := Scale(k, check);
    forall x ensures Eval(p, x) == Mul(k, TermA0(KeysAt(state, x), x)) {
      PowersOfX(x);
      KeyAt(state, Y_OFFSET + 8, x);
      KeyAt(state, Y_OFFSET + 4, x);
      KeyAt(state, Y_OFFSET + 1, x);
      KeyAt(state, A0_POS, x);
    }
  }

  /** Block 6: a1. */
  method TermOfA1(st: Statement, state: Committed, k: Fe) returns (p: Polynomial)
    ensures |p| == 6 && Lead(p) == Mul(k, TermA1(Leads(state), 1))
    ensures forall x {:trigger Eval(p, x)} :: Eval(p, x) == Mul(k, TermA1(KeysAt(state, x), x))
  {
    hide Mul, Eval, X3, Pow;
    var left := Times(state[Y_OFFSET + 1], state[A0_POS]);
    var y0 := Times(state[Y_OFFSET], state[Y_OFFSET]);
    var y03 := Times(y0, state[Y_OFFSET + 3]);
    var right := Times(y03, state[A1_POS]);
    var check := ShiftUp(left, 2);
    check := SubFrom(check, right);
    var sc := Scale(k, check);
    p := ShiftUp(sc, 1);
    A1Algebra(k, Lead(left), Lead(right), 1);
    MulOne(Lead(sc));
    PowersOfX(1);
    MulOne(Lead(left));
    MulOne(Lead(right));
    forall x ensures Eval(p, x) == Mul(k, TermA1(KeysAt(state, x), x)) {
      PowersOfX(x);
      KeyAt(state, Y_OFFSET, x);
      KeyAt(state, Y_OFFSET + 1, x);
      KeyAt(state, Y_OFFSET + 3, x);
      KeyAt(state, A0_POS, x);
      KeyAt(state, A1_POS, x);
      A1Algebra(k, Eval(left, x), Eval(right, x), x);
    }
  }

  lemma A1Algebra(k: Fe, l: Fe, r: Fe, x: Fe)
    ensures Mul(Mul(k, Sub(Mul(l, Pow(x, 2)), r)), x) == Mul(k, Sub(Mul(l, X3(x)), Mul(r, x)))
  {
    assert Pow(x, 1) == x;
    PowAdd(x, 1, 1);
    var q := x * x;
    assert (k * (l * q - r)) * x == k * ((l * q - r) * x) by { MulAssoc(k, l * q - r, x); }
    assert (l * q - r) * x == (l * q) * x - r * x;
    MulAssoc(l, q, x);
  }

  /** Block 7: the product of everything, without the public one. */
  method TermOfInv(st: Statement, state: Committed) returns (p: Polynomial)
    requires st.Valid()
    ensures Adds(st, state, 67, p)
  {
    hide Mul, Eval, X4, X5, Pow;
    PowersOfX(1);
    var cc := Times(state[C0_POS], state[C1_POS]);
    var ya := Times(state[Y_OFFSET], state[A1_POS]);
    var check := Times(cc, ya);
    var sc := Scale(st.scalars[66], check);
    p := ShiftUp(sc, 1);
    InvAlgebra(st.scalars[66], Lead(cc), Leads(state)[Y_OFFSET], Leads(state)[A1_POS], 1);
    MulOne(Lead(sc));
    forall x ensures IsTerm(st, state, x, 67, p) {
      PowersOfX(x);
      KeyAt(state, C0_POS, x);
      KeyAt(state, C1_POS, x);
      KeyAt(state, Y_OFFSET, x);
      KeyAt(state, A1_POS, x);
      InvAlgebra(st.scalars[66], Eval(cc, x), KeysAt(state, x)[Y_OFFSET], KeysAt(state, x)[A1_POS], x);
    }
  }

  lemma InvAlgebra(k: Fe, cc: Fe, y: Fe, a: Fe, x: Fe)
    ensures Mul(Mul(k, Mul(cc, Mul(y, a))), x) == Mul(Mul(k, Sub(Mul(Mul(cc, y), a), X4(x))), x) + k * X5(x)
  {
    MulAssoc(cc, y, a);
    var m, q := cc * (y * a), X4(x);
    assert k * (m - q) == k * m - k * q;
    assert (k * m - k * q) * x == (k * m) * x - (k * q) * x;
    MulAssoc(k, q, x);
    assert X5(x) == q * x by { MulAssoc(x * x, x, x * x); MulAssoc(x * x, x * x, x); }
  }
}
