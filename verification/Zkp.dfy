/**
 ZKP.h: the two parties of the proof as objects, and what the verifier's answer means.
 */
module Zkp {
  import opened Numbers
  import opened Poly
  import opened Field
  import opened ZkPoly
  import opened ZkConstraints
  import opened ZkProver
  import V = VolePlus

  function MaskSum(s: seq<Fe>, x: Fe): Fe
    requires |s| == VOLE_LEN
  {
    Add(Add(Add(s[MASK_POS], Mul(x, s[MASK_POS + 1])), Mul(X2(x), s[MASK_POS + 2])), Mul(X3(x), s[MASK_POS + 3]))
  }

  /** The masked proof polynomial. */
  ghost predicate IsProof(st: Statement, state: Committed, x: Fe, p: Polynomial)
    requires st.Valid()
  {
    && |p| == 6
    && Eval(p, x) == FoldTerms(st, KeysAt(state, x), x, CONSTRAINTS) + Constants(st, CONSTRAINTS) * X5(x)
                     + MaskSum(KeysAt(state, x), x)
    && Lead(p) == FoldTerms(st, Leads(state), 1, CONSTRAINTS) + Constants(st, CONSTRAINTS)
  }

  /** The five coefficients that are sent of the masked proof polynomial, which has its value at every point. */
  ghost predicate IsSent(st: Statement, state: Committed, full: Polynomial, msg: seq<Fe>)
    requires st.Valid()
  {
    |full| == 6 && msg == Canonical(full[..5]) && forall x :: IsProof(st, state, x, full)
  }

  class Prover {
    const kVole: nat
    const bits: nat
    var state: Committed

    constructor (kVole: nat, bits: nat)
      ensures this.kVole == kVole && this.bits == bits
    {
      this.kVole := kVole;
      this.bits := bits;
      this.state := seq(VOLE_LEN, _ => [0, 0]);
    }

    /** Steps 1 to 4 of commit_to_witness: fill the state, send the shifts w_j - v_{i,j}. */
    method Commit(w: seq<Fe>, masks: seq<Fe>, ui: seq<V.Vec>, vi: seq<V.Vec>) returns (msg: seq<V.Vec>)
      requires |w| == WITNESS_LEN && |masks| == 5
      requires V.Shape(ui, kVole, VOLE_LEN) && V.Shape(vi, kVole, VOLE_LEN)
      modifies this
      ensures forall j :: 0 <= j < WITNESS_LEN ==> state[j][1] == w[j]
      ensures forall j :: 0 <= j < 5 ==> state[MASK_POS + j][1] == masks[j]
      ensures state[CHECK_POS][1] == old(state[CHECK_POS][1])
      ensures forall j :: 0 <= j < VOLE_LEN ==> state[j][0] == V.Column(Multipliers(kVole, bits), ui, j, kVole)
      ensures V.Shape(msg, kVole, VOLE_LEN)
      ensures forall i, j :: 0 <= i < kVole && 0 <= j < VOLE_LEN ==> msg[i][j] == R(state[j][1] - vi[i][j])
    {
      hide R, V.Column, Multipliers;
      var j := 0;
      while j < VOLE_LEN
        invariant 0 <= j <= VOLE_LEN
        invariant forall c :: 0 <= c < j ==> state[c][0] == 0
        invariant forall c :: 0 <= c < j && c != CHECK_POS ==>
          state[c][1] == if c < WITNESS_LEN then w[c] else masks[c - MASK_POS]
        invariant state[CHECK_POS][1] == old(state[CHECK_POS][1])
      {
        var lead := if j < WITNESS_LEN then w[j] else if j < CHECK_POS then masks[j - MASK_POS] else state[j][1];
        state := state[j := [0, lead]];
        j := j + 1;
      }
      ghost var leads := Leads(state);
      EmptyColumns(ui);
      msg := [];
      var i := 0;
      while i < kVole
        invariant 0 <= i <= kVole && V.Shape(msg, i, VOLE_LEN)
        invariant forall c :: 0 <= c < VOLE_LEN ==>
          state[c][1] == leads[c] && state[c][0] == V.Column(Multipliers(kVole, bits), ui, c, i)
        invariant forall r, c :: 0 <= r < i && 0 <= c < VOLE_LEN ==> msg[r][c] == R(leads[c] - vi[r][c])
      {
        var row := CommitRow(i, ui, vi, leads);
        msg := msg + [row];
        i := i + 1;
      }
    }

    /** One pass of the shift loop over all positions. */
    method CommitRow(i: nat, ui: seq<V.Vec>, vi: seq<V.Vec>, ghost leads: seq<Fe>) returns (row: V.Vec)
      requires i < kVole && V.Shape(ui, kVole, VOLE_LEN) && V.Shape(vi, kVole, VOLE_LEN) && |leads| == VOLE_LEN
      requires forall c :: 0 <= c < VOLE_LEN ==>
        state[c][1] == leads[c] && state[c][0] == V.Column(Multipliers(kVole, bits), ui, c, i)
      modifies this
      ensures forall c :: 0 <= c < VOLE_LEN ==>
        state[c][1] == leads[c] && state[c][0] == V.Column(Multipliers(kVole, bits), ui, c, i + 1)
      ensures |row| == VOLE_LEN && forall c :: 0 <= c < VOLE_LEN ==> row[c] == R(leads[c] - vi[i][c])
    {
      var multiplier := Multiplier(i, bits);
      row := [];
      var j := 0;
      while j < VOLE_LEN
        invariant 0 <= j <= VOLE_LEN == |leads| && |row| == j
        invariant forall c :: 0 <= c < VOLE_LEN ==> state[c][1] == leads[c]
        invariant forall c :: 0 <= c < j ==> state[c][0] == V.Column(Multipliers(kVole, bits), ui, c, i + 1)
        invariant forall c :: j <= c < VOLE_LEN ==> state[c][0] == V.Column(Multipliers(kVole, bits), ui, c, i)
        invariant forall c :: 0 <= c < j ==> row[c] == R(leads[c] - vi[i][c])
      {
        row := row + [R(Sub(state[j][1], vi[i][j]))];
        state := state[j := [Add(state[j][0], Mul(multiplier, ui[i][j])), state[j][1]]];
        j := j + 1;
      }
    }

    /** The folded values of the consistency check. */
    method CommitCheck(checkGamma: seq<Fe>, ui: seq<V.Vec>) returns (cv: Fe, cus: seq<Fe>)
      requires |checkGamma| == VOLE_LEN - 1 && V.Shape(ui, kVole, VOLE_LEN)
      ensures cv == R(state[CHECK_POS][1] + Dot(Leads(state), checkGamma))
      ensures |cus| == kVole && forall i :: 0 <= i < kVole ==> cus[i] == R(ui[i][CHECK_POS] + Dot(ui[i], checkGamma))
    {
      var leads := Leads(state);
      var d := DotProduct(leads, checkGamma);
      cv := R(Add(state[CHECK_POS][1], d));
      cus := [];
      var i := 0;
      while i < kVole
        invariant 0 <= i <= kVole && |cus| == i
        invariant forall k :: 0 <= k < i ==> cus[k] == R(ui[k][CHECK_POS] + Dot(ui[k], checkGamma))
      {
        d := DotProduct(ui[i], checkGamma);
        cus := cus + [R(Add(ui[i][CHECK_POS], d))];
        i := i + 1;
      }
    }

    /** prove: the five low coefficients of the folded, masked polynomial. */
    method Prove(st: Statement) returns (msg: seq<Fe>)
      requires st.Valid()
      ensures |msg| == 5 && exists full: Polynomial :: IsSent(st, state, full, msg)
    {
      hide Eval, Term, Constant, FoldTerms, Constants, Mul, R;
      var check := FoldAll(st, state);
      var m0, m1, m2, m3 := state[MASK_POS], state[MASK_POS + 1], state[MASK_POS + 2], state[MASK_POS + 3];
      ghost var folded := check;
      var s1 := ShiftUp(m1, 1);
      var s2 := ShiftUp(m2, 2);
      var s3 := ShiftUp(m3, 3);
      check := AddTo(check, m0);
      check := AddTo(check, s1);
      check := AddTo(check, s2);
      check := AddTo(check, s3);
      forall x ensures IsProof(st, state, x, check) {
        assert IsFold(st, state, x, CONSTRAINTS, folded);
        MaskValue(state, x);
      }
      msg := seq(5, i requires 0 <= i < 5 => R(check[i]));
      assert msg == Canonical(check[..5]);
      assert IsSent(st, state, check, msg);
    }
  }

  lemma EmptyColumns(ui: seq<V.Vec>)
    ensures forall lambda, c: nat {:trigger V.Column(lambda, ui, c, 0)} :: V.Column(lambda, ui, c, 0) == 0
  {}

  lemma MaskValue(state: Committed, x: Fe)
    ensures MaskSum(KeysAt(state, x), x) ==
      Eval(state[MASK_POS], x) + Mul(Eval(state[MASK_POS + 1], x), Pow(x, 1))
      + Mul(Eval(state[MASK_POS + 2], x), Pow(x, 2)) + Mul(Eval(state[MASK_POS + 3], x), Pow(x, 3))
  {
    Linear(state[MASK_POS], x);
    Linear(state[MASK_POS + 1], x);
    Linear(state[MASK_POS + 2], x);
    Linear(state[MASK_POS + 3], x);
    PowersOfX(x);
    PowAdd(x, 1, 1);
  }

  /** Blocks 1 to 7 of prove. */
  method FoldAll(st: Statement, state: Committed) returns (check: Polynomial)
    requires st.Valid()
    ensures Folded(st, state, CONSTRAINTS, check)
  {
    hide Folded, Adds, Term, Constant, Eval, Mul, TermC, TermY, TermA0, TermA1, KeysAt, Leads;
    check := [0, 0, 0, 0, 0, 0];
    NoTerms(st, state, check);
    var pu, pv := TermsUV(st, state);
    check := Fold(check, pu, st, state, 0);
    check := Fold(check, pv, st, state, 1);
    var i := 0;
    while i < CHALLENGES
      invariant 0 <= i <= CHALLENGES && Folded(st, state, i + 2, check)
    {
      var p := TermOfB(st, state, i);
      FoldedSize(st, state, i + 2, check);
      var next := SubFrom(check, p);
      FoldNegated(st, state, i + 2, check, p, next);
      check := next;
      i := i + 1;
    }
    check := FoldProducts(st, state, check);
    i := 1;
    while i <= 8
      invariant 1 <= i <= 9 && Folded(st, state, 56 + i, check)
    {
      var q := TermOfY(st, state, i, st.scalars[55 + i]);
      PublicFree(st, state, 56 + i, q);
      check := Fold(check, q, st, state, 56 + i);
      i := i + 1;
    }
    check := FoldTail(st, state, check);
  }

  /** Block 3. */
  method FoldProducts(st: Statement, state: Committed, acc: Polynomial) returns (check: Polynomial)
    requires st.Valid() && Folded(st, state, 55, acc)
    ensures Folded(st, state, 57, check)
  {
    hide Folded, Adds, Term, Constant, Eval, Mul, TermC, TermY, TermA0, TermA1, KeysAt, Leads;
    var q := TermOfC(st, state, C0_POS, V_OFFSET, st.scalars[54]);
    PublicFree(st, state, 55, q);
    check := Fold(acc, q, st, state, 55);
    q := TermOfC(st, state, C1_POS, V_OFFSET + 5, st.scalars[55]);
    PublicFree(st, state, 56, q);
    check := Fold(check, q, st, state, 56);
  }

  /** Blocks 5 to 7. */
  method FoldTail(st: Statement, state: Committed, acc: Polynomial) returns (check: Polynomial)
    requires st.Valid() && Folded(st, state, 65, acc)
    ensures Folded(st, state, CONSTRAINTS, check)
  {
    hide Folded, Adds, Term, Constant, Eval, Mul, TermC, TermY, TermA0, TermA1, KeysAt, Leads;
    var q := TermOfA0(st, state, st.scalars[64]);
    PublicFree(st, state, 65, q);
    check := Fold(acc, q, st, state, 65);
    q := TermOfA1(st, state, st.scalars[65]);
    PublicFree(st, state, 66, q);
    check := Fold(check, q, st, state, 66);
    q := TermOfInv(st, state);
    check := Fold(check, q, st, state, 67);
  }

  lemma FoldedSize(st: Statement, state: Committed, n: nat, p: Polynomial)
    requires st.Valid() && n <= CONSTRAINTS && Folded(st, state, n, p)
    ensures |p| == 6
  {}

  lemma NoTerms(st: Statement, state: Committed, check: Polynomial)
    requires st.Valid() && check == [0, 0, 0, 0, 0, 0]
    ensures Folded(st, state, 0, check)
  {
    hide Eval;
    forall x ensures IsFold(st, state, x, 0, check) { EvalZeros(check, x); }
  }

  /** What the product, power and quotient constraints add up to, before the scalar. */
  function Product(s: seq<Fe>, x: Fe, j: nat): Fe
    requires |s| == VOLE_LEN && 55 <= j < 67
  {
    if j == 55 then TermC(s, x, C0_POS, V_OFFSET)
    else if j == 56 then TermC(s, x, C1_POS, V_OFFSET + 5)
    else if j < 65 then TermY(s, x, j - 56)
    else if j == 65 then TermA0(s, x)
    else TermA1(s, x)
  }

  /** Constraints 56 to 67 have no public part. */
  lemma PublicFree(st: Statement, state: Committed, j: nat, p: Polynomial)
    requires st.Valid() && 55 <= j < 67 && |p| == 6 && Lead(p) == Mul(st.scalars[j - 1], Product(Leads(state), 1, j))
    requires forall x {:trigger Eval(p, x)} :: Eval(p, x) == Mul(st.scalars[j - 1], Product(KeysAt(state, x), x, j))
    ensures Adds(st, state, j, p)
  {
    hide Eval, Mul, TermC, TermY, TermA0, TermA1, KeysAt, Leads;
    ProductTerm(st, Leads(state), 1, j);
    forall x ensures IsTerm(st, state, x, j, p) {
      assert Eval(p, x) == Mul(st.scalars[j - 1], Product(KeysAt(state, x), x, j));
      ProductTerm(st, KeysAt(state, x), x, j);
    }
  }

  lemma ProductTerm(st: Statement, s: seq<Fe>, x: Fe, j: nat)
    requires st.Valid() && |s| == VOLE_LEN && 55 <= j < 67
    ensures Term(st, s, x, j) == Mul(st.scalars[j - 1], Product(s, x, j)) && Constant(st, j) * X5(x) == 0 == Constant(st, j)
  {
    hide Mul;
  }

  lemma FoldNegated(st: Statement, state: Committed, n: nat, check: Polynomial, p: Polynomial, out: Polynomial)
    requires st.Valid() && n < CONSTRAINTS && Folded(st, state, n, check) && |p| == |out| == 6
    requires forall x {:trigger Eval(p, x)} :: -Eval(p, x) == Term(st, KeysAt(state, x), x, n) + Constant(st, n) * X5(x)
    requires -Lead(p) == Term(st, Leads(state), 1, n) + Constant(st, n) && Lead(out) == Lead(check) - Lead(p)
    requires forall x {:trigger Eval(out, x)} :: Eval(out, x) == Eval(check, x) - Eval(p, x)
    ensures Folded(st, state, n + 1, out)
  {
    hide Term, Constant, X5, Eval, KeysAt, Leads;
    var m := n + 1;
    forall x ensures IsFold(st, state, x, m, out) {
      assert IsFold(st, state, x, n, check) && Eval(out, x) == Eval(check, x) - Eval(p, x);
      DistributeRight(Constants(st, n), Constant(st, n), X5(x));
    }
  }

  class Verifier {
    const kVole: nat
    const bits: nat
    var state: seq<Fe>
    var delta: Fe

    constructor (kVole: nat, bits: nat)
      ensures this.kVole == kVole && this.bits == bits
    {
      this.kVole := kVole;
      this.bits := bits;
      this.state := [];
      this.delta := 0;
    }

    /** Steps 1 and 2 of commit_to_witness: derandomize, then combine into one correlation. */
    method Receive(oi: seq<V.Vec>, hi: seq<Fe>, msg: seq<V.Vec>) returns (o: seq<V.Vec>)
      requires V.Shape(oi, kVole, VOLE_LEN) && |hi| == kVole && V.Shape(msg, kVole, VOLE_LEN)
      modifies this
      ensures V.Shape(o, kVole, VOLE_LEN)
      ensures forall i, j :: 0 <= i < kVole && 0 <= j < VOLE_LEN ==> o[i][j] == oi[i][j] + hi[i] * msg[i][j]
      ensures delta == Dot(Multipliers(kVole, bits), hi)
      ensures |state| == VOLE_LEN
      ensures forall j :: 0 <= j < VOLE_LEN ==> state[j] == V.Column(Multipliers(kVole, bits), o, j, kVole)
    {
      hide Mul, V.Column, Dot, Multiplier;
      o := Derandomize(oi, hi, msg);
      Combine(o, hi);
    }

    method Derandomize(oi: seq<V.Vec>, hi: seq<Fe>, msg: seq<V.Vec>) returns (o: seq<V.Vec>)
      requires V.Shape(oi, kVole, VOLE_LEN) && |hi| == kVole && V.Shape(msg, kVole, VOLE_LEN)
      ensures V.Shape(o, kVole, VOLE_LEN)
      ensures forall i, j :: 0 <= i < kVole && 0 <= j < VOLE_LEN ==> o[i][j] == oi[i][j] + hi[i] * msg[i][j]
    {
      o := oi;
      var i := 0;
      while i < kVole
        invariant 0 <= i <= kVole && V.Shape(o, kVole, VOLE_LEN)
        invariant forall r, c :: 0 <= r < i && 0 <= c < VOLE_LEN ==> o[r][c] == oi[r][c] + hi[r] * msg[r][c]
        invariant forall r :: i <= r < kVole ==> o[r] == oi[r]
      {
        o := o[i := seq(VOLE_LEN, j requires 0 <= j < VOLE_LEN => Add(o[i][j], Mul(hi[i], msg[i][j])))];
        i := i + 1;
      }
    }

    method Combine(o: seq<V.Vec>, hi: seq<Fe>)
      requires V.Shape(o, kVole, VOLE_LEN) && |hi| == kVole
      modifies this
      ensures delta == Dot(Multipliers(kVole, bits), hi)
      ensures |state| == VOLE_LEN
      ensures forall j :: 0 <= j < VOLE_LEN ==> state[j] == V.Column(Multipliers(kVole, bits), o, j, kVole)
    {
      state := seq(VOLE_LEN, _ => 0);
      delta := 0;
      var i := 0;
      assert hi[..0] == [];
      while i < kVole
        invariant 0 <= i <= kVole && |state| == VOLE_LEN
        invariant delta == Dot(Multipliers(kVole, bits), hi[..i])
        invariant forall c :: 0 <= c < VOLE_LEN ==> state[c] == V.Column(Multipliers(kVole, bits), o, c, i)
      {
        var multiplier := Multiplier(i, bits);
        delta := Add(delta, Mul(multiplier, hi[i]));
        assert hi[..i + 1][..i] == hi[..i];
        var j := 0;
        while j < VOLE_LEN
          invariant 0 <= j <= VOLE_LEN == |state|
          invariant forall c :: 0 <= c < VOLE_LEN ==>
            state[c] == V.Column(Multipliers(kVole, bits), o, c, if c < j then i + 1 else i)
          invariant delta == Dot(Multipliers(kVole, bits), hi[..i + 1])
        {
          state := state[j := Add(state[j], Mul(multiplier, o[i][j]))];
          j := j + 1;
        }
        i := i + 1;
      }
      assert hi[..kVole] == hi;
    }

    /** Step 3: good exactly when every folded difference is zero modulo p. */
    method Check(o: seq<V.Vec>, hi: seq<Fe>, checkGamma: seq<Fe>, cv: Fe, cus: seq<Fe>) returns (good: bool)
      requires V.Shape(o, kVole, VOLE_LEN) && |hi| == |cus| == kVole && |checkGamma| == VOLE_LEN - 1
      ensures good <==> forall i :: 0 <= i < kVole ==>
        R(-(cus[i] + hi[i] * cv) + (o[i][CHECK_POS] + Dot(o[i], checkGamma))) == 0
    {
      var i := 0;
      while i < kVole
        invariant 0 <= i <= kVole
        invariant forall k :: 0 <= k < i ==>
          R(-(cus[k] + hi[k] * cv) + (o[k][CHECK_POS] + Dot(o[k], checkGamma))) == 0
      {
        var check := Add(cus[i], Mul(hi[i], cv));
        check := Sub(0, check);
        var d := DotProduct(o[i], checkGamma);
        check := Add(check, Add(o[i][CHECK_POS], d));
        if R(check) != 0 { return false; }
        i := i + 1;
      }
      good := true;
    }

    /** verify: fold every constraint at the key, add the masks, compare with the received polynomial. */
    method Verify(st: Statement, msg: seq<Fe>) returns (valid: bool)
      requires st.Valid() && |state| == VOLE_LEN && |msg| == 5
      ensures valid <==>
        R(Eval(msg, delta) - (FoldTerms(st, state, delta, CONSTRAINTS) + MaskSum(state, delta))) == 0
    {
      hide R, Eval, Mul;
      var check := FoldKeys(st);
      var two := Mul(delta, delta);
      var three := Mul(delta, two);
      check := Add(check, state[MASK_POS]);
      check := Add(check, Mul(delta, state[MASK_POS + 1]));
      check := Add(check, Mul(two, state[MASK_POS + 2]));
      check := Add(check, Mul(three, state[MASK_POS + 3]));

      var eval := Horner(msg);
      eval := Sub(eval, check);
      valid := R(eval) == 0;
    }

    /** The received polynomial at the key. */
    method Horner(msg: seq<Fe>) returns (eval: Fe)
      requires |msg| == 5
      ensures eval == Eval(msg, delta)
    {
      hide Mul;
      eval := msg[4];
      var i := 3;
      HornerStart(msg, delta);
      while i >= 0
        invariant -1 <= i <= 3 && eval == EvalFrom(msg, i + 1, delta)
      {
        eval := Add(Mul(delta, eval), msg[i]);
        i := i - 1;
      }
      EvalFromStart(msg, 0, delta);
      assert msg[0..] == msg;
    }

    /** Blocks 1 to 7 of verify. */
    method FoldKeys(st: Statement) returns (check: Fe)
      requires st.Valid() && |state| == VOLE_LEN
      ensures check == FoldTerms(st, state, delta, CONSTRAINTS)
    {
      hide Mul;
      var two := Mul(delta, delta);
      var three := Mul(delta, two);
      var four := Mul(two, two);
      var vCheck, uCheck := 0, 0;
      var i := 0;
      while i < LEVAL
        invariant 0 <= i <= LEVAL && vCheck == SumV(st, state, i) && uCheck == SumU(st, state, delta, i)
      {
        var kPlusOffset := Add(state[K_POS], Mul(delta, st.offsets[i]));
        var gammav := Mul(st.gamma[i], state[V_OFFSET + i]);
        vCheck := Add(vCheck, gammav);
        uCheck := Add(uCheck, Mul(gammav, kPlusOffset));
        i := i + 1;
      }
      uCheck := Add(uCheck, Mul(delta, state[RU_POS]));
      uCheck := Sub(uCheck, Mul(two, st.cu));
      uCheck := Mul(uCheck, three);
      vCheck := Add(vCheck, state[RV_POS]);
      vCheck := Sub(vCheck, Mul(delta, st.cv));
      vCheck := Mul(vCheck, four);
      check := uCheck;
      check := Add(check, Mul(st.scalars[0], vCheck));
      assert check == FoldTerms(st, state, delta, 2) by { assert FoldTerms(st, state, delta, 1) == uCheck; }

      i := 0;
      while i < CHALLENGES
        invariant 0 <= i <= CHALLENGES && check == FoldTerms(st, state, delta, i + 2)
      {
        var klci := Add(state[K_POS], Mul(delta, st.offsets[LEVAL + st.c[i]]));
        var checkBi := Sub(Mul(st.mm[i], two), Mul(state[B_OFFSET + i], klci));
        check := Add(check, Mul(Mul(st.scalars[i + 1], three), checkBi));
        i := i + 1;
      }
      check := FoldProducts(st, check, four);
      i := 1;
      while i <= 8
        invariant 1 <= i <= 9 && check == FoldTerms(st, state, delta, 56 + i)
      {
        var yPrev := state[Y_OFFSET + i - 1];
        var yPrev2 := Mul(yPrev, yPrev);
        var yPrev4 := Mul(yPrev2, yPrev2);
        var yPrev5 := Mul(yPrev4, yPrev);
        var checkY := Mul(state[Y_OFFSET + i], four);
        checkY := Sub(checkY, yPrev5);
        check := Add(check, Mul(st.scalars[55 + i], checkY));
        i := i + 1;
      }
      check := FoldTail(st, check, three, four);
    }

    method FoldProducts(st: Statement, acc: Fe, four: Fe) returns (check: Fe)
      requires st.Valid() && |state| == VOLE_LEN && acc == FoldTerms(st, state, delta, 55) && four == X4(delta)
      ensures check == FoldTerms(st, state, delta, 57)
    {
      hide Mul, X4;
      var v01 := Mul(state[V_OFFSET], state[V_OFFSET + 1]);
      var v012 := Mul(v01, state[V_OFFSET + 2]);
      var v0123 := Mul(v012, state[V_OFFSET + 3]);
      var v01234 := Mul(v0123, state[V_OFFSET + 4]);
      var checkC0 := Sub(Mul(state[C0_POS], four), v01234);
      check := Add(acc, Mul(st.scalars[54], checkC0));
      var v56 := Mul(state[V_OFFSET + 5], state[V_OFFSET + 6]);
      var v567 := Mul(v56, state[V_OFFSET + 7]);
      var v5678 := Mul(v567, state[V_OFFSET + 8]);
      var v56789 := Mul(v5678, state[V_OFFSET + 9]);
      var checkC1 := Sub(Mul(state[C1_POS], four), v56789);
      check := Add(check, Mul(st.scalars[55], checkC1));
      assert check == FoldTerms(st, state, delta, 57) by {
        assert FoldTerms(st, state, delta, 56) == Add(acc, Term(st, state, delta, 55));
      }
    }

    method FoldTail(st: Statement, acc: Fe, three: Fe, four: Fe) returns (check: Fe)
      requires st.Valid() && |state| == VOLE_LEN && acc == FoldTerms(st, state, delta, 65)
      requires three == X3(delta) && four == X4(delta)
      ensures check == FoldTerms(st, state, delta, CONSTRAINTS)
    {
      hide Mul, X3, X4;
      var y8sq := Mul(state[Y_OFFSET + 8], state[Y_OFFSET + 8]);
      var y8sqY4 := Mul(y8sq, state[Y_OFFSET + 4]);
      var y1sq := Mul(state[Y_OFFSET + 1], state[Y_OFFSET + 1]);
      var checkA0 := Mul(state[A0_POS], four);
      checkA0 := Sub(checkA0, Mul(y8sqY4, y1sq));
      check := Add(acc, Mul(st.scalars[64], checkA0));
      var left := Mul(Mul(state[Y_OFFSET + 1], state[A0_POS]), three);
      var right := Mul(Mul(Mul(Mul(state[Y_OFFSET], state[Y_OFFSET]), state[Y_OFFSET + 3]), state[A1_POS]), delta);
      var checkA1 := Sub(left, right);
      check := Add(check, Mul(st.scalars[65], checkA1));
      var checkInv := Mul(Mul(Mul(state[C0_POS], state[C1_POS]), state[Y_OFFSET]), state[A1_POS]);
      checkInv := Sub(checkInv, four);
      check := Add(check, Mul(Mul(st.scalars[66], checkInv), delta));
      assert check == FoldTerms(st, state, delta, 68) by {
        assert FoldTerms(st, state, delta, 66) == Add(acc, Term(st, state, delta, 65));
        assert FoldTerms(st, state, delta, 67) == Add(FoldTerms(st, state, delta, 66), Term(st, state, delta, 66));
      }
    }
  }

  /** The value of the coefficients from `i` on. */
  function EvalFrom(s: seq<Fe>, i: nat, x: Fe): Fe
    requires i <= |s|
    decreases |s| - i
  {
    if i == |s| then 0 else Add(Mul(x, EvalFrom(s, i + 1, x)), s[i])
  }

  lemma HornerStart(s: seq<Fe>, x: Fe)
    requires |s| == 5
    ensures EvalFrom(s, 4, x) == s[4]
  {
    assert EvalFrom(s, 5, x) == 0;
  }

  lemma {:induction false} EvalFromStart(s: seq<Fe>, i: nat, x: Fe)
    requires i <= |s|
    ensures EvalFrom(s, i, x) == Eval(s[i..], x)
    decreases |s| - i
  {
    if i < |s| {
      EvalFromStart(s, i + 1, x);
      assert s[i..][1..] == s[i + 1..];
    }
  }

  // ------------------------------------------------------- what the answer means

  /** The residues as they are sent. */
  function Canonical(b: seq<Fe>): (a: seq<Fe>)
    ensures |a| == |b|
  {
    seq(|b|, i requires 0 <= i < |b| => R(b[i]))
  }

  /** Sending residues instead of the coefficients keeps the value. */
  lemma {:induction false} EvalCongruent(b: seq<Fe>, x: Fe)
    ensures R(Eval(Canonical(b), x)) == R(Eval(b, x))
  {
    hide R;
    if b != [] {
      EvalCongruent(b[1..], x);
      assert Canonical(b)[1..] == Canonical(b[1..]);
      CanonicalTwice(b[0]);
      Congruent(x, x, Eval(Canonical(b[1..]), x), Eval(b[1..], x));
      Congruent(R(b[0]), b[0], x * Eval(Canonical(b[1..]), x), x * Eval(b[1..], x));
    }
  }

  lemma MaskCongruent(s: seq<Fe>, s': seq<Fe>, x: Fe)
    requires SameResidues(s, s')
    ensures R(MaskSum(s, x)) == R(MaskSum(s', x))
  {
    hide R, Add, Sub, Mul, AddR, SubR, MulR;
    Residues();
  }

  /**
   Exact acceptance. For any committed values, valid or not, any scalars and any key: with keys that
   match the commitment, and whatever values cu, cv and openings the verifier holds, its answer to the proof of `st`
   is true if and only if the folded sum of the residuals of its own statement times delta^5 is zero modulo p.
   */
  lemma AcceptsExactly(st: Statement, st': Statement, state: Committed, keys: seq<Fe>, delta: Fe, full: Polynomial, msg: seq<Fe>)
    requires SameChallenge(st, st') && |keys| == VOLE_LEN
    requires SameResidues(keys, KeysAt(state, delta)) && IsSent(st, state, full, msg)
    ensures R(Eval(msg, delta) - (FoldTerms(st', keys, delta, CONSTRAINTS) + MaskSum(keys, delta))) == 0
       <==> R(FoldResiduals(st', Leads(state), CONSTRAINTS) * X5(delta)) == 0
  {
    hide R, Eval, FoldTerms, FoldResiduals, Constants, MaskSum, KeysAt, X5, SameResidues, Pow;
    assert IsProof(st, state, delta, full);
    FoldCongruent(st', keys, KeysAt(state, delta), delta, CONSTRAINTS);
    FoldShift(st, st', KeysAt(state, delta), Leads(state), delta, CONSTRAINTS);
    MaskCongruent(keys, KeysAt(state, delta), delta);
    FoldAtOne(st, Leads(state), CONSTRAINTS);
    EvalCongruent(full[..5], delta);
    assert full[..6] == full;
    EvalPrefix(full, 5, delta);
    PowersOfX(delta);
    AcceptAlgebra(Eval(msg, delta), Eval(full[..5], delta), FoldTerms(st', keys, delta, CONSTRAINTS),
                  FoldTerms(st', KeysAt(state, delta), delta, CONSTRAINTS), FoldTerms(st, KeysAt(state, delta), delta, CONSTRAINTS),
                  MaskSum(keys, delta), MaskSum(KeysAt(state, delta), delta), Constants(st, CONSTRAINTS),
                  FoldResiduals(st, Leads(state), CONSTRAINTS), FoldResiduals(st', Leads(state), CONSTRAINTS), X5(delta));
  }

  lemma AcceptAlgebra(m: Fe, low: Fe, f: Fe, f': Fe, f0: Fe, k: Fe, k': Fe, c: Fe, r0: Fe, r: Fe, q: Fe)
    requires R(m) == R(low) && R(f) == R(f') && R(k) == R(k')
    requires low + (r0 + c) * q == f0 + c * q + k' && f' - f0 == q * (r - r0)
    ensures R(m - (f + k)) == 0 <==> R(r * q) == 0
  {
    Congruent(f, f', k, k');
    Congruent(m, low, f + k, f' + k');
    DistributeRight(r0, c, q);
    assert q * (r - r0) == r * q - r0 * q;
    assert low - (f' + k') == -(r * q);
    NegatedResidue(r * q);
  }

  lemma NegatedResidue(x: Fe)
    ensures R(-x) == 0 <==> R(x) == 0
  {
    hide R;
    OneIsCanonical();
    if R(x) == 0 { Congruent(0, 0, x, 0); }
    if R(-x) == 0 { Congruent(0, 0, -x, 0); }
  }

  /** With a nonzero key the answer depends on the committed values alone. */
  lemma AcceptsIffFoldZero(st: Statement, state: Committed, delta: Fe)
    requires st.Valid() && IsPrime(P) && R(delta) != 0
    ensures R(FoldResiduals(st, Leads(state), CONSTRAINTS) * X5(delta)) == 0
       <==> R(FoldResiduals(st, Leads(state), CONSTRAINTS)) == 0
  {
    hide R, FoldResiduals, X5, Pow;
    var f := FoldResiduals(st, Leads(state), CONSTRAINTS);
    PowersOfX(delta);
    NonzeroPower(delta, 5);
    OneIsCanonical();
    if R(f) == 0 { Congruent(f, 0, X5(delta), X5(delta)); }
    if R(f * X5(delta)) == 0 { ZeroFactor(f, X5(delta)); }
  }

  /** The power of the key that an answer is multiplied by. */
  lemma FifthOfKey(delta: Fe)
    ensures X5(delta) == Pow(delta, 5)
  {
    PowersOfX(delta);
  }

  /**
   A whole proof between any prover and verifier whose keys match the commitment, for any committed values and any
   values that the two sides hold. The verifier accepts if and only if the 68 differences of its own statement,
   weighted by one and the scalars, add up to zero modulo p after the multiplication by delta^5.
   */
  method Exchange(prover: Prover, verifier: Verifier, st: Statement, st': Statement) returns (valid: bool)
    requires SameChallenge(st, st') && |verifier.state| == VOLE_LEN
    requires SameResidues(verifier.state, KeysAt(prover.state, verifier.delta))
    ensures valid <==>
      var e := Differences(st', Leads(prover.state));
      R((e[0] + Dot(st.scalars, e[1..])) * Pow(verifier.delta, 5)) == 0
  {
    hide R, Eval, FoldTerms, FoldResiduals, MaskSum, KeysAt, Leads, IsSent, X5, Pow, SameResidues, Dot;
    var msg := prover.Prove(st);
    ghost var full :| IsSent(st, prover.state, full, msg);
    valid := verifier.Verify(st', msg);
    AcceptsExactly(st, st', prover.state, verifier.state, verifier.delta, full, msg);
    FoldWritten(st', Leads(prover.state), 68);
    FifthOfKey(verifier.delta);
    ghost var e := Differences(st', Leads(prover.state));
    assert e[1..68] == e[1..];
  }

  /** A statement that is wrong in exactly one place is rejected, if the place has a nonzero scalar and the key is nonzero. */
  lemma OneWrong(scalars: seq<Fe>, e: seq<Fe>, j: nat, delta: Fe)
    requires IsPrime(P) && |scalars| == 67 && |e| == 68 && j < 68 && R(delta) != 0
    requires forall i :: 0 <= i < 68 ==> (R(e[i]) == 0 <==> i != j)
    requires j > 0 ==> R(scalars[j - 1]) != 0
    ensures R((e[0] + Dot(scalars, e[1..])) * Pow(delta, 5)) != 0
  {
    hide R, Dot, Pow;
    OneIsCanonical();
    OneTerm(scalars, e, j, 67);
    assert e[1..][..67] == e[1..];
    if j > 0 && R(scalars[j - 1] * e[j]) == 0 { ZeroFactor(scalars[j - 1], e[j]); }
    var rest := Dot(scalars, e[1..]);
    if j == 0 { Congruent(e[0], e[0], rest, 0); } else { Congruent(e[0], 0, rest, rest); }
    NonzeroPower(delta, 5);
    if R((e[0] + rest) * Pow(delta, 5)) == 0 { ZeroFactor(e[0] + rest, Pow(delta, 5)); }
  }

  lemma {:induction false} OneTerm(scalars: seq<Fe>, e: seq<Fe>, j: nat, n: nat)
    requires |scalars| == 67 && |e| == 68 && n <= 67 && forall i :: 1 <= i < 68 && i != j ==> R(e[i]) == 0
    ensures R(Dot(scalars, e[1..][..n])) == if 1 <= j <= n && j < 68 then R(scalars[j - 1] * e[j]) else 0
  {
    hide R, Dot;
    ZeroIsCanonical();
    if n == 0 {
      DotEmpty(scalars);
      assert e[1..][..0] == [];
    } else {
      OneTerm(scalars, e, j, n - 1);
      DotSnoc(scalars, e[1..][..n]);
      assert e[1..][..n][..n - 1] == e[1..][..n - 1];
      var before, last := Dot(scalars, e[1..][..n - 1]), scalars[n - 1] * e[n];
      if j == n {
        Congruent(before, 0, last, last);
      } else {
        Congruent(scalars[n - 1], scalars[n - 1], e[n], 0);
        Congruent(before, before, last, 0);
      }
    }
  }

  // ---------------------------------------------------------- the commitment

  /** Derandomized rows are correlated through the committed values. */
  lemma CommitmentAligned(oi: seq<V.Vec>, o: seq<V.Vec>, ui: seq<V.Vec>, vi: seq<V.Vec>, hi: seq<Fe>,
                          leads: seq<Fe>, msg: seq<V.Vec>, k: nat)
    requires V.Shape(o, k, VOLE_LEN) && V.Shape(oi, k, VOLE_LEN) && V.Shape(msg, k, VOLE_LEN) && |leads| == VOLE_LEN
    requires |hi| == k && V.RowsCorrelated(oi, ui, vi, hi)
    requires forall i, j :: 0 <= i < k && 0 <= j < VOLE_LEN ==> o[i][j] == oi[i][j] + hi[i] * msg[i][j]
    requires forall i, j :: 0 <= i < k && 0 <= j < VOLE_LEN ==> msg[i][j] == R(leads[j] - vi[i][j])
    ensures V.Aligned(o, ui, leads, hi)
  {
    hide R;
    forall i | 0 <= i < k ensures Correlated(o[i], ui[i], leads, hi[i]) {
      assert Correlated(oi[i], ui[i], vi[i], hi[i]);
      forall j | 0 <= j < VOLE_LEN ensures R(o[i][j]) == R(ui[i][j] + hi[i] * leads[j]) {
        V.DerandomizeStep(oi[i][j], ui[i][j], hi[i], vi[i][j], leads[j], msg[i][j]);
      }
    }
  }

  /** After an honest commitment the verifier's keys are the committed polynomials at delta. */
  lemma KeysMatch(state: Committed, keys: seq<Fe>, delta: Fe, o: seq<V.Vec>, ui: seq<V.Vec>, hi: seq<Fe>, k: nat, bits: nat)
    requires V.Shape(o, k, VOLE_LEN) && V.Shape(ui, k, VOLE_LEN) && V.Aligned(o, ui, Leads(state), hi)
    requires |keys| == VOLE_LEN && delta == Dot(Multipliers(k, bits), hi)
    requires forall j :: 0 <= j < VOLE_LEN ==> keys[j] == V.Column(Multipliers(k, bits), o, j, k)
    requires forall j :: 0 <= j < VOLE_LEN ==> state[j][0] == V.Column(Multipliers(k, bits), ui, j, k)
    ensures SameResidues(keys, KeysAt(state, delta))
  {
    hide R, Dot, Multiplier;
    assert hi[..k] == hi;
    forall j | 0 <= j < VOLE_LEN ensures R(keys[j]) == R(KeysAt(state, delta)[j]) {
      V.ColumnCorrelated(Multipliers(k, bits), o, ui, Leads(state), hi, j, k);
    }
  }

  /** The honest consistency check of the commitment is zero in every repetition. */
  lemma HonestCommitCheck(o: V.Vec, u: V.Vec, leads: V.Vec, h: Fe, gamma: seq<Fe>, cu: Fe, cv: Fe)
    requires |o| == VOLE_LEN && Correlated(o, u, leads, h) && |gamma| == VOLE_LEN - 1
    requires cu == R(u[CHECK_POS] + Dot(u, gamma)) && cv == R(leads[CHECK_POS] + Dot(leads, gamma))
    ensures R(-(cu + h * cv) + (o[CHECK_POS] + Dot(o, gamma))) == 0
  {
    hide R, Dot;
    DotSwapped(o, u, leads, h, gamma);
    var a, b := u[CHECK_POS] + Dot(u, gamma), leads[CHECK_POS] + Dot(leads, gamma);
    CanonicalTwice(a);
    CanonicalTwice(b);
    CheckAlgebra(o[CHECK_POS], u[CHECK_POS], leads[CHECK_POS], Dot(o, gamma), Dot(u, gamma), Dot(leads, gamma), h, cu, cv);
  }

  lemma CheckAlgebra(oc: Fe, uc: Fe, lc: Fe, od: Fe, ud: Fe, ld: Fe, h: Fe, cu: Fe, cv: Fe)
    requires R(oc) == R(uc + h * lc) && R(od) == R(ud + h * ld) && R(cu) == R(uc + ud) && R(cv) == R(lc + ld)
    ensures R(-(cu + h * cv) + (oc + od)) == 0
  {
    hide R;
    Congruent(oc, uc + h * lc, od, ud + h * ld);
    Congruent(h, h, cv, lc + ld);
    Congruent(cu, uc + ud, h * cv, h * (lc + ld));
    Congruent(oc + od, uc + h * lc + (ud + h * ld), cu + h * cv, uc + ud + h * (lc + ld));
    assert h * (lc + ld) == h * lc + h * ld;
    assert -(cu + h * cv) + (oc + od) == (oc + od) - (cu + h * cv);
    ZeroIsCanonical();
  }

  lemma {:induction false} DotCommutes(o: seq<Fe>, gamma: seq<Fe>)
    requires |gamma| <= |o|
    ensures Dot(o, gamma) == Dot(gamma, o[..|gamma|])
  {
    if gamma != [] {
      var n := |gamma| - 1;
      DotCommutes(o, gamma[..n]);
      DotPrefix(gamma, o[..n]);
      assert o[..n + 1][..n] == o[..n];
      assert o[n] * gamma[n] == gamma[n] * o[n];
    }
  }

  /** Only as many entries of the first vector as the second has are read. */
  lemma {:induction false} DotPrefix(gamma: seq<Fe>, v: seq<Fe>)
    requires |v| <= |gamma|
    ensures Dot(gamma, v) == Dot(gamma[..|v|], v)
    decreases |v|
  {
    if v != [] {
      var n := |v| - 1;
      DotPrefix(gamma, v[..n]);
      DotPrefix(gamma[..|v|], v[..n]);
      assert gamma[..|v|][..n] == gamma[..n];
    }
  }

  /** dot_product with the roles of the two vectors exchanged. */
  lemma DotSwapped(o: seq<Fe>, u: seq<Fe>, v: seq<Fe>, h: Fe, gamma: seq<Fe>)
    requires |gamma| <= |o| && Correlated(o, u, v, h)
    ensures |o| == |u| == |v| && Related(Dot(o, gamma), Dot(u, gamma), Dot(v, gamma), h)
  {
    hide R, Dot, Correlated, Related;
    var n := |gamma|;
    CorrelatedPrefix(o, u, v, h, n);
    DotCorrelated(gamma, o[..n], u[..n], v[..n], h);
    DotCommutes(o, gamma);
    DotCommutes(u, gamma);
    DotCommutes(v, gamma);
  }
}
