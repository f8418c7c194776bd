/**
 OPRF.h: one whole honest run, from the punctured seeds to the output symbols.
 */
module OprfRun {
  import opened Numbers
  import opened Field
  import opened ZkConstraints
  import opened PowerResidue
  import opened Oprf
  import FR = FastResidue
  import V = VolePlus
  import Zkp
  import Poly
  import ZkProver
  import SV = SmallSetVole
  import F = Fe25519

  // ------------------------------------------------------- preprocessing

  /** The two parties' seeds of one tree agree off the punctured leaf. */
  ghost predicate TreeAgrees<B>(a: seq<B>, b: seq<B>, start: int, n: nat, h: nat)
  {
    && |a| == |b| && 0 <= start <= start + n <= |a|
    && SameExcept(a[start..start + n], b[start..start + n], h)
  }

  ghost predicate SameExcept<B>(a: seq<B>, b: seq<B>, h: nat)
  {
    |a| == |b| && forall i :: 0 <= i < |a| && i != h ==> a[i] == b[i]
  }

  ghost predicate Punctured<B>(a: seq<B>, b: seq<B>, points: seq<nat>, n: nat)
  {
    && |a| == |b| == |points| * n
    && (forall t :: 0 <= t < |points| ==> points[t] < n)
    && forall t :: 0 <= t < |points| ==> TreeAgrees(a, b, n * t, n, points[t])
  }

  function Values(rows: seq<seq<F.Limbs>>): (m: seq<V.Vec>)
    ensures |m| == |rows| && forall i :: 0 <= i < |rows| ==> |m[i]| == |rows[i]|
    ensures forall i, j :: 0 <= i < |rows| && 0 <= j < |rows[i]| ==> m[i][j] == F.Val(rows[i][j])
  {
    seq(|rows|, i requires 0 <= i < |rows| => seq(|rows[i]|, j requires 0 <= j < |rows[i]| => F.Val(rows[i][j])))
  }

  /** One tree seen from both sides. */
  lemma TreeCorrelated<B>(u: seq<F.Limbs>, v: seq<F.Limbs>, o: seq<F.Limbs>, b: seq<B>, a: seq<B>, expand: B -> seq<F.u32>,
                          tree: nat, n: nat, h: nat, len: nat)
    requires SV.SentTree(u, v, b, expand, tree, n, len) && SV.ReceivedTree(o, h, a, expand, tree, n, len)
    requires TreeAgrees(a, b, n * tree, n, h)
    ensures |o| == |u| == |v| == len
    ensures forall i :: 0 <= i < len ==> R(F.Val(o[i])) == R(F.Val(u[i]) + h * F.Val(v[i]))
  {
    hide R, Cong, F.Val, SV.LeafSum, F.Reduced;
    var ws, ws' := SV.Leaves(b, expand, n * tree, n), SV.Leaves(a, expand, n * tree, n);
    forall i | 0 <= i < n && i != h ensures ws[i] == ws'[i] {
      assert a[n * tree..n * tree + n][i] == b[n * tree..n * tree + n][i];
    }
    forall i | 0 <= i < len ensures R(F.Val(o[i])) == R(F.Val(u[i]) + h * F.Val(v[i])) {
      SV.VoleCorrelation(u, v, o, ws, ws', h, len, i);
      CongIsSame(F.Val(o[i]), F.Val(u[i]) + h * F.Val(v[i]));
    }
  }

  /** Both calls of one small-set VOLE on the punctured seeds. */
  method SmallSet<B>(a: seq<B>, b: seq<B>, points: seq<nat>, expand: B -> seq<F.u32>, offset: nat, bits: nat,
                     repeat: nat, len: nat)
    returns (u: seq<V.Vec>, v: seq<V.Vec>, o: seq<V.Vec>, hi: seq<Fe>)
    requires 2 <= bits <= 12 && Pow(2, bits) >= 0 && Punctured(a, b, points, Pow(2, bits))
    requires offset + repeat <= |points| && SV.SeedsExpand(a, expand, len) && SV.SeedsExpand(b, expand, len)
    ensures V.Shape(u, repeat, len) && V.Shape(v, repeat, len) && V.Shape(o, repeat, len) && |hi| == repeat
    ensures V.RowsCorrelated(o, u, v, hi)
    ensures forall t :: 0 <= t < repeat ==> hi[t] == points[offset + t]
  {
    hide R, Pow, SV.SentTree, SV.ReceivedTree, TreeAgrees;
    MulMono(offset + repeat, |points|, Pow(2, bits));
    var ul, vl := SV.Send(b, expand, offset, bits, repeat, len);
    var ol, hl := SV.Receive(a, expand, offset, points, bits, repeat, len);
    forall t | 0 <= t < repeat
      ensures |ol[t]| == |ul[t]| == |vl[t]| == len
      ensures forall i :: 0 <= i < len ==> R(F.Val(ol[t][i])) == R(F.Val(ul[t][i]) + hl[t] * F.Val(vl[t][i]))
    {
      assert SV.SentTree(ul[t], vl[t], b, expand, offset + t, Pow(2, bits), len);
      TreeCorrelated(ul[t], vl[t], ol[t], b, a, expand, offset + t, Pow(2, bits), hl[t], len);
    }
    u, v, o := Values(ul), Values(vl), Values(ol);
    hi := seq(repeat, t requires 0 <= t < repeat => hl[t]);
  }

  // ------------------------------------------------------------ commitment

  /** Phases 2 of both sides: the honest commitment is accepted and the keys match it. */
  method CommitPhase(prover: Zkp.Prover, verifier: Zkp.Verifier, w: seq<Fe>, masks: seq<Fe>, checkGamma: seq<Fe>,
                     u: seq<V.Vec>, v: seq<V.Vec>, o: seq<V.Vec>, hi: seq<Fe>)
    returns (good: bool)
    requires prover.kVole == verifier.kVole && prover.bits == verifier.bits
    requires |w| == WITNESS_LEN && |masks| == 5 && |checkGamma| == VOLE_LEN - 1 && |hi| == prover.kVole
    requires V.Shape(u, prover.kVole, VOLE_LEN) && V.Shape(v, prover.kVole, VOLE_LEN)
    requires V.Shape(o, prover.kVole, VOLE_LEN) && V.RowsCorrelated(o, u, v, hi)
    modifies prover, verifier
    ensures good
    ensures ZkProver.Leads(prover.state)[..WITNESS_LEN] == w
    ensures verifier.delta == Dot(ZkProver.Multipliers(prover.kVole, prover.bits), hi)
    ensures |verifier.state| == VOLE_LEN
    ensures SameResidues(verifier.state, ZkProver.KeysAt(prover.state, verifier.delta))
  {
    hide R, Dot, V.Column, ZkProver.Multipliers, ZkProver.KeysAt;
    var k := prover.kVole;
    var msg := prover.Commit(w, masks, u, v);
    ghost var leads := ZkProver.Leads(prover.state);
    var aligned := verifier.Receive(o, hi, msg);
    Zkp.CommitmentAligned(o, aligned, u, v, hi, leads, msg, k);
    Zkp.KeysMatch(prover.state, verifier.state, verifier.delta, aligned, u, hi, k, prover.bits);
    var cv, cus := prover.CommitCheck(checkGamma, u);
    good := verifier.Check(aligned, hi, checkGamma, cv, cus);
    forall i | 0 <= i < k
      ensures R(-(cus[i] + hi[i] * cv) + (aligned[i][CHECK_POS] + Dot(aligned[i], checkGamma))) == 0
    {
      Zkp.HonestCommitCheck(aligned[i], u[i], leads, hi[i], checkGamma, cus[i], cv);
    }
  }

  // -------------------------------------------------- the server's statement

  lemma {:induction false} GammaSums(st: Statement, w: seq<Fe>, key: Fe, u: seq<Fe>, v: seq<Fe>, n: nat)
    requires st.Valid() && |w| == VOLE_LEN && |u| == |v| == LEVAL && n <= LEVAL && w[K_POS] == key
    requires forall i :: 0 <= i < LEVAL ==> w[V_OFFSET + i] == v[i] && u[i] == Mul(Add(key, st.offsets[i]), v[i])
    ensures GammaV(st, w, n) == Dot(st.gamma, v[..n]) && GammaU(st, w, n) == Dot(st.gamma, u[..n])
  {
    if n > 0 {
      GammaSums(st, w, key, u, v, n - 1);
      assert v[..n][..n - 1] == v[..n - 1] && u[..n][..n - 1] == u[..n - 1];
      assert v[..n][n - 1] == v[n - 1] == w[V_OFFSET + (n - 1)] && u[..n][n - 1] == u[n - 1];
      ShiftedFactor(st.gamma[n - 1], v[n - 1], key + st.offsets[n - 1]);
    }
  }

  lemma ShiftedFactor(g: int, v: int, s: int)
    ensures g * v * s == g * (s * v)
  {
    MulAssoc(g, v, s);
  }

  /** The statement the server proves, from its own values. */
  ghost predicate IsStatement(st: Statement, key: Fe, d: Draws, w: seq<Fe>, u: seq<Fe>, v: seq<Fe>)
  {
    && st.Valid() && d.Valid() && |w| == WITNESS_LEN && |u| == |v| == LEVAL
    && st.cu == d.ru + Dot(st.gamma, u) && st.cv == d.rv + Dot(st.gamma, v)
    && forall i :: 0 <= i < CHALLENGES ==> st.mm[i] == Mul(w[B_OFFSET + i], Add(key, st.offsets[LEVAL + st.c[i]]))
  }

  /** The constraints 0 to 54 hold exactly. */
  lemma LinearConstraints(st: Statement, full: seq<Fe>, key: Fe, d: Draws, u: seq<Fe>, v: seq<Fe>, w: seq<Fe>, j: nat)
    requires IsStatement(st, key, d, w, u, v) && IsWitness(key, d, st.offsets, u, v, w)
    requires |full| == VOLE_LEN && full[..WITNESS_LEN] == w && j < 55
    ensures Residual(st, full, j) == 0
  {
    hide R, Dot, Pow, Completed;
    assert forall i :: 0 <= i < WITNESS_LEN ==> w[i] == full[i];
    if j < 2 {
      forall i | 0 <= i < LEVAL ensures full[V_OFFSET + i] == v[i] { assert w[V_OFFSET + i] == v[i]; }
      GammaSums(st, full, key, u, v, LEVAL);
      assert u[..LEVAL] == u && v[..LEVAL] == v;
    } else {
      assert w[B_OFFSET + (j - 2)] == full[B_OFFSET + (j - 2)];
    }
  }

  lemma {:induction false} ProductSymbol(v: seq<Fe>, n: nat)
    requires n <= |v| && forall i :: 0 <= i < n ==> R(Pow(v[i], FR.D)) == 1
    ensures R(Pow(Product(v, n), FR.D)) == 1
  {
    hide R, Pow;
    OneIsCanonical();
    if n == 0 {
      PowOne(FR.D);
    } else {
      ProductSymbol(v, n - 1);
      PowOfProduct(Product(v, n - 1), v[n - 1], FR.D);
      Congruent(Pow(Product(v, n - 1), FR.D), 1, Pow(v[n - 1], FR.D), 1);
    }
  }

  lemma {:induction false} ProductZero(v: seq<Fe>, n: nat, i: nat)
    requires i < n <= |v| && R(v[i]) == 0
    ensures R(Product(v, n)) == 0
  {
    hide R;
    if i < n - 1 {
      ProductZero(v, n - 1, i);
      ZeroProduct(Product(v, n - 1), v[n - 1]);
    } else {
      ZeroProduct(v[n - 1], Product(v, n - 1));
    }
  }

  /** The EPS-th power of a nonzero sample has symbol one; that of a zero sample is zero. */
  lemma SampledPower(r: Fe, v: Fe)
    requires IsPrime(P) && v == R(Pow(r, FR.EPS))
    ensures R(r) != 0 ==> R(Pow(v, FR.D)) == 1
    ensures R(r) == 0 ==> R(v) == 0
  {
    hide Pow, R;
    CanonicalTwice(Pow(r, FR.EPS));
    if R(r) == 0 {
      PowOfZero(r, FR.EPS);
    } else {
      SymbolOfPower(r);
      PowSame(v, Pow(r, FR.EPS), FR.D);
    }
  }

  ghost predicate AllNonzero(s: seq<Fe>)
  {
    forall i :: 0 <= i < |s| ==> R(s[i]) != 0
  }

  /** The folded residuals of the server's witness: zero for nonzero samples, minus the last scalar otherwise. */
  lemma WitnessFold(st: Statement, full: seq<Fe>, key: Fe, d: Draws, u: seq<Fe>, v: seq<Fe>, w: seq<Fe>)
    requires IsPrime(P) && IsStatement(st, key, d, w, u, v) && IsWitness(key, d, st.offsets, u, v, w)
    requires |full| == VOLE_LEN && full[..WITNESS_LEN] == w
    ensures R(FoldResiduals(st, full, CONSTRAINTS)) == (if AllNonzero(d.r) then 0 else R(-st.scalars[66]))
  {
    assert st.Valid() && Completed(w);
    hide R, Pow, Residual, Product, FoldResiduals, IsStatement, Completed, Mul, IsWitness;
    WitnessProduct(full, key, d, st.offsets, u, v, w);
    CompletedFull(w, full);
    ZeroIsCanonical();
    forall j | 0 <= j < 55 ensures R(Residual(st, full, j)) == 0 {
      LinearConstraints(st, full, key, d, u, v, w, j);
    }
    if AllNonzero(d.r) {
      CompletedHolds(st, full);
      AllHold(st, full, CONSTRAINTS);
    } else {
      CompletedZero(st, full);
      AllHold(st, full, 67);
      LastFold(st, full);
      Congruent(st.scalars[66], st.scalars[66], Residual(st, full, 67), -1);
      Congruent(FoldResiduals(st, full, 67), 0, st.scalars[66] * Residual(st, full, 67), -st.scalars[66]);
    }
  }

  lemma LastFold(st: Statement, full: seq<Fe>)
    requires st.Valid() && |full| == VOLE_LEN
    ensures FoldResiduals(st, full, CONSTRAINTS) == FoldResiduals(st, full, 67) + st.scalars[66] * Residual(st, full, 67)
  {}

  lemma CompletedFull(w: seq<Fe>, full: seq<Fe>)
    requires |w| == WITNESS_LEN && |full| == VOLE_LEN && full[..WITNESS_LEN] == w && Completed(w)
    ensures Completed(full)
  {
    hide R, Pow, Inverse, Fifth;
    assert forall i :: 0 <= i < WITNESS_LEN ==> w[i] == full[i];
    forall j: nat | j < RULES ensures Rule(full, j) { assert Rule(w, j); }
  }

  lemma WitnessProduct(full: seq<Fe>, key: Fe, d: Draws, offsets: seq<Fe>, u: seq<Fe>, v: seq<Fe>, w: seq<Fe>)
    requires IsPrime(P) && IsWitness(key, d, offsets, u, v, w)
    requires |full| == VOLE_LEN && full[..WITNESS_LEN] == w
    ensures AllNonzero(d.r) ==> R(Pow(ProductV(full), FR.D)) == 1
    ensures !AllNonzero(d.r) ==> R(ProductV(full)) == 0
  {
    hide R, Pow, Product, Completed, Mul;
    forall i | 0 <= i < LEVAL ensures v[i] == w[V_OFFSET..V_OFFSET + LEVAL][i] { assert w[V_OFFSET + i] == v[i]; }
    assert w[V_OFFSET..V_OFFSET + LEVAL] == v;
    HalfProducts(w, v);
    assert forall i :: 0 <= i < WITNESS_LEN ==> w[i] == full[i];
    assert ProductV(full) == ProductV(w);
    forall i | 0 <= i < LEVAL
      ensures (R(d.r[i]) != 0 ==> R(Pow(v[i], FR.D)) == 1) && (R(d.r[i]) == 0 ==> R(v[i]) == 0)
    {
      assert w[V_OFFSET + i] == v[i] == R(Pow(d.r[i], FR.EPS));
      SampledPower(d.r[i], v[i]);
    }
    if AllNonzero(d.r) {
      ProductSymbol(v, LEVAL);
    } else {
      var i :| 0 <= i < LEVAL && R(d.r[i]) == 0;
      ProductZero(v, LEVAL, i);
    }
  }

  // ------------------------------------------------------------------ symbols

  lemma SymbolOfZero(x: Fe)
    requires R(x) == 0
    ensures FR.Symbol(x) == 0
  {
    hide R, Pow;
    PowOfZero(x, FR.D);
  }

  /** The client sees the symbol of K + l_c through b, unless b was drawn from zero. */
  lemma OpenedSymbol(s: Fe, b: Fe, x: Fe)
    requires IsPrime(P) && b == R(Pow(s, FR.EPS)) && FR.Symbol(x) != 0
    ensures FR.Symbol(R(Mul(b, x))) == if R(s) != 0 then FR.Symbol(x) else 0
  {
    hide R, Pow;
    CanonicalTwice(Mul(b, x));
    FR.SymbolCongruent(R(Mul(b, x)), Mul(b, x));
    SampledPower(s, b);
    if R(s) == 0 {
      ZeroProduct(b, x);
      SymbolOfZero(Mul(b, x));
    } else {
      OneIsCanonical();
      PowOfProduct(b, x, FR.D);
      Congruent(Pow(b, FR.D), 1, Pow(x, FR.D), Pow(x, FR.D));
    }
  }

  /** The evaluation symbol: v cancels and the symbol of K + l' + h is left. */
  lemma EvaluationSymbol(r: Fe, v: Fe, key: Fe, offset: Fe, h: Fe, u: Fe, o: Fe)
    requires IsPrime(P) && R(r) != 0 && v == R(Pow(r, FR.EPS)) && u == Mul(Add(key, offset), v)
    requires R(o) == R(u + h * v)
    ensures FR.Symbol(o) == FR.Symbol(key + offset + h)
  {
    hide R, Pow;
    SampledPower(r, v);
    assert u + h * v == v * (key + offset + h);
    FR.SymbolCongruent(o, Mul(v, key + offset + h));
    var x := key + offset + h;
    OneIsCanonical();
    PowOfProduct(v, x, FR.D);
    Congruent(Pow(v, FR.D), 1, Pow(x, FR.D), Pow(x, FR.D));
  }

  // ------------------------------------------------------------------- the run

  /** The proof phase of an honest run: acceptance is decided by the samples r_i and the last scalar. */
  method ProofPhase(prover: Zkp.Prover, verifier: Zkp.Verifier, st: Statement, st': Statement,
                    ghost key: Fe, ghost d: Draws, ghost u: seq<Fe>, ghost v: seq<Fe>, ghost w: seq<Fe>)
    returns (valid: bool)
    requires IsPrime(P) && SameStatement(st, st') && |verifier.state| == VOLE_LEN
    requires IsStatement(st, key, d, w, u, v) && IsWitness(key, d, st.offsets, u, v, w)
    requires ZkProver.Leads(prover.state)[..WITNESS_LEN] == w
    requires SameResidues(verifier.state, ZkProver.KeysAt(prover.state, verifier.delta))
    ensures valid <==> AllNonzero(d.r) || R(st.scalars[66] * X5(verifier.delta)) == 0
  {
    hide R, Dot, Pow, X5, Product, Completed, FoldTerms, FoldResiduals, Zkp.MaskSum, Zkp.IsSent, ZkProver.KeysAt,
      ZkProver.Leads, SameResidues, IsStatement, Mul;
    var delta := verifier.delta;
    var msg := prover.Prove(st);
    ghost var poly :| Zkp.IsSent(st, prover.state, poly, msg);
    valid := verifier.Verify(st', msg);
    var leads := ZkProver.Leads(prover.state);
    FoldOfStatement(st, st', verifier.state, delta, CONSTRAINTS);
    AnswerOfStatement(Poly.Eval(msg, delta), FoldTerms(st, verifier.state, delta, CONSTRAINTS),
                      FoldTerms(st', verifier.state, delta, CONSTRAINTS), Zkp.MaskSum(verifier.state, delta));
    Zkp.AcceptsExactly(st, st, prover.state, verifier.state, delta, poly, msg);
    WitnessFold(st, leads, key, d, u, v, w);
    FoldTimesPower(FoldResiduals(st, leads, CONSTRAINTS), AllNonzero(d.r), st.scalars[66], X5(delta));
  }

  lemma AnswerOfStatement(e: Fe, f: Fe, f': Fe, m: Fe)
    requires R(f') == R(f)
    ensures R(e - (f' + m)) == R(e - (f + m))
  {
    Congruent(f', f, m, m);
    Congruent(e, e, f' + m, f + m);
  }

  lemma FoldTimesPower(f: Fe, good: bool, s: Fe, q: Fe)
    requires R(f) == if good then 0 else R(-s)
    ensures R(f * q) == 0 <==> good || R(s * q) == 0
  {
    hide R;
    if good {
      ZeroProduct(f, q);
    } else {
      Congruent(f, -s, q, q);
      assert -s * q == -(s * q);
      Zkp.NegatedResidue(s * q);
    }
  }

  /** Every input of a run that neither party chooses freely: seeds, punctures and expansions. */
  ghost predicate Correlation<B>(a: seq<B>, b: seq<B>, points: seq<nat>, expandZk: B -> seq<F.u32>, expandPlus: B -> seq<F.u32>,
                                 bits: nat, kZk: nat, kPlus: nat)
  {
    && 2 <= bits <= 12 && Pow(2, bits) >= 0 && |points| == kZk + kPlus && Punctured(a, b, points, Pow(2, bits))
    && SV.SeedsExpand(a, expandZk, VOLE_LEN) && SV.SeedsExpand(b, expandZk, VOLE_LEN)
    && SV.SeedsExpand(a, expandPlus, LEVAL + 1) && SV.SeedsExpand(b, expandPlus, LEVAL + 1)
  }

  /**
   One whole honest run for any key, hashed input, draws, seeds, punctures and challenges, in plain arithmetic. The
   symbols sent are those of K + l_i. The client accepts exactly when none of them is zero, no b_i was drawn from zero,
   every challenge has the symbol of its low byte, and no v_i was drawn from zero (or the last folding scalar times
   delta^5 vanishes). Unless a v_i was drawn from zero, the outputs are the low 32 bits of the symbols of K + l'_i + h,
   whatever was drawn.
   */
  method Run<B>(p: Oprf, key: Fe, h: Fe, d: Draws, ch: Challenges, a: seq<B>, b: seq<B>, points: seq<nat>,
                expandZk: B -> seq<F.u32>, expandPlus: B -> seq<F.u32>)
    returns (accepted: bool, e: seq<nat>, e': seq<nat>)
    requires IsPrime(P) && p.Valid() && (p.prover.kVole - 1) * p.bits < 256
    requires d.Valid() && ch.Valid(p.lenCom, p.plus.kVole)
    requires Correlation(a, b, points, expandZk, expandPlus, p.bits, p.prover.kVole, p.plus.kVole)
    modifies p.prover, p.verifier
    ensures |e| == p.lenCom && forall i :: 0 <= i < p.lenCom ==> e[i] == FR.Symbol(key + p.offsets[10 + i])
    ensures p.verifier.delta == Dot(ZkProver.Multipliers(p.prover.kVole, p.bits), points[..p.prover.kVole])
    ensures accepted <==>
      && (forall i :: 0 <= i < p.lenCom ==> e[i] != 0)
      && (forall i :: 0 <= i < 53 ==> R(d.s[i]) != 0)
      && (forall i :: 0 <= i < 53 ==> e[ch.c[i] % 256] == e[ch.c[i]])
      && ((forall i :: 0 <= i < 10 ==> R(d.r[i]) != 0) || R(ch.scalars[66] * Pow(p.verifier.delta, 5)) == 0)
    ensures accepted && (forall i :: 0 <= i < 10 ==> R(d.r[i]) != 0) ==>
      |e'| == 10 && forall i :: 0 <= i < 10 ==> e'[i] == FR.Symbol(key + p.offsets[i] + h) % 0x1_0000_0000
  {
    hide Pow, Dot, FR.Symbol, X5, Correlation, ZkProver.Multipliers, R;
    accepted, e, e' := Phases(p, key, h, d, ch, a, b, points, expandZk, expandPlus);
    Zkp.FifthOfKey(p.verifier.delta);
    NoneZeroMeans(p, key, e);
  }

  /** The phases of a run, one after the other. */
  method Phases<B>(p: Oprf, key: Fe, h: Fe, d: Draws, ch: Challenges, a: seq<B>, b: seq<B>, points: seq<nat>,
                   expandZk: B -> seq<F.u32>, expandPlus: B -> seq<F.u32>)
    returns (accepted: bool, e: seq<nat>, e': seq<nat>)
    requires IsPrime(P) && p.Valid() && (p.prover.kVole - 1) * p.bits < 256
    requires d.Valid() && ch.Valid(p.lenCom, p.plus.kVole)
    requires Correlation(a, b, points, expandZk, expandPlus, p.bits, p.prover.kVole, p.plus.kVole)
    modifies p.prover, p.verifier
    ensures |e| == p.lenCom && forall i :: 0 <= i < p.lenCom ==> e[i] == FR.Symbol(key + p.offsets[LEVAL + i])
    ensures p.verifier.delta == Dot(ZkProver.Multipliers(p.prover.kVole, p.bits), points[..p.prover.kVole])
    ensures accepted <==>
      && NoZeroSymbol(key, p.offsets)
      && AllNonzero(d.s)
      && Narrowed(key, p.offsets, ch.c)
      && (AllNonzero(d.r) || R(ch.scalars[66] * X5(p.verifier.delta)) == 0)
    ensures accepted && AllNonzero(d.r) ==>
      |e'| == LEVAL && forall i :: 0 <= i < LEVAL ==> e'[i] == FR.Symbol(key + p.offsets[i] + h) % 0x1_0000_0000
  {
    hide R, Dot, Pow, Product, Completed, FR.Symbol, Punctured, ZkProver.KeysAt, ZkProver.Leads,
      ZkProver.Multipliers, SameResidues, X5, Mul;
    e' := [];
    var kz, kp := p.prover.kVole, p.plus.kVole;
    var uz, vz, oz, hz := SmallSet(a, b, points, expandZk, 0, p.bits, kz, VOLE_LEN);
    assert hz == points[..kz];
    var up, vp, op, hp := SmallSet(a, b, points, expandPlus, kz, p.bits, kp, LEVAL + 1);
    var w, u, v := p.Witness(key, d);
    var good := CommitPhase(p.prover, p.verifier, w, d.masks, ch.checkGamma, uz, vz, oz, hz);
    var ok, o, cuC, cvC := V.Run(p.plus, h, u, v, d.ru, d.rv, ch.gamma, ch.lambda, up, vp, op, hp);
    e := p.Symbols(key);
    NoneZeroMeans(p, key, e);
    var fine := p.NoneZero(e);
    accepted := false;
    if good && ok && fine {
      accepted, e' := Answer(p, key, h, d, ch, w, u, v, e, o, cuC, cvC);
    }
  }

  /** Phases 5 to 8, once no symbol is zero. */
  method Answer(p: Oprf, key: Fe, h: Fe, d: Draws, ch: Challenges, w: seq<Fe>, u: seq<Fe>, v: seq<Fe>, e: seq<nat>,
                o: seq<Fe>, cuC: Fe, cvC: Fe)
    returns (accepted: bool, e': seq<nat>)
    requires IsPrime(P) && p.Valid() && ch.Valid(p.lenCom, p.plus.kVole)
    requires IsWitness(key, d, p.offsets, u, v, w) && |e| == p.lenCom
    requires forall i :: 0 <= i < p.lenCom ==> e[i] == FR.Symbol(key + p.offsets[LEVAL + i]) && e[i] != 0
    requires Correlated(o, u, v, h)
    requires R(cuC) == R(d.ru + Dot(ch.gamma, u)) && R(cvC) == R(d.rv + Dot(ch.gamma, v))
    requires ZkProver.Leads(p.prover.state)[..WITNESS_LEN] == w && |p.verifier.state| == VOLE_LEN
    requires SameResidues(p.verifier.state, ZkProver.KeysAt(p.prover.state, p.verifier.delta))
    ensures accepted <==>
      AllNonzero(d.s) && Narrowed(key, p.offsets, ch.c) && (AllNonzero(d.r) || R(ch.scalars[66] * X5(p.verifier.delta)) == 0)
    ensures accepted && AllNonzero(d.r) ==>
      |e'| == LEVAL && forall i :: 0 <= i < LEVAL ==> e'[i] == FR.Symbol(key + p.offsets[i] + h) % 0x1_0000_0000
  {
    hide R, Dot, Pow, Product, Completed, FR.Symbol, ZkProver.KeysAt, ZkProver.Leads, SameResidues, X5, Mul;
    e' := [];
    var c := Bytes(ch.c);
    var m := p.Masked(key, w[B_OFFSET..B_OFFSET + CHALLENGES], c);
    var received := seq(CHALLENGES, i requires 0 <= i < CHALLENGES => R(m[i]));
    OpenedExactly(p, key, d, u, v, w, ch.c, e, m, received);
    accepted := p.Opened(e, ch.c, received);
    if accepted {
      var cu, cv := p.FoldShares(d.ru, d.rv, u, v, ch.gamma);
      var st := Statement(ch.gamma, m, cu, cv, p.offsets, c, ch.scalars);
      var st' := Statement(ch.gamma, received, cuC, cvC, p.offsets, c, ch.scalars);
      forall i | 0 <= i < CHALLENGES ensures R(received[i]) == R(m[i]) { CanonicalTwice(m[i]); }
      accepted := ProofPhase(p.prover, p.verifier, st, st', key, d, u, v, w);
      e' := p.EvalSymbols(o);
      if AllNonzero(d.r) { EvaluationSymbols(key, h, d, p.offsets, u, v, w, o); }
    }
  }

  lemma EvaluationSymbols(key: Fe, h: Fe, d: Draws, offsets: seq<Fe>, u: seq<Fe>, v: seq<Fe>, w: seq<Fe>, o: seq<Fe>)
    requires IsPrime(P) && IsWitness(key, d, offsets, u, v, w) && AllNonzero(d.r) && Correlated(o, u, v, h)
    ensures forall i :: 0 <= i < LEVAL ==> FR.Symbol(o[i]) == FR.Symbol(key + offsets[i] + h)
  {
    hide R, Pow, Completed, FR.Symbol, Mul;
    forall i | 0 <= i < LEVAL ensures FR.Symbol(o[i]) == FR.Symbol(key + offsets[i] + h) {
      assert w[V_OFFSET + i] == v[i];
      EvaluationSymbol(d.r[i], v[i], key, offsets[i], h, u[i], o[i]);
    }
  }

  /** No commitment symbol of the key is zero. */
  ghost predicate NoZeroSymbol(key: Fe, offsets: seq<Fe>)
  {
    forall i :: LEVAL <= i < |offsets| ==> FR.Symbol(key + offsets[i]) != 0
  }

  lemma NoneZeroMeans(p: Oprf, key: Fe, e: seq<nat>)
    requires p.Valid() && |e| == p.lenCom
    requires forall i :: 0 <= i < p.lenCom ==> e[i] == FR.Symbol(key + p.offsets[LEVAL + i])
    ensures (forall i :: 0 <= i < p.lenCom ==> e[i] != 0) <==> NoZeroSymbol(key, p.offsets)
  {
    hide FR.Symbol;
    forall i | LEVAL <= i < |p.offsets| ensures FR.Symbol(key + p.offsets[i]) == e[i - LEVAL] {
      assert e[i - LEVAL] == FR.Symbol(key + p.offsets[LEVAL + (i - LEVAL)]);
    }
    if NoZeroSymbol(key, p.offsets) {
      forall i | 0 <= i < p.lenCom ensures e[i] != 0 { assert FR.Symbol(key + p.offsets[LEVAL + i]) != 0; }
    }
  }

  /** The server opens at the low byte of a challenge; its symbol is that of the challenge. */
  ghost predicate Narrowed(key: Fe, offsets: seq<Fe>, c: seq<nat>)
    requires forall i :: 0 <= i < |c| ==> LEVAL + c[i] < |offsets|
  {
    forall i :: 0 <= i < |c| ==> FR.Symbol(key + offsets[LEVAL + c[i] % 256]) == FR.Symbol(key + offsets[LEVAL + c[i]])
  }

  /** Which draws make every opened value carry its symbol. */
  lemma OpenedExactly(p: Oprf, key: Fe, d: Draws, u: seq<Fe>, v: seq<Fe>, w: seq<Fe>, c: seq<nat>, e: seq<nat>,
                      m: seq<Fe>, received: seq<Fe>)
    requires IsPrime(P) && p.Valid() && IsWitness(key, d, p.offsets, u, v, w)
    requires |c| == |m| == |received| == CHALLENGES && |e| == p.lenCom
    requires forall i :: 0 <= i < CHALLENGES ==> c[i] < p.lenCom
    requires forall i :: 0 <= i < CHALLENGES ==>
      m[i] == Mul(w[B_OFFSET..B_OFFSET + CHALLENGES][i], Add(key, p.offsets[LEVAL + c[i] % 256]))
    requires forall i :: 0 <= i < CHALLENGES ==> received[i] == R(m[i])
    requires forall i :: 0 <= i < p.lenCom ==> e[i] == FR.Symbol(key + p.offsets[LEVAL + i]) && e[i] != 0
    ensures (forall i :: 0 <= i < CHALLENGES ==> FR.Symbol(received[i]) == e[c[i]]) <==>
      AllNonzero(d.s) && Narrowed(key, p.offsets, c)
  {
    hide R, Pow, FR.Symbol, Completed, Mul;
    forall i | 0 <= i < CHALLENGES
      ensures FR.Symbol(received[i]) == e[c[i]] <==>
        R(d.s[i]) != 0 && FR.Symbol(key + p.offsets[LEVAL + c[i] % 256]) == FR.Symbol(key + p.offsets[LEVAL + c[i]])
    {
      var b := w[B_OFFSET..B_OFFSET + CHALLENGES][i];
      assert b == w[B_OFFSET + i] == R(Pow(d.s[i], FR.EPS));
      assert e[c[i]] == FR.Symbol(key + p.offsets[LEVAL + c[i]]);
      assert e[c[i] % 256] == FR.Symbol(key + p.offsets[LEVAL + c[i] % 256]);
      OpenedSymbol(d.s[i], b, Add(key, p.offsets[LEVAL + c[i] % 256]));
    }
  }
}
