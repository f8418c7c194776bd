/**
 fast_residue_25519.h: the residue symbol and the sampling helpers, built on three straight-line
 programs. Elements are integers, as in `Field`; the programs run over them.
 */
module FastResidue {
  import opened Numbers
  import opened Wrappers
  import opened Field
  import W = SlidingWindow

  const EPS: nat := 781764
  const D: nat := 0xabaf8c6b094fd0f32c2ccabab864dbecd99144679c1adf804898fb2042b
  const Y: nat := 0x54c9f83ec68359a76628235a04ee452a89e3503a2179961b71e2a4682f8
  const SYMBOL_BYTES: nat := 5

  /** The exponents: p - 1 = EPS * D, and Y is minus the inverse of EPS modulo D. */
  lemma ExponentFacts()
    ensures EPS * D == P - 1
    ensures Y * EPS + 1 == 386083 * D
  {}

  const EPS_STEPS: seq<(nat, nat)> := [(3, 7), (5, 13), (2, 3), (4, 1)]

  const D0: seq<(nat, nat)> := [(6, 29), (6, 31), (5, 3), (7, 13), (3, 3), (8, 9), (6, 19), (4, 15)]
  const D1: seq<(nat, nat)> := [(2, 1), (8, 15), (7, 25), (3, 3), (8, 11), (7, 25), (6, 21), (4, 13)]
  const D2: seq<(nat, nat)> := [(6, 23), (9, 25), (7, 27), (6, 31), (6, 25), (4, 11), (7, 25), (6, 5)]
  const D3: seq<(nat, nat)> := [(8, 17), (5, 19), (5, 25), (2, 3), (9, 13), (6, 27), (4, 15), (12, 9)]
  const D4: seq<(nat, nat)> := [(8, 19), (8, 31), (6, 25), (7, 1), (9, 21), (1, 1)]
  const D_STEPS: seq<(nat, nat)> := D0 + D1 + D2 + D3 + D4

  const Y0: seq<(nat, nat)> := [(7, 25), (7, 31), (1, 1), (10, 31), (3, 3), (7, 13), (9, 13), (6, 25)]
  const Y1: seq<(nat, nat)> := [(3, 5), (7, 29), (5, 19), (6, 5), (10, 17), (5, 21), (3, 5), (11, 19)]
  const Y2: seq<(nat, nat)> := [(5, 23), (7, 17), (5, 9), (6, 21), (8, 19), (2, 3), (7, 13), (2, 1)]
  const Y3: seq<(nat, nat)> := [(11, 29), (4, 1), (9, 23), (5, 19), (6, 11), (9, 27), (4, 7), (7, 15)]
  const Y4: seq<(nat, nat)> := [(8, 21), (7, 17), (3, 5), (10, 23), (2, 3)]
  const Y_STEPS: seq<(nat, nat)> := Y0 + Y1 + Y2 + Y3 + Y4

  const POW_EPS: seq<W.Instr> := W.Unrolled(15, 11, EPS_STEPS) + W.Squares(2)
  const POW_D: seq<W.Instr> := W.Unrolled(31, 21, D_STEPS) + W.Squares(0)
  const POW_Y: seq<W.Instr> := W.Unrolled(31, 21, Y_STEPS) + W.Squares(3)

  lemma {:induction false} ShiftedValue(v: nat, m: nat)
    ensures W.Shifted(v, m) == v * Pow(2, m)
  {
    if m > 0 {
      ShiftedValue(v, m - 1);
      MulAssoc(v, 2, Pow(2, m - 1));
    }
  }

  lemma HornerStart(first: nat)
    ensures W.Horner(first, []) == first
  {}

  /** Reads one more window off the program. */
  lemma Next(first: nat, done: seq<(nat, nat)>, e: nat, n: nat, v: nat) returns (done': seq<(nat, nat)>, e': nat)
    requires W.Horner(first, done) == e
    ensures done' == done + [(n, v)] && W.Horner(first, done') == e' && e' == e * Pow(2, n) + v
  {
    done' := done + [(n, v)];
    assert done'[..|done|] == done;
    ShiftedValue(e, n);
    PowPositive(2, n);
    e' := W.Shifted(e, n) + v;
  }

  lemma EpsExponent()
    ensures W.Shifted(W.Horner(11, EPS_STEPS), 2) == EPS
  {
    hide W.Horner;
    HornerStart(11);
    var s: seq<(nat, nat)>, e := [], 11;
    s, e := Next(11, s, e, 3, 7); s, e := Next(11, s, e, 5, 13);
    s, e := Next(11, s, e, 2, 3); s, e := Next(11, s, e, 4, 1);
    assert s == EPS_STEPS;
    ShiftedValue(e, 2);
  }

  lemma D0Exponent(s0: seq<(nat, nat)>, e0: nat)
    requires W.Horner(21, s0) == e0
    ensures W.Horner(21, s0 + D0) == e0 * 0x200000000000 + 0xebe31ac253f
  {
    hide W.Horner;
    var s, e := s0, e0;
    s, e := Next(21, s, e, 6, 29); s, e := Next(21, s, e, 6, 31); s, e := Next(21, s, e, 5, 3);
    s, e := Next(21, s, e, 7, 13); s, e := Next(21, s, e, 3, 3); s, e := Next(21, s, e, 8, 9);
    s, e := Next(21, s, e, 6, 19); s, e := Next(21, s, e, 4, 15);
    assert s == s0 + D0;
  }

  lemma D1Exponent(s0: seq<(nat, nat)>, e0: nat)
    requires W.Horner(21, s0) == e0
    ensures W.Horner(21, s0 + D1) == e0 * 0x200000000000 + 0x8799616655d
  {
    hide W.Horner;
    var s, e := s0, e0;
    s, e := Next(21, s, e, 2, 1); s, e := Next(21, s, e, 8, 15); s, e := Next(21, s, e, 7, 25);
    s, e := Next(21, s, e, 3, 3); s, e := Next(21, s, e, 8, 11); s, e := Next(21, s, e, 7, 25);
    s, e := Next(21, s, e, 6, 21); s, e := Next(21, s, e, 4, 13);
    assert s == s0 + D1;
  }

  lemma D2Exponent(s0: seq<(nat, nat)>, e0: nat)
    requires W.Horner(21, s0) == e0
    ensures W.Horner(21, s0 + D2) == e0 * 0x8000000000000 + 0x2e1936fb36645
  {
    hide W.Horner;
    var s, e := s0, e0;
    s, e := Next(21, s, e, 6, 23); s, e := Next(21, s, e, 9, 25); s, e := Next(21, s, e, 7, 27);
    s, e := Next(21, s, e, 6, 31); s, e := Next(21, s, e, 6, 25); s, e := Next(21, s, e, 4, 11);
    s, e := Next(21, s, e, 7, 25); s, e := Next(21, s, e, 6, 5);
    assert s == s0 + D2;
  }

  lemma D3Exponent(s0: seq<(nat, nat)>, e0: nat)
    requires W.Horner(21, s0) == e0
    ensures W.Horner(21, s0 + D3) == e0 * 0x8000000000000 + 0x8cf3835bf009
  {
    hide W.Horner;
    var s, e := s0, e0;
    s, e := Next(21, s, e, 8, 17); s, e := Next(21, s, e, 5, 19); s, e := Next(21, s, e, 5, 25);
    s, e := Next(21, s, e, 2, 3); s, e := Next(21, s, e, 9, 13); s, e := Next(21, s, e, 6, 27);
    s, e := Next(21, s, e, 4, 15); s, e := Next(21, s, e, 12, 9);
    assert s == s0 + D3;
  }

  lemma D4Exponent(s0: seq<(nat, nat)>, e0: nat)
    requires W.Horner(21, s0) == e0
    ensures W.Horner(21, s0 + D4) == e0 * 0x8000000000 + 0x98fb2042b
  {
    hide W.Horner;
    var s, e := s0, e0;
    s, e := Next(21, s, e, 8, 19); s, e := Next(21, s, e, 8, 31); s, e := Next(21, s, e, 6, 25);
    s, e := Next(21, s, e, 7, 1); s, e := Next(21, s, e, 9, 21); s, e := Next(21, s, e, 1, 1);
    assert s == s0 + D4;
  }

  lemma DExponent()
    ensures W.Shifted(W.Horner(21, D_STEPS), 0) == D
  {
    hide W.Horner;
    HornerStart(21);
    assert [] + D0 == D0 && [] + Y0 == Y0;
    D0Exponent([], 0x15);
    D1Exponent(D0, 0x2aebe31ac253f);
    D2Exponent(D0 + D1, 0x55d7c63584a7e8799616655d);
    D3Exponent(D0 + D1 + D2, 0x2aebe31ac253f43ccb0b32aeae1936fb36645);
    D4Exponent(D0 + D1 + D2 + D3, 0x1575f18d6129fa1e65859957570c9b7d9b32288cf3835bf009);
    ShiftedValue(0xabaf8c6b094fd0f32c2ccabab864dbecd99144679c1adf804898fb2042b, 0);
  }

  lemma Y0Exponent(s0: seq<(nat, nat)>, e0: nat)
    requires W.Horner(21, s0) == e0
    ensures W.Horner(21, s0 + Y0) == e0 * 0x4000000000000 + 0xc9f83ec68359
  {
    hide W.Horner;
    var s, e := s0, e0;
    s, e := Next(21, s, e, 7, 25); s, e := Next(21, s, e, 7, 31); s, e := Next(21, s, e, 1, 1);
    s, e := Next(21, s, e, 10, 31); s, e := Next(21, s, e, 3, 3); s, e := Next(21, s, e, 7, 13);
    s, e := Next(21, s, e, 9, 13); s, e := Next(21, s, e, 6, 25);
    assert s == s0 + Y0;
  }

  lemma Y1Exponent(s0: seq<(nat, nat)>, e0: nat)
    requires W.Horner(21, s0) == e0
    ensures W.Horner(21, s0 + Y1) == e0 * 0x4000000000000 + 0x29d98a08d6813
  {
    hide W.Horner;
    var s, e := s0, e0;
    s, e := Next(21, s, e, 3, 5); s, e := Next(21, s, e, 7, 29); s, e := Next(21, s, e, 5, 19);
    s, e := Next(21, s, e, 6, 5); s, e := Next(21, s, e, 10, 17); s, e := Next(21, s, e, 5, 21);
    s, e := Next(21, s, e, 3, 5); s, e := Next(21, s, e, 11, 19);
    assert s == s0 + Y1;
  }

  lemma Y2Exponent(s0: seq<(nat, nat)>, e0: nat)
    requires W.Horner(21, s0) == e0
    ensures W.Horner(21, s0 + Y2) == e0 * 0x40000000000 + 0x2e452a89e35
  {
    hide W.Horner;
    var s, e := s0, e0;
    s, e := Next(21, s, e, 5, 23); s, e := Next(21, s, e, 7, 17); s, e := Next(21, s, e, 5, 9);
    s, e := Next(21, s, e, 6, 21); s, e := Next(21, s, e, 8, 19); s, e := Next(21, s, e, 2, 3);
    s, e := Next(21, s, e, 7, 13); s, e := Next(21, s, e, 2, 1);
    assert s == s0 + Y2;
  }

  lemma Y3Exponent(s0: seq<(nat, nat)>, e0: nat)
    requires W.Horner(21, s0) == e0
    ensures W.Horner(21, s0 + Y3) == e0 * 0x80000000000000 + 0x1d10bccb0db8f
  {
    hide W.Horner;
    var s, e := s0, e0;
    s, e := Next(21, s, e, 11, 29); s, e := Next(21, s, e, 4, 1); s, e := Next(21, s, e, 9, 23);
    s, e := Next(21, s, e, 5, 19); s, e := Next(21, s, e, 6, 11); s, e := Next(21, s, e, 9, 27);
    s, e := Next(21, s, e, 4, 7); s, e := Next(21, s, e, 7, 15);
    assert s == s0 + Y3;
  }

  lemma Y4Exponent(s0: seq<(nat, nat)>, e0: nat)
    requires W.Horner(21, s0) == e0
    ensures W.Horner(21, s0 + Y4) == e0 * 0x40000000 + 0x548d05f
  {
    hide W.Horner;
    var s, e := s0, e0;
    s, e := Next(21, s, e, 8, 21); s, e := Next(21, s, e, 7, 17); s, e := Next(21, s, e, 3, 5);
    s, e := Next(21, s, e, 10, 23); s, e := Next(21, s, e, 2, 3);
    assert s == s0 + Y4;
  }

  lemma YExponent()
    ensures W.Shifted(W.Horner(21, Y_STEPS), 3) == Y
  {
    hide W.Horner;
    HornerStart(21);
    assert [] + D0 == D0 && [] + Y0 == Y0;
    Y0Exponent([], 0x15);
    Y1Exponent(Y0, 0x54c9f83ec68359);
    Y2Exponent(Y0 + Y1, 0x15327e0fb1a0d669d98a08d6813);
    Y3Exponent(Y0 + Y1 + Y2, 0x54c9f83ec68359a76628235a04ee452a89e35);
    Y4Exponent(Y0 + Y1 + Y2 + Y3, 0x2a64fc1f6341acd3b31411ad0277229544f1a81d10bccb0db8f);
    ShiftedValue(0xa993f07d8d06b34ecc5046b409dc8a5513c6a07442f32c36e3c548d05f, 3);
  }

  // ----------------------------------------------------- running the programs

  /** The exponent a program leaves in `t`. */
  ghost predicate Computes(code: seq<W.Instr>, e: nat)
  {
    var r := W.Exponents(code);
    r.Some? && W.Acc in r.value && r.value[W.Acc] == e
  }

  lemma HeaderComputes(max: nat, first: nat, steps: seq<(nat, nat)>, tail: nat, e: nat)
    requires W.OddWindows(max, first, steps) && W.Shifted(W.Horner(first, steps), tail) == e
    ensures Computes(W.Unrolled(max, first, steps) + W.Squares(tail), e)
  {
    W.UnrolledHolds(max, first, steps);
    W.SquaresHold(W.Unrolled(max, first, steps), tail, max, W.Horner(first, steps));
  }

  /** The number of binary digits below 32. */
  function Width(v: nat): nat
  {
    if v < 2 then 1 else if v < 4 then 2 else if v < 8 then 3 else if v < 16 then 4 else 5
  }

  lemma {:induction false} WidthOf(v: nat)
    requires v < 32
    ensures |W.Bits(v)| == Width(v)
  {
    if v >= 2 { WidthOf(v / 2); }
  }

  lemma SmallWidths()
    ensures forall v: nat {:trigger W.Bits(v)} :: v < 32 ==> |W.Bits(v)| == Width(v)
  {
    forall v: nat | v < 32 ensures |W.Bits(v)| == Width(v) { WidthOf(v); }
  }

  lemma D0Greedy()
    ensures W.Greedy(5, 21, D0)
  {
    hide W.Bits;
    SmallWidths();
  }

  lemma D1Greedy()
    ensures W.Greedy(5, 15, D1)
  {
    hide W.Bits;
    SmallWidths();
  }

  lemma D2Greedy()
    ensures W.Greedy(5, 13, D2)
  {
    hide W.Bits;
    SmallWidths();
  }

  lemma D3Greedy()
    ensures W.Greedy(5, 5, D3)
  {
    hide W.Bits;
    SmallWidths();
  }

  lemma D4Greedy()
    ensures W.Greedy(5, 9, D4)
  {
    hide W.Bits;
    SmallWidths();
  }

  lemma Y0Greedy()
    ensures W.Greedy(5, 21, Y0)
  {
    hide W.Bits;
    SmallWidths();
  }

  lemma Y1Greedy()
    ensures W.Greedy(5, 25, Y1)
  {
    hide W.Bits;
    SmallWidths();
  }

  lemma Y2Greedy()
    ensures W.Greedy(5, 19, Y2)
  {
    hide W.Bits;
    SmallWidths();
  }

  lemma Y3Greedy()
    ensures W.Greedy(5, 1, Y3)
  {
    hide W.Bits;
    SmallWidths();
  }

  lemma Y4Greedy()
    ensures W.Greedy(5, 15, Y4)
  {
    hide W.Bits;
    SmallWidths();
  }

  lemma EpsGreedy()
    ensures W.Greedy(4, 11, EPS_STEPS)
  {
    hide W.Bits;
    SmallWidths();
  }

  lemma GreedyChunks(first: nat, a: seq<(nat, nat)>, b: seq<(nat, nat)>, c: seq<(nat, nat)>, d: seq<(nat, nat)>, e: seq<(nat, nat)>)
    requires a != [] && b != [] && c != [] && d != [] && W.Greedy(5, first, a) && W.Greedy(5, a[|a| - 1].1, b)
    requires W.Greedy(5, b[|b| - 1].1, c) && W.Greedy(5, c[|c| - 1].1, d) && W.Greedy(5, d[|d| - 1].1, e)
    ensures W.Greedy(5, first, a + b + c + d + e)
  {
    hide W.Greedy;
    W.GreedyJoined(5, first, a, b);
    W.GreedyJoined(5, first, a + b, c);
    W.GreedyJoined(5, first, a + b + c, d);
    W.GreedyJoined(5, first, a + b + c + d, e);
  }

  lemma HeaderGreedy()
    ensures W.Greedy(4, 11, EPS_STEPS) && W.Greedy(5, 21, D_STEPS) && W.Greedy(5, 21, Y_STEPS)
  {
    hide W.Greedy;
    EpsGreedy();
    D0Greedy(); D1Greedy(); D2Greedy(); D3Greedy(); D4Greedy();
    Y0Greedy(); Y1Greedy(); Y2Greedy(); Y3Greedy(); Y4Greedy();
    GreedyChunks(21, D0, D1, D2, D3, D4);
    GreedyChunks(21, Y0, Y1, Y2, Y3, Y4);
  }

  /** The three programs of the header are what the generator emits for its exponents and windows. */
  lemma HeaderGenerated()
    ensures POW_EPS == W.Generated(EPS, 4) && POW_D == W.Generated(D, 5) && POW_Y == W.Generated(Y, 5)
  {
    hide W.Horner, W.Greedy, W.Unrolled, W.Squares, W.Shifted, W.Generated;
    HeaderGreedy();
    EpsExponent();
    DExponent();
    YExponent();
    assert Pow(2, 4) == 16 && Pow(2, 5) == 32;
    W.GreedyGenerates(4, 11, EPS_STEPS, 2);
    W.GreedyGenerates(5, 21, D_STEPS, 0);
    W.GreedyGenerates(5, 21, Y_STEPS, 3);
  }

  /** The three straight-line programs raise to EPS, D and Y. */
  lemma ProgramExponents()
    ensures Computes(POW_EPS, EPS) && Computes(POW_D, D) && Computes(POW_Y, Y)
  {
    hide W.Horner, W.OddWindows, W.Greedy, W.Unrolled, W.Squares, W.Shifted;
    EpsExponent();
    DExponent();
    YExponent();
    HeaderGreedy();
    assert Pow(2, 4) == 16 && Pow(2, 5) == 32;
    W.GreedyIsOdd(4, 11, EPS_STEPS);
    W.GreedyIsOdd(5, 21, D_STEPS);
    W.GreedyIsOdd(5, 21, Y_STEPS);
    HeaderComputes(15, 11, EPS_STEPS, 2, EPS);
    HeaderComputes(31, 21, D_STEPS, 0, D);
    HeaderComputes(31, 21, Y_STEPS, 3, Y);
  }

  function Times(): (Fe, Fe) -> Fe
  {
    (a, b) => Mul(a, b)
  }

  lemma TimesAssociative()
    ensures W.Associative(Times())
  {
    forall a, b, c ensures Times()(Times()(a, b), c) == Times()(a, Times()(b, c)) { MulAssoc(a, b, c); }
  }

  lemma {:induction false} PowerIsPow(x: Fe, e: nat)
    requires e > 0
    ensures W.Power(x, e, Times()) == Pow(x, e)
  {
    if e == 1 {
      assert Pow(x, 1) == x;
    } else {
      PowerIsPow(x, e - 1);
    }
  }

  /** Runs a straight-line program over field elements, instruction by instruction. */
  method Execute(code: seq<W.Instr>, x: Fe, ghost e: nat) returns (r: Fe)
    requires Computes(code, e)
    ensures e > 0 && r == R(Pow(x, e))
  {
    hide R, Pow;
    var st: W.Store<Fe> := map[W.X(1) := x];
    var i := 0;
    W.RunComputesPowers(code, x, Times()) by { TimesAssociative(); }
    assert code[..|code|] == code;
    while i < |code|
      invariant 0 <= i <= |code|
      invariant W.Run(code[..i], map[W.X(1) := x], Times()) == Some(st)
    {
      RunPrefix(code, i + 1, map[W.X(1) := x], Times());
      assert code[..i + 1][..i] == code[..i];
      st := W.Step(code[i], st, Times()).value;
      i := i + 1;
    }
    r := R(st[W.Acc]);
    PowerIsPow(x, e);
  }

  /** A program that runs to the end runs on every prefix. */
  lemma {:induction false} RunPrefix(code: seq<W.Instr>, n: nat, st: W.Store<Fe>, mul: (Fe, Fe) -> Fe)
    requires n <= |code| && W.Run(code, st, mul).Some?
    ensures W.Run(code[..n], st, mul).Some?
    decreases |code|
  {
    if n < |code| {
      RunPrefix(code[..|code| - 1], n, st, mul);
      assert code[..|code| - 1][..n] == code[..n];
    } else {
      assert code[..n] == code;
    }
  }

  method PowEps(x: Fe) returns (r: Fe)
    ensures r == R(Pow(x, EPS))
  {
    ProgramExponents();
    r := Execute(POW_EPS, x, EPS);
  }

  method PowD(x: Fe) returns (r: Fe)
    ensures r == R(Pow(x, D))
  {
    ProgramExponents();
    r := Execute(POW_D, x, D);
  }

  method PowY(x: Fe) returns (r: Fe)
    ensures r == R(Pow(x, Y))
  {
    ProgramExponents();
    r := Execute(POW_Y, x, Y);
  }

  /** The five low bytes of the canonical residue of x^D. */
  function Symbol(x: Fe): nat
  {
    R(Pow(x, D)) % 0x100_0000_0000
  }

  /** In plain arithmetic: the low 40 bits of x^((p - 1) / 781764) modulo p. */
  lemma SymbolWritten(x: Fe)
    ensures Symbol(x) == Pow(x, (P - 1) / 781764) % P % 0x100_0000_0000
  {
    hide Pow;
    ExponentFacts();
  }

  /** presidue_eps: the bytes are assembled one at a time. */
  method PresidueEps(x: Fe) returns (symbol: nat)
    ensures symbol == Symbol(x)
  {
    var res := PowD(x);
    symbol := 0;
    var i := 0;
    while i < SYMBOL_BYTES
      invariant 0 <= i <= SYMBOL_BYTES && Pow(256, i) > 0 && symbol == res % Pow(256, i)
    {
      ByteOf(res, Pow(256, i));
      symbol := symbol + (res / Pow(256, i) % 256) * Pow(256, i);
      i := i + 1;
    }
    assert Pow(256, 2) == 0x1_0000;
    PowAdd(256, 2, 2);
    PowAdd(256, 4, 1);
  }

  lemma ByteOf(x: nat, q: nat)
    requires q > 0
    ensures 256 * q > 0 && x % q + (x / q % 256) * q == x % (256 * q)
  {
    var a, b := x / q, x / q / 256;
    assert x == a * q + x % q;
    assert a == b * 256 + a % 256;
    assert a * q == (b * 256 + a % 256) * q == b * (256 * q) + (a % 256) * q by {
      MulAssoc(b, 256, q);
    }
    MulMono(a % 256, 255, q);
    ModUnique(x, b, x % q + (a % 256) * q, 256 * q);
  }

  /** The symbol depends on the residue alone. */
  lemma SymbolCongruent(x: Fe, y: Fe)
    requires R(x) == R(y)
    ensures Symbol(x) == Symbol(y)
  {
    PowSame(x, y, D);
  }
}
