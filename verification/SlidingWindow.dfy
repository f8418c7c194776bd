/**
 scripts/generate_fast_ops.py: the generator of straight-line exponentiation programs, the
 meaning of the programs it emits over any associative product, and the three programs of
 fast_residue_25519.h.
 */
module SlidingWindow {
  import opened Numbers
  import opened Wrappers

  /** `X(k)` is the emitted variable `x{k}` (`x` itself for k = 1); `Acc` is `t`. */
  datatype Var = X(k: nat) | Acc

  datatype Instr =
    | Copy(dst: Var, src: Var)
    | Square(dst: Var, src: Var)
    | Mul(dst: Var, a: Var, b: Var)

  type Store<T> = map<Var, T>

  /** One instruction; an unassigned operand makes the program fail. */
  function Step<T>(ins: Instr, st: Store<T>, mul: (T, T) -> T): Option<Store<T>>
  {
    match ins
    case Copy(d, s) => if s in st then Some(st[d := st[s]]) else None
    case Square(d, s) => if s in st then Some(st[d := mul(st[s], st[s])]) else None
    case Mul(d, a, b) => if a in st && b in st then Some(st[d := mul(st[a], st[b])]) else None
  }

  function Run<T>(code: seq<Instr>, st: Store<T>, mul: (T, T) -> T): Option<Store<T>>
  {
    if code == [] then Some(st)
    else
      var n := |code| - 1;
      match Run(code[..n], st, mul)
      case None => None
      case Some(mid) => Step(code[n], mid, mul)
  }

  lemma RunAppend<T>(code: seq<Instr>, ins: Instr, st: Store<T>, mul: (T, T) -> T)
    ensures Run(code + [ins], st, mul) ==
            match Run(code, st, mul) case None => None case Some(mid) => Step(ins, mid, mul)
  {
    assert (code + [ins])[..|code|] == code;
  }

  // ------------------------------------- meaning over any associative product

  function Power<T>(x: T, e: nat, mul: (T, T) -> T): T
    requires e > 0
  {
    if e == 1 then x else mul(Power(x, e - 1, mul), x)
  }

  ghost predicate Associative<T(!new)>(mul: (T, T) -> T)
  {
    forall a, b, c :: mul(mul(a, b), c) == mul(a, mul(b, c))
  }

  lemma {:induction false} PowerAdd<T(!new)>(x: T, d: nat, e: nat, mul: (T, T) -> T)
    requires Associative(mul) && d > 0 && e > 0
    ensures Power(x, d + e, mul) == mul(Power(x, d, mul), Power(x, e, mul))
    decreases e
  {
    if e > 1 {
      PowerAdd(x, d, e - 1, mul);
    }
  }

  /** Running a program on exponents: the product becomes a sum. */
  const PLUS: (nat, nat) -> nat := (a, b) => a + b

  function Exponents(code: seq<Instr>): Option<Store<nat>>
  {
    Run(code, map[X(1) := 1], PLUS)
  }

  ghost predicate Tracks<T>(st: Store<T>, exps: Store<nat>, x: T, mul: (T, T) -> T)
  {
    st.Keys == exps.Keys && forall v :: v in st ==> exps[v] > 0 && st[v] == Power(x, exps[v], mul)
  }

  lemma StepTracks<T(!new)>(ins: Instr, st: Store<T>, exps: Store<nat>, x: T, mul: (T, T) -> T)
    requires Associative(mul) && Tracks(st, exps, x, mul)
    ensures match Step(ins, exps, PLUS)
            case None => Step(ins, st, mul) == None
            case Some(exps') => Step(ins, st, mul).Some? && Tracks(Step(ins, st, mul).value, exps', x, mul)
  {
    hide Power;
    match ins
    case Copy(d, s) =>
    case Square(d, s) =>
      if s in exps { PowerAdd(x, exps[s], exps[s], mul); }
    case Mul(d, a, b) =>
      if a in exps && b in exps { PowerAdd(x, exps[a], exps[b], mul); }
  }

  /** A program computes, in every variable, the power of x that its exponent run predicts. */
  lemma {:induction false} RunComputesPowers<T(!new)>(code: seq<Instr>, x: T, mul: (T, T) -> T)
    requires Associative(mul)
    ensures match Exponents(code)
            case None => Run(code, map[X(1) := x], mul) == None
            case Some(exps) =>
              var r := Run(code, map[X(1) := x], mul);
              r.Some? && Tracks(r.value, exps, x, mul)
  {
    if code != [] {
      var n := |code| - 1;
      RunComputesPowers(code[..n], x, mul);
      if Exponents(code[..n]).Some? {
        StepTracks(code[n], Run(code[..n], map[X(1) := x], mul).value, Exponents(code[..n]).value, x, mul);
      }
    }
  }

  // ------------------------------------------------------- binary exponents

  /** bin(exp)[2:], most significant bit first. */
  function Bits(e: nat): seq<nat>
  {
    if e < 2 then [e] else Bits(e / 2) + [e % 2]
  }

  function BitsValue(b: seq<nat>): nat
  {
    if b == [] then 0 else 2 * BitsValue(b[..|b| - 1]) + b[|b| - 1]
  }

  ghost predicate IsBits(b: seq<nat>)
  {
    forall i :: 0 <= i < |b| ==> b[i] <= 1
  }

  lemma {:induction false} BitsRoundTrip(e: nat)
    ensures BitsValue(Bits(e)) == e && IsBits(Bits(e)) && |Bits(e)| > 0
    ensures e > 0 ==> Bits(e)[0] == 1
  {
    if e < 2 {
      assert [e][..0] == [];
    } else {
      BitsRoundTrip(e / 2);
      assert (Bits(e / 2) + [e % 2])[..|Bits(e / 2)|] == Bits(e / 2);
    }
  }

  lemma {:induction false} BitsValueSplit(b: seq<nat>, i: nat, m: nat)
    requires i + m <= |b|
    ensures BitsValue(b[..i + m]) == Shifted(BitsValue(b[..i]), m) + BitsValue(b[i..i + m])
  {
    if m > 0 {
      BitsValueSplit(b, i, m - 1);
      var u, v := b[..i + m], b[i..i + m];
      assert u[..|u| - 1] == b[..i + m - 1];
      assert v[..|v| - 1] == b[i..i + m - 1];
    } else {
      assert b[i..i] == [];
    }
  }

  /** `v` after `m` doublings. */
  function Shifted(v: nat, m: nat): nat
  {
    if m == 0 then v else 2 * Shifted(v, m - 1)
  }

  lemma {:induction false} BitsValueBound(b: seq<nat>)
    requires IsBits(b)
    ensures BitsValue(b) < Pow(2, |b|)
  {
    if b != [] { BitsValueBound(b[..|b| - 1]); }
  }

  lemma {:induction false} PowTwoMono(m: nat, n: nat)
    requires m <= n
    ensures 0 < Pow(2, m) <= Pow(2, n)
    decreases n
  {
    if m < n { PowTwoMono(m, n - 1); } else { PowPositive(2, m); }
  }

  // ------------------------------------------------------------ the generator

  /** The precomputed variables: x2 and every odd power up to `max`. */
  ghost predicate HasTable(exps: Store<nat>, max: int)
  {
    && X(1) in exps && exps[X(1)] == 1
    && X(2) in exps && exps[X(2)] == 2
    && forall k: nat :: k % 2 == 1 && k <= max ==> X(k) in exps && exps[X(k)] == k
  }

  function TableEntry(k: nat): Instr
    requires k >= 3
  {
    Mul(X(k), X(2), if k == 3 then X(1) else X(k - 2))
  }

  lemma TableStep(code: seq<Instr>, k: nat)
    requires k >= 3 && k % 2 == 1 && Exponents(code).Some? && HasTable(Exponents(code).value, k - 1)
    ensures var r := Exponents(code + [TableEntry(k)]); r.Some? && HasTable(r.value, k + 1)
  {
    RunAppend(code, TableEntry(k), map[X(1) := 1], PLUS);
  }

  lemma TableStart()
    ensures var r := Exponents([Square(X(2), X(1))]); r.Some? && HasTable(r.value, 2)
  {
    RunAppend([], Square(X(2), X(1)), map[X(1) := 1], PLUS);
    assert [] + [Square(X(2), X(1))] == [Square(X(2), X(1))];
  }

  /** The table of x2 and the odd powers up to `max`. */
  function Table(max: nat): seq<Instr>
  {
    if max < 3 then [Square(X(2), X(1))]
    else if max % 2 == 0 then Table(max - 1)
    else Table(max - 2) + [TableEntry(max)]
  }

  function Squares(n: nat): (code: seq<Instr>)
    ensures |code| == n
  {
    if n == 0 then [] else Squares(n - 1) + [Square(Acc, Acc)]
  }

  method EmitTable(w: nat) returns (code: seq<Instr>)
    requires w >= 1
    ensures Pow(2, w) >= 2 && code == Table(Pow(2, w) - 1)
    ensures Exponents(code).Some? && HasTable(Exponents(code).value, Pow(2, w) - 1)
  {
    hide Exponents, HasTable, Pow, Table;
    PowTwoMono(1, w);
    OddMax(w);
    var max := Pow(2, w) - 1;
    code := [Square(X(2), X(1))];
    TableStart();
    SmallTable();
    var k := 3;
    while k <= max
      invariant 3 <= k <= max + 2 && k % 2 == 1 && code == Table(k - 1)
      invariant Exponents(code).Some? && HasTable(Exponents(code).value, k - 1)
    {
      TableStep(code, k);
      NextTable(k);
      code := code + [TableEntry(k)];
      k := k + 2;
    }
    TableEven(Exponents(code).value, max);
  }

  lemma OddMax(w: nat)
    requires w >= 1
    ensures Pow(2, w) >= 2 && (Pow(2, w) - 1) % 2 == 1
  {
    PowTwoMono(1, w);
    assert Pow(2, 1) == 2;
  }

  lemma SmallTable()
    ensures Table(2) == [Square(X(2), X(1))]
  {}

  lemma NextTable(k: nat)
    requires k >= 3 && k % 2 == 1
    ensures Table(k + 1) == Table(k) == Table(k - 1) + [TableEntry(k)]
  {
    assert Table(k - 1) == Table(k - 2);
  }

  lemma TableEven(exps: Store<nat>, max: nat)
    requires max % 2 == 1 && HasTable(exps, max + 1)
    ensures HasTable(exps, max) && Table(max + 1) == Table(max)
  {}

  /** The length of the longest window of at most `m` bits that starts at `i` and ends in 1. */
  function LastOne(bits: seq<nat>, i: nat, m: nat): (len: nat)
    requires i < |bits| && bits[i] == 1 && m >= 1
    ensures 1 <= len <= m && i + len <= |bits| && bits[i + len - 1] == 1
    ensures forall k :: i + len <= k < i + m && k < |bits| ==> bits[k] != 1
  {
    if m == 1 || (i + m <= |bits| && bits[i + m - 1] == 1) then m else LastOne(bits, i, m - 1)
  }

  /** What is emitted from bit `i` on. */
  function Body(bits: seq<nat>, i: nat, w: nat, isFirst: bool): seq<Instr>
    requires IsBits(bits) && i <= |bits| && w >= 1
    decreases |bits| - i
  {
    if i == |bits| then []
    else if bits[i] == 0 then (if isFirst then [] else [Square(Acc, Acc)]) + Body(bits, i + 1, w, isFirst)
    else
      var len := LastOne(bits, i, w);
      var val := BitsValue(bits[i..i + len]);
      (if isFirst then [Copy(Acc, X(val))] else Squares(len) + [Mul(Acc, Acc, X(val))]) + Body(bits, i + len, w, false)
  }

  /** The program for an exponent and a window. */
  function Generated(exp: nat, w: nat): seq<Instr>
    requires w >= 1
  {
    BitsRoundTrip(exp);
    OddMax(w);
    Table(Pow(2, w) - 1) + Body(Bits(exp), 0, w, true)
  }

  lemma BodyZero(bits: seq<nat>, i: nat, w: nat, isFirst: bool)
    requires IsBits(bits) && i < |bits| && w >= 1 && bits[i] == 0
    ensures Body(bits, i, w, isFirst) == (if isFirst then [] else [Square(Acc, Acc)]) + Body(bits, i + 1, w, isFirst)
  {}

  lemma BodyOne(bits: seq<nat>, i: nat, w: nat, isFirst: bool, len: nat, val: nat)
    requires IsBits(bits) && i < |bits| && w >= 1 && bits[i] == 1 && len == LastOne(bits, i, w)
    requires val == BitsValue(bits[i..i + len])
    ensures Body(bits, i, w, isFirst)
         == (if isFirst then [Copy(Acc, X(val))] else Squares(len) + [Mul(Acc, Acc, X(val))]) + Body(bits, i + len, w, false)
  {
    hide LastOne, BitsValue, Squares;
  }

  lemma BodyEnd(bits: seq<nat>, w: nat, isFirst: bool)
    requires IsBits(bits) && w >= 1
    ensures Body(bits, |bits|, w, isFirst) == []
  {}

  lemma OneWindow(bits: seq<nat>, i: nat, w: nat, m: nat, n: nat)
    requires IsBits(bits) && 1 <= m <= w && 1 <= n <= w && i + m <= |bits| && i + n <= |bits|
    requires bits[i + m - 1] == 1 == bits[i + n - 1]
    requires forall k :: i + m <= k < i + w && k < |bits| ==> bits[k] == 0
    requires forall k :: i + n <= k < i + w && k < |bits| ==> bits[k] != 1
    ensures m == n
  {}

  /** The look-ahead: the longest window of at most `w` bits starting at `i` and ending in 1. */
  method WindowLength(bits: seq<nat>, i: nat, w: nat) returns (len: nat)
    requires IsBits(bits) && i < |bits| && bits[i] == 1 && w >= 1
    ensures 1 <= len <= w && i + len <= |bits| && bits[i + len - 1] == 1
    ensures len == LastOne(bits, i, w)
  {
    len := 1;
    var j := 1;
    while j < w + 1
      invariant 1 <= j <= w + 1
      invariant 1 <= len <= w && i + len <= |bits| && bits[i + len - 1] == 1
      invariant forall m :: i + len <= m < i + j - 1 && m < |bits| ==> bits[m] == 0
    {
      if i + j <= |bits| && bits[i + j - 1] == 1 { len := j; }
      j := j + 1;
    }
    OneWindow(bits, i, w, len, LastOne(bits, i, w));
  }

  /** A window value is odd and indexes a precomputed variable. */
  lemma WindowValue(bits: seq<nat>, i: nat, len: nat, w: nat)
    requires IsBits(bits) && 1 <= len <= w && i + len <= |bits| && bits[i + len - 1] == 1
    ensures BitsValue(bits[i..i + len]) % 2 == 1
    ensures 1 <= BitsValue(bits[i..i + len]) <= Pow(2, w) - 1
  {
    var b := bits[i..i + len];
    BitsValueBound(b);
    PowTwoMono(len, w);
  }

  ghost predicate Holds(code: seq<Instr>, max: int, e: nat)
  {
    && Exponents(code).Some? && HasTable(Exponents(code).value, max)
    && Acc in Exponents(code).value && Exponents(code).value[Acc] == e
  }

  lemma HoldsSquare(code: seq<Instr>, max: int, e: nat)
    requires Holds(code, max, e)
    ensures Holds(code + [Square(Acc, Acc)], max, 2 * e)
  {
    RunAppend(code, Square(Acc, Acc), map[X(1) := 1], PLUS);
  }

  lemma HoldsMul(code: seq<Instr>, max: int, e: nat, k: nat)
    requires Holds(code, max, e) && k % 2 == 1 && k <= max
    ensures Holds(code + [Mul(Acc, Acc, X(k))], max, e + k)
  {
    RunAppend(code, Mul(Acc, Acc, X(k)), map[X(1) := 1], PLUS);
  }

  lemma HoldsCopy(code: seq<Instr>, max: int, k: nat)
    requires Exponents(code).Some? && HasTable(Exponents(code).value, max) && k % 2 == 1 && k <= max
    ensures Holds(code + [Copy(Acc, X(k))], max, k)
  {
    RunAppend(code, Copy(Acc, X(k)), map[X(1) := 1], PLUS);
  }

  method EmitSquares(code: seq<Instr>, n: nat, ghost max: int, ghost e: nat) returns (out: seq<Instr>)
    requires Holds(code, max, e)
    ensures Holds(out, max, Shifted(e, n)) && out == code + Squares(n)
  {
    out := code;
    var m := 0;
    while m < n
      invariant 0 <= m <= n && Holds(out, max, Shifted(e, m)) && out == code + Squares(m)
    {
      HoldsSquare(out, max, Shifted(e, m));
      out := out + [Square(Acc, Acc)];
      m := m + 1;
    }
  }

  /**
   get_sliding_window_code: for every exponent and window the emitted program assigns every
   variable before reading it and leaves the exponent `exp` in `t`.
   */
  method Emit(exp: nat, w: nat) returns (code: seq<Instr>)
    requires exp >= 1 && w >= 2
    ensures Exponents(code).Some? && Acc in Exponents(code).value
    ensures Exponents(code).value[Acc] == exp && code == Generated(exp, w)
  {
    hide Exponents, HasTable, Holds, Body, Bits, Pow, Table, LastOne, BitsValue, Squares, Shifted;
    BitsRoundTrip(exp);
    var bits := Bits(exp);
    code := EmitTable(w);
    ghost var max := Pow(2, w) - 1;
    var i := 0;
    var isFirst := true;
    assert bits[..0] == [];
    while i < |bits|
      invariant 0 <= i <= |bits| && isFirst == (i == 0)
      invariant isFirst ==> Exponents(code).Some? && HasTable(Exponents(code).value, max)
      invariant !isFirst ==> Holds(code, max, BitsValue(bits[..i]))
      invariant code + Body(bits, i, w, isFirst) == Generated(exp, w)
    {
      if bits[i] == 0 {
        BodyZero(bits, i, w, isFirst);
        if !isFirst {
          HoldsSquare(code, max, BitsValue(bits[..i]));
          code := code + [Square(Acc, Acc)];
        }
        ZeroBit(bits, i);
        i := i + 1;
      } else {
        var len := WindowLength(bits, i, w);
        var val := BitsValue(bits[i..i + len]);
        WindowValue(bits, i, len, w);
        BitsValueSplit(bits, i, len);
        BodyOne(bits, i, w, isFirst, len, val);
        if isFirst {
          HoldsCopy(code, max, val);
          code := code + [Copy(Acc, X(val))];
          ShiftedZero(len);
          NoBits();
          isFirst := false;
        } else {
          code := EmitSquares(code, len, max, BitsValue(bits[..i]));
          HoldsMul(code, max, Shifted(BitsValue(bits[..i]), len), val);
          code := code + [Mul(Acc, Acc, X(val))];
        }
        i := i + len;
      }
    }
    assert bits[..|bits|] == bits;
    BodyEnd(bits, w, isFirst);
    HoldsMeans(code, max, exp);
  }

  lemma NoBits()
    ensures BitsValue([]) == 0
  {}

  lemma ZeroBit(bits: seq<nat>, i: nat)
    requires i < |bits| && bits[i] == 0
    ensures BitsValue(bits[..i + 1]) == 2 * BitsValue(bits[..i])
  {
    assert bits[..i + 1][..i] == bits[..i];
  }

  lemma HoldsMeans(code: seq<Instr>, max: int, e: nat)
    requires Holds(code, max, e)
    ensures Exponents(code).Some? && Acc in Exponents(code).value && Exponents(code).value[Acc] == e
  {}

  /** Running such a program over any associative product leaves x^exp in `t`. */
  lemma EmittedPower<T(!new)>(code: seq<Instr>, exp: nat, x: T, mul: (T, T) -> T)
    requires Associative(mul) && Exponents(code).Some? && Acc in Exponents(code).value && Exponents(code).value[Acc] == exp
    ensures exp > 0
    ensures var r := Run(code, map[X(1) := x], mul); r.Some? && Acc in r.value && r.value[Acc] == Power(x, exp, mul)
  {
    hide Power;
    RunComputesPowers(code, x, mul);
  }

  lemma {:induction false} ShiftedZero(m: nat)
    ensures Shifted(0, m) == 0
  {
    if m > 0 { ShiftedZero(m - 1); }
  }

  // ------------------------------------------- the programs in the C++ header

  /** Table code, first copy, then (squarings, window) pairs. */
  function Unrolled(max: nat, first: nat, steps: seq<(nat, nat)>): seq<Instr>
  {
    if steps == [] then Table(max) + [Copy(Acc, X(first))]
    else
      var n := |steps| - 1;
      Unrolled(max, first, steps[..n]) + Squares(steps[n].0) + [Mul(Acc, Acc, X(steps[n].1))]
  }

  /** The exponent read off the window list. */
  function Horner(first: nat, steps: seq<(nat, nat)>): nat
  {
    if steps == [] then first
    else
      var n := |steps| - 1;
      Shifted(Horner(first, steps[..n]), steps[n].0) + steps[n].1
  }

  /** An even bound adds no odd entry. */
  lemma EvenTable(exps: Option<Store<nat>>, max: nat)
    requires max > 0 && max % 2 == 0 && exps.Some? && HasTable(exps.value, max - 1)
    ensures HasTable(exps.value, max)
  {}

  lemma {:induction false} TableHolds(max: nat)
    ensures Exponents(Table(max)).Some? && HasTable(Exponents(Table(max)).value, max)
  {
    hide Exponents;
    if max < 3 {
      TableStart();
    } else if max % 2 == 0 {
      TableHolds(max - 1);
      EvenTable(Exponents(Table(max)), max);
    } else {
      TableHolds(max - 2);
      EvenTable(Exponents(Table(max - 2)), max - 1);
      TableStep(Table(max - 2), max);
    }
  }

  lemma {:induction false} SquaresHold(code: seq<Instr>, n: nat, max: int, e: nat)
    requires Holds(code, max, e)
    ensures Holds(code + Squares(n), max, Shifted(e, n))
  {
    if n == 0 {
      assert code + [] == code;
    } else {
      SquaresHold(code, n - 1, max, e);
      HoldsSquare(code + Squares(n - 1), max, Shifted(e, n - 1));
      assert code + Squares(n) == code + Squares(n - 1) + [Square(Acc, Acc)];
    }
  }

  ghost predicate OddWindows(max: nat, first: nat, steps: seq<(nat, nat)>)
  {
    && first % 2 == 1 && first <= max
    && forall i :: 0 <= i < |steps| ==> steps[i].1 % 2 == 1 && steps[i].1 <= max
  }

  lemma {:induction false} UnrolledHolds(max: nat, first: nat, steps: seq<(nat, nat)>)
    requires OddWindows(max, first, steps)
    ensures Holds(Unrolled(max, first, steps), max, Horner(first, steps))
  {
    if steps == [] {
      TableHolds(max);
      HoldsCopy(Table(max), max, first);
    } else {
      var n := |steps| - 1;
      UnrolledHolds(max, first, steps[..n]);
      var code, e := Unrolled(max, first, steps[..n]), Horner(first, steps[..n]);
      SquaresHold(code, steps[n].0, max, e);
      HoldsMul(code + Squares(steps[n].0), max, Shifted(e, steps[n].0), steps[n].1);
    }
  }

  // --------------------------------- window lists that the generator produces

  function Zeros(n: nat): (z: seq<nat>)
    ensures |z| == n && forall i :: 0 <= i < n ==> z[i] == 0
  {
    seq(n, _ => 0)
  }

  /** Squarings of a step that are not those of its window. */
  function Gap(step: (nat, nat)): int
  {
    step.0 - |Bits(step.1)|
  }

  /** Every window is odd, fits, and is followed by zeros as far as the look-ahead reaches. */
  ghost predicate Greedy(w: nat, first: nat, steps: seq<(nat, nat)>)
  {
    && first % 2 == 1 && |Bits(first)| <= w
    && forall j :: 0 <= j < |steps| ==>
         && steps[j].1 % 2 == 1 && |Bits(steps[j].1)| <= w && Gap(steps[j]) >= 0
         && |Bits(Before(first, steps, j))| + Gap(steps[j]) >= w
  }

  /** The window before step `j`. */
  function Before(first: nat, steps: seq<(nat, nat)>, j: nat): nat
    requires j <= |steps|
  {
    if j == 0 then first else steps[j - 1].1
  }

  lemma GreedyJoined(w: nat, first: nat, a: seq<(nat, nat)>, b: seq<(nat, nat)>)
    requires Greedy(w, first, a) && Greedy(w, Before(first, a, |a|), b)
    ensures Greedy(w, first, a + b)
  {
    hide Bits, Gap;
    var c := a + b;
    forall j | 0 <= j < |c|
      ensures |Bits(Before(first, c, j))| + Gap(c[j]) >= w
      ensures c[j].1 % 2 == 1 && |Bits(c[j].1)| <= w && Gap(c[j]) >= 0
    {
      if j < |a| {
        assert c[j] == a[j] && Before(first, c, j) == Before(first, a, j);
      } else {
        assert c[j] == b[j - |a|] && Before(first, c, j) == Before(Before(first, a, |a|), b, j - |a|);
      }
    }
  }

  /** The bits that a window list spells. */
  function Text(first: nat, steps: seq<(nat, nat)>): (b: seq<nat>)
    requires forall j :: 0 <= j < |steps| ==> Gap(steps[j]) >= 0
    ensures |b| > 0
  {
    if steps == [] then Bits(first)
    else
      var n := |steps| - 1;
      Text(first, steps[..n]) + Zeros(Gap(steps[n])) + Bits(steps[n].1)
  }

  lemma {:induction false} JoinedValue(a: seq<nat>, b: seq<nat>)
    ensures BitsValue(a + b) == Shifted(BitsValue(a), |b|) + BitsValue(b)
  {
    assert (a + b)[..|a|] == a && (a + b)[|a|..|a| + |b|] == b && (a + b)[..|a| + |b|] == a + b;
    BitsValueSplit(a + b, |a|, |b|);
  }

  lemma {:induction false} ZerosValue(n: nat)
    ensures BitsValue(Zeros(n)) == 0
  {
    if n > 0 {
      assert Zeros(n)[..n - 1] == Zeros(n - 1);
      ZerosValue(n - 1);
    }
  }

  /** Leading zeros do not count. */
  lemma PaddedValue(n: nat, v: nat)
    ensures BitsValue(Zeros(n) + Bits(v)) == v
  {
    JoinedValue(Zeros(n), Bits(v));
    ZerosValue(n);
    ShiftedZero(|Bits(v)|);
    BitsRoundTrip(v);
  }

  lemma StepText(step: (nat, nat))
    requires Gap(step) >= 0
    ensures var b := Zeros(Gap(step)) + Bits(step.1); |b| == step.0 && BitsValue(b) == step.1 && IsBits(b)
  {
    hide Bits, BitsValue;
    PaddedValue(Gap(step), step.1);
    BitsRoundTrip(step.1);
  }

  lemma {:induction false} TextValue(first: nat, steps: seq<(nat, nat)>)
    requires first > 0 && forall j :: 0 <= j < |steps| ==> Gap(steps[j]) >= 0
    ensures BitsValue(Text(first, steps)) == Horner(first, steps) && IsBits(Text(first, steps)) && Text(first, steps)[0] == 1
  {
    hide Bits, BitsValue, Gap;
    BitsRoundTrip(first);
    if steps != [] {
      var n := |steps| - 1;
      TextValue(first, steps[..n]);
      var a, b := Text(first, steps[..n]), Zeros(Gap(steps[n])) + Bits(steps[n].1);
      assert Text(first, steps) == a + b;
      JoinedValue(a, b);
      StepText(steps[n]);
    }
  }

  /** A number has one spelling that starts with a one. */
  lemma {:induction false} BitsUnique(b: seq<nat>)
    requires IsBits(b) && |b| > 0 && b[0] == 1
    ensures Bits(BitsValue(b)) == b && BitsValue(b) >= 1
  {
    hide Bits;
    var n := |b| - 1;
    if n == 0 {
      assert b[..0] == [] && b == [1] && BitsValue(b) == 1;
      BitsOfOne();
    } else {
      BitsUnique(b[..n]);
      BitsSnoc(BitsValue(b[..n]), b[n]);
      assert b == b[..n] + [b[n]];
    }
  }

  lemma BitsOfOne()
    ensures Bits(1) == [1]
  {}

  lemma BitsSnoc(e: nat, d: nat)
    requires e >= 1 && d <= 1
    ensures Bits(2 * e + d) == Bits(e) + [d]
  {}

  lemma {:induction false} TextPrefix(first: nat, steps: seq<(nat, nat)>, j: nat)
    requires j <= |steps| && forall k :: 0 <= k < |steps| ==> Gap(steps[k]) >= 0
    ensures var a, b := Text(first, steps[..j]), Text(first, steps); |a| <= |b| && b[..|a|] == a
    decreases |steps|
  {
    if j == |steps| {
      assert steps[..j] == steps;
    } else {
      var n := |steps| - 1;
      TextPrefix(first, steps[..n], j);
      assert steps[..n][..j] == steps[..j];
    }
  }

  lemma TextNext(first: nat, steps: seq<(nat, nat)>, j: nat)
    requires j < |steps| && forall k :: 0 <= k < |steps| ==> Gap(steps[k]) >= 0
    ensures Text(first, steps[..j + 1]) == Text(first, steps[..j]) + Zeros(Gap(steps[j])) + Bits(steps[j].1)
  {
    hide Bits, Gap;
    assert steps[..j + 1][..j] == steps[..j];
  }

  /** The code of the windows, without the table. */
  function Windows(first: nat, steps: seq<(nat, nat)>): seq<Instr>
  {
    if steps == [] then [Copy(Acc, X(first))]
    else
      var n := |steps| - 1;
      Windows(first, steps[..n]) + Squares(steps[n].0) + [Mul(Acc, Acc, X(steps[n].1))]
  }

  lemma {:induction false} UnrolledParts(max: nat, first: nat, steps: seq<(nat, nat)>)
    ensures Unrolled(max, first, steps) == Table(max) + Windows(first, steps)
  {
    if steps != [] { UnrolledParts(max, first, steps[..|steps| - 1]); }
  }

  lemma {:induction false} SquaresAdd(m: nat, n: nat)
    ensures Squares(m) + Squares(n) == Squares(m + n)
  {
    if n > 0 { SquaresAdd(m, n - 1); }
  }

  lemma SquareFirst(n: nat)
    ensures [Square(Acc, Acc)] + Squares(n) == Squares(n + 1)
  {
    SquaresAdd(1, n);
    assert Squares(1) == Squares(0) + [Square(Acc, Acc)] == [Square(Acc, Acc)];
  }

  /** A run of zeros is a run of squarings. */
  lemma {:induction false} BodyZeros(bits: seq<nat>, i: nat, n: nat, w: nat)
    requires IsBits(bits) && i + n <= |bits| && w >= 1 && forall k :: i <= k < i + n ==> bits[k] == 0
    ensures Body(bits, i, w, false) == Squares(n) + Body(bits, i + n, w, false)
    decreases n
  {
    hide Squares, Body, LastOne;
    if n == 0 {
      assert Squares(0) == [];
    } else {
      BodyZero(bits, i, w, false);
      BodyZeros(bits, i + 1, n - 1, w);
      SquareFirst(n - 1);
    }
  }

  /** A window and the zeros behind it. */
  lemma BodyWindow(bits: seq<nat>, i: nat, v: nat, w: nat, isFirst: bool)
    requires IsBits(bits) && w >= 1 && v % 2 == 1 && |Bits(v)| <= w && i + |Bits(v)| <= |bits|
    requires bits[i..i + |Bits(v)|] == Bits(v)
    requires forall k :: i + |Bits(v)| <= k < i + w && k < |bits| ==> bits[k] == 0
    ensures Body(bits, i, w, isFirst)
         == (if isFirst then [Copy(Acc, X(v))] else Squares(|Bits(v)|) + [Mul(Acc, Acc, X(v))])
            + Body(bits, i + |Bits(v)|, w, false)
  {
    hide Squares, Body, Bits, BitsValue, LastOne;
    BitsRoundTrip(v);
    LastBit(v);
    var n := |Bits(v)|;
    assert bits[i] == bits[i..i + n][0] && bits[i + n - 1] == bits[i..i + n][n - 1];
    OneWindow(bits, i, w, n, LastOne(bits, i, w));
    BodyOne(bits, i, w, isFirst, n, v);
  }

  lemma LastBit(v: nat)
    ensures |Bits(v)| > 0 && Bits(v)[|Bits(v)| - 1] == v % 2
  {}

  /** The zeros behind the first `j` windows. */
  lemma ZerosBehind(w: nat, first: nat, steps: seq<(nat, nat)>, tail: nat, j: nat, k: nat)
    requires Greedy(w, first, steps) && j <= |steps|
    requires var at := |Text(first, steps[..j])|;
      at <= k < at - |Bits(Before(first, steps, j))| + w && k < |Text(first, steps) + Zeros(tail)|
    ensures (Text(first, steps) + Zeros(tail))[k] == 0
  {
    hide Bits, Gap, Text;
    if j < |steps| {
      TextPrefix(first, steps, j + 1);
      TextNext(first, steps, j);
      assert Text(first, steps)[k] == Text(first, steps[..j + 1])[k];
    } else {
      assert steps[..j] == steps;
    }
  }

  lemma PlaceIn(bits: seq<nat>, a: seq<nat>, gap: nat, window: seq<nat>)
    requires |a| + gap + |window| <= |bits| && bits[..|a| + gap + |window|] == a + Zeros(gap) + window
    ensures bits[|a| + gap..|a| + gap + |window|] == window && forall k :: |a| <= k < |a| + gap ==> bits[k] == 0
  {
    var b := a + Zeros(gap) + window;
    assert bits[|a| + gap..|a| + gap + |window|] == b[|a| + gap..];
    forall k | |a| <= k < |a| + gap ensures bits[k] == 0 { assert bits[k] == bits[..|b|][k]; }
  }

  /** The bits of window `j` and their place. */
  lemma WindowPlace(w: nat, first: nat, steps: seq<(nat, nat)>, tail: nat, j: nat)
    requires Greedy(w, first, steps) && j < |steps|
    ensures var bits := Text(first, steps) + Zeros(tail);
      var from, at := |Text(first, steps[..j])|, |Text(first, steps[..j + 1])|;
      && from + Gap(steps[j]) + |Bits(steps[j].1)| == at <= |bits|
      && bits[from + Gap(steps[j])..at] == Bits(steps[j].1)
      && forall k :: from <= k < from + Gap(steps[j]) ==> bits[k] == 0
  {
    hide Bits, Gap, Text;
    var bits, step := Text(first, steps) + Zeros(tail), steps[j];
    TextPrefix(first, steps, j + 1);
    TextNext(first, steps, j);
    var a, b := Text(first, steps[..j]), Text(first, steps[..j + 1]);
    assert bits[..|b|] == b;
    PlaceIn(bits, a, Gap(step), Bits(step.1));
  }

  /** The code up to window `j` is that of the windows. */
  ghost predicate Spelled(w: nat, first: nat, steps: seq<(nat, nat)>, bits: seq<nat>, j: nat)
    requires Greedy(w, first, steps) && j <= |steps| && w >= 1 && IsBits(bits)
  {
    var at := |Text(first, steps[..j])|;
    at <= |bits| && Body(bits, 0, w, true) == Windows(first, steps[..j]) + Body(bits, at, w, false)
  }

  lemma FirstSpelled(w: nat, first: nat, steps: seq<(nat, nat)>, bits: seq<nat>)
    requires Greedy(w, first, steps) && w >= 1 && IsBits(bits) && |Bits(first)| <= |bits| && bits[..|Bits(first)|] == Bits(first)
    requires forall k :: |Bits(first)| <= k < w && k < |bits| ==> bits[k] == 0
    ensures Spelled(w, first, steps, bits, 0)
  {
    hide Bits, Body, Squares;
    assert steps[..0] == [] && bits[0..|Bits(first)|] == bits[..|Bits(first)|];
    BodyWindow(bits, 0, first, w, true);
  }

  lemma NextSpelled(w: nat, first: nat, steps: seq<(nat, nat)>, bits: seq<nat>, j: nat, from: nat, at: nat)
    requires Greedy(w, first, steps) && j < |steps| && w >= 1 && IsBits(bits) && Spelled(w, first, steps, bits, j)
    requires from == |Text(first, steps[..j])| && at == |Text(first, steps[..j + 1])|
    requires from + Gap(steps[j]) + |Bits(steps[j].1)| == at <= |bits|
    requires bits[from + Gap(steps[j])..at] == Bits(steps[j].1)
    requires forall k :: from <= k < from + Gap(steps[j]) ==> bits[k] == 0
    requires forall k :: at <= k < from + Gap(steps[j]) + w && k < |bits| ==> bits[k] == 0
    ensures Spelled(w, first, steps, bits, j + 1)
  {
    hide Bits, Gap, Squares, Body, IsBits, Text;
    var step := steps[j];
    assert step.1 % 2 == 1 && |Bits(step.1)| <= w && Gap(step) >= 0;
    hide Greedy;
    BodyStep(bits, from, at, w, step);
    assert steps[..j + 1][..j] == steps[..j];
    var done, ins, rest := Windows(first, steps[..j]), [Mul(Acc, Acc, X(step.1))], Body(bits, at, w, false);
    assert done + (Squares(step.0) + ins + rest) == (done + Squares(step.0) + ins) + rest;
  }

  /** The code of one more window. */
  lemma BodyStep(bits: seq<nat>, from: nat, at: nat, w: nat, step: (nat, nat))
    requires IsBits(bits) && w >= 1 && step.1 % 2 == 1 && |Bits(step.1)| <= w && Gap(step) >= 0
    requires from + Gap(step) + |Bits(step.1)| == at <= |bits|
    requires bits[from + Gap(step)..at] == Bits(step.1)
    requires forall k :: from <= k < from + Gap(step) ==> bits[k] == 0
    requires forall k :: at <= k < from + Gap(step) + w && k < |bits| ==> bits[k] == 0
    ensures Body(bits, from, w, false) == Squares(step.0) + [Mul(Acc, Acc, X(step.1))] + Body(bits, at, w, false)
  {
    hide Bits, Gap, Squares, Body, IsBits;
    BodyZeros(bits, from, Gap(step), w);
    BodyWindow(bits, from + Gap(step), step.1, w, false);
    GapCode(step);
    WindowCode([], Squares(Gap(step)), Squares(|Bits(step.1)|), Mul(Acc, Acc, X(step.1)), Body(bits, at, w, false));
  }

  lemma {:induction false} BodyWindows(w: nat, first: nat, steps: seq<(nat, nat)>, tail: nat, j: nat)
    requires Greedy(w, first, steps) && j <= |steps| && w >= 1
    requires IsBits(Text(first, steps) + Zeros(tail))
    ensures Spelled(w, first, steps, Text(first, steps) + Zeros(tail), j)
  {
    hide Bits, Gap, IsBits, Spelled;
    var bits := Text(first, steps) + Zeros(tail);
    TextPrefix(first, steps, j);
    var at := |Text(first, steps[..j])|;
    forall k | at <= k < at - |Bits(Before(first, steps, j))| + w && k < |bits| ensures bits[k] == 0 {
      ZerosBehind(w, first, steps, tail, j, k);
    }
    if j == 0 {
      assert Text(first, steps[..j]) == Bits(first) == bits[..|Bits(first)|];
      FirstSpelled(w, first, steps, bits);
    } else {
      BodyWindows(w, first, steps, tail, j - 1);
      WindowPlace(w, first, steps, tail, j - 1);
      NextSpelled(w, first, steps, bits, j - 1, |Text(first, steps[..j - 1])|, at);
    }
  }

  lemma WindowCode(done: seq<Instr>, gap: seq<Instr>, window: seq<Instr>, ins: Instr, rest: seq<Instr>)
    ensures done + (gap + ((window + [ins]) + rest)) == done + (gap + window) + [ins] + rest
  {}

  lemma GapCode(step: (nat, nat))
    requires Gap(step) >= 0
    ensures Squares(Gap(step)) + Squares(|Bits(step.1)|) == Squares(step.0)
  {
    SquaresAdd(Gap(step), |Bits(step.1)|);
  }

  /** A greedy window list is the program that the generator emits for its exponent. */
  lemma GreedyGenerates(w: nat, first: nat, steps: seq<(nat, nat)>, tail: nat)
    requires w >= 1 && Greedy(w, first, steps)
    ensures Pow(2, w) >= 2
    ensures Generated(Shifted(Horner(first, steps), tail), w) == Unrolled(Pow(2, w) - 1, first, steps) + Squares(tail)
  {
    hide Bits, Gap, Squares, Body, Text, Windows, Horner, Table, Unrolled, BitsValue, Pow, Shifted;
    OddMax(w);
    TextValue(first, steps);
    var text := Text(first, steps);
    var bits := text + Zeros(tail);
    JoinedValue(text, Zeros(tail));
    ZerosValue(tail);
    BitsUnique(bits);
    BodyWindows(w, first, steps, tail, |steps|);
    assert steps[..|steps|] == steps;
    BodyZeros(bits, |text|, tail, w);
    BodyEnd(bits, w, false);
    UnrolledParts(Pow(2, w) - 1, first, steps);
  }

  /** Greedy windows index the table. */
  lemma GreedyIsOdd(w: nat, first: nat, steps: seq<(nat, nat)>)
    requires w >= 1 && Greedy(w, first, steps)
    ensures Pow(2, w) >= 2 && OddWindows(Pow(2, w) - 1, first, steps)
  {
    hide Bits, Gap;
    OddMax(w);
    FittingValue(first, w);
    forall i | 0 <= i < |steps| ensures steps[i].1 <= Pow(2, w) - 1 { FittingValue(steps[i].1, w); }
  }

  lemma FittingValue(v: nat, w: nat)
    requires |Bits(v)| <= w
    ensures v < Pow(2, w)
  {
    BitsRoundTrip(v);
    BitsValueBound(Bits(v));
    PowTwoMono(|Bits(v)|, w);
  }
}
