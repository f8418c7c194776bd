/**
 Little-endian coefficient sequences. The same product serves the schoolbook limb
 multiplication (base 256) and the proof polynomials (evaluated at the verifier's key).
 */
module Poly {
  import opened Numbers

  /** The value at `x` of the polynomial whose constant term is `s[0]`. */
  function Eval(s: seq<int>, x: int): int
  {
    if s == [] then 0 else s[0] + x * Eval(s[1..], x)
  }

  /** Horner's rule, written out. */
  lemma EvalWritten(c: int, s: seq<int>, x: int)
    ensures Eval([], x) == 0 && Eval([c] + s, x) == c + x * Eval(s, x)
  {
    assert ([c] + s)[1..] == s;
  }

  lemma {:induction false} EvalAppend(a: seq<int>, b: seq<int>, x: int)
    ensures Eval(a + b, x) == Eval(a, x) + Pow(x, |a|) * Eval(b, x)
  {
    if a == [] {
      assert a + b == b;
    } else {
      assert (a + b)[1..] == a[1..] + b;
      EvalAppend(a[1..], b, x);
      var u, v, w := Eval(a[1..], x), Pow(x, |a| - 1), Eval(b, x);
      assert x * (u + v * w) == x * u + (x * v) * w by { MulAssoc(x, v, w); }
    }
  }

  lemma EvalSingle(c: int, x: int)
    ensures Eval([c], x) == c
  {
    assert [c][1..] == [];
  }

  lemma EvalPrefix(s: seq<int>, i: nat, x: int)
    requires i < |s|
    ensures Eval(s[..i + 1], x) == Eval(s[..i], x) + s[i] * Pow(x, i)
  {
    assert s[..i + 1] == s[..i] + [s[i]];
    EvalAppend(s[..i], [s[i]], x);
    EvalSingle(s[i], x);
  }

  /** Adding `d` to one coefficient adds `d * x^k` to the value. */
  lemma {:induction false} EvalUpdate(s: seq<int>, k: nat, d: int, x: int)
    requires k < |s|
    ensures Eval(s[k := s[k] + d], x) == Eval(s, x) + d * Pow(x, k)
  {
    var t := s[k := s[k] + d];
    if k == 0 {
      assert t[1..] == s[1..];
    } else {
      assert t[1..] == s[1..][k - 1 := s[1..][k - 1] + d];
      EvalUpdate(s[1..], k - 1, d, x);
      var u, v := Eval(s[1..], x), Pow(x, k - 1);
      assert x * (u + d * v) == x * u + d * (x * v) by { MulAssoc(x, d, v); MulAssoc(d, x, v); }
    }
  }

  lemma {:induction false} EvalZeros(s: seq<int>, x: int)
    requires forall k :: 0 <= k < |s| ==> s[k] == 0
    ensures Eval(s, x) == 0
  {
    if s != [] { EvalZeros(s[1..], x); }
  }

  // ------------------------------------------------------------- products

  /** Coefficient `k` of the product of the first `i` terms of `a` with `b`. */
  function RowSum(a: seq<int>, b: seq<int>, i: nat, k: int): int
    requires i <= |a|
  {
    if i == 0 then 0
    else RowSum(a, b, i - 1, k) + if 0 <= k - (i - 1) < |b| then a[i - 1] * b[k - (i - 1)] else 0
  }

  /** Coefficient `k` once row `i` has also consumed the first `j` terms of `b`. */
  function Coef(a: seq<int>, b: seq<int>, i: nat, j: nat, k: int): int
    requires i <= |a| && j <= |b|
    requires i == |a| ==> j == 0
  {
    RowSum(a, b, i, k) + if i < |a| && i <= k < i + j then a[i] * b[k - i] else 0
  }

  ghost predicate Accumulated(out: seq<int>, a: seq<int>, b: seq<int>, i: nat, j: nat)
  {
    && i <= |a| && j <= |b| && (i == |a| ==> j == 0)
    && |out| == |a| + |b| - 1
    && forall k :: 0 <= k < |out| ==> out[k] == Coef(a, b, i, j, k)
  }

  /** The full product of two nonempty coefficient sequences. */
  function Conv(a: seq<int>, b: seq<int>): seq<int>
    requires a != [] && b != []
  {
    seq(|a| + |b| - 1, k => RowSum(a, b, |a|, k))
  }

  lemma AccumulateStart(out: seq<int>, a: seq<int>, b: seq<int>)
    requires a != [] && b != [] && |out| == |a| + |b| - 1
    requires forall k :: 0 <= k < |out| ==> out[k] == 0
    ensures Accumulated(out, a, b, 0, 0)
  {}

  lemma AccumulateStep(out: seq<int>, a: seq<int>, b: seq<int>, i: nat, j: nat)
    requires Accumulated(out, a, b, i, j) && i < |a| && j < |b|
    ensures i + j < |out|
    ensures j + 1 < |b| ==> Accumulated(out[i + j := out[i + j] + a[i] * b[j]], a, b, i, j + 1)
    ensures j + 1 == |b| ==> Accumulated(out[i + j := out[i + j] + a[i] * b[j]], a, b, i + 1, 0)
  {
    var out' := out[i + j := out[i + j] + a[i] * b[j]];
    forall k | 0 <= k < |out|
      ensures j + 1 < |b| ==> out'[k] == Coef(a, b, i, j + 1, k)
      ensures j + 1 == |b| ==> out'[k] == Coef(a, b, i + 1, 0, k)
    {
      assert RowSum(a, b, i + 1, k) == RowSum(a, b, i, k) + if 0 <= k - i < |b| then a[i] * b[k - i] else 0;
    }
  }

  lemma AccumulateEnd(out: seq<int>, a: seq<int>, b: seq<int>)
    requires a != [] && b != [] && Accumulated(out, a, b, |a|, 0)
    ensures out == Conv(a, b)
  {}

  /** The value of a partly accumulated product: finished rows, then the open row. */
  function PartialValue(a: seq<int>, b: seq<int>, i: nat, j: nat, x: int): int
    requires i <= |a| && j <= |b|
  {
    Eval(a[..i], x) * Eval(b, x) + if i < |a| then (a[i] * Pow(x, i)) * Eval(b[..j], x) else 0
  }

  lemma PartialValueStep(a: seq<int>, b: seq<int>, i: nat, j: nat, x: int)
    requires i < |a| && j < |b|
    ensures PartialValue(a, b, i, j, x) + (a[i] * b[j]) * Pow(x, i + j) == PartialValue(a, b, i, j + 1, x)
  {
    var p, q, v := Pow(x, i), Pow(x, j), Eval(b[..j], x);
    PowAdd(x, i, j);
    EvalPrefix(b, j, x);
    MulSwap(a[i], b[j], p, q);
    Distribute(a[i] * p, v, b[j] * q);
  }

  lemma Distribute(c: int, u: int, v: int)
    ensures c * (u + v) == c * u + c * v && (u + v) * c == u * c + v * c
  {}

  lemma PartialValueRow(a: seq<int>, b: seq<int>, i: nat, x: int)
    requires i < |a|
    ensures PartialValue(a, b, i, |b|, x) == PartialValue(a, b, i + 1, 0, x)
  {
    assert b[..|b|] == b && b[..0] == [];
    EvalPrefix(a, i, x);
    Distribute(Eval(b, x), Eval(a[..i], x), a[i] * Pow(x, i));
  }

  lemma {:induction false} AccumulatedEval(out: seq<int>, a: seq<int>, b: seq<int>, i: nat, j: nat, x: int)
    requires a != [] && b != [] && Accumulated(out, a, b, i, j)
    ensures Eval(out, x) == PartialValue(a, b, i, j, x)
    decreases i, j
  {
    if i == 0 && j == 0 {
      EvalZeros(out, x);
      assert a[..0] == [] && b[..0] == [];
    } else {
      var (i', j') := if j > 0 then (i, j - 1) else (i - 1, |b| - 1);
      var prev := seq(|out|, k => Coef(a, b, i', j', k));
      AccumulateStep(prev, a, b, i', j');
      assert out == prev[i' + j' := prev[i' + j'] + a[i'] * b[j']];
      EvalUpdate(prev, i' + j', a[i'] * b[j'], x);
      AccumulatedEval(prev, a, b, i', j', x);
      PartialValueStep(a, b, i', j', x);
      if j == 0 { PartialValueRow(a, b, i', x); }
    }
  }

  /** Evaluation turns the product of coefficient sequences into the product of values. */
  lemma EvalConv(a: seq<int>, b: seq<int>, x: int)
    requires a != [] && b != []
    ensures Eval(Conv(a, b), x) == Eval(a, x) * Eval(b, x)
  {
    AccumulatedEval(Conv(a, b), a, b, |a|, 0, x);
    assert a[..|a|] == a;
  }

  /** The leading coefficient is multiplicative too. */
  lemma {:induction false} RowSumAbove(a: seq<int>, b: seq<int>, i: nat, k: int)
    requires i <= |a| && k >= i + |b| - 1
    ensures RowSum(a, b, i, k) == 0
  {
    if i > 0 { RowSumAbove(a, b, i - 1, k); }
  }

  lemma ConvLead(a: seq<int>, b: seq<int>)
    requires a != [] && b != []
    ensures Conv(a, b)[|a| + |b| - 2] == a[|a| - 1] * b[|b| - 1]
  {
    RowSumAbove(a, b, |a| - 1, |a| + |b| - 2);
  }

  // ------------------------------------------------------- linear combination

  /** `a + c * b` coefficient by coefficient, where `b` may be the shorter one. */
  function AddScaled(a: seq<int>, b: seq<int>, c: int): seq<int>
    requires |b| <= |a|
  {
    seq(|a|, k requires 0 <= k < |a| => a[k] + if k < |b| then c * b[k] else 0)
  }

  lemma ScaleAlgebra(x: int, u: int, c: int, v: int)
    ensures x * (u + c * v) == x * u + c * (x * v)
  {
    MulAssoc(x, c, v);
    MulAssoc(c, x, v);
  }

  lemma {:induction false} EvalAddScaled(a: seq<int>, b: seq<int>, c: int, x: int)
    requires |b| <= |a|
    ensures Eval(AddScaled(a, b, c), x) == Eval(a, x) + c * Eval(b, x)
  {
    if b == [] {
      assert AddScaled(a, b, c) == a;
    } else {
      EvalAddScaled(a[1..], b[1..], c, x);
      var s := AddScaled(a, b, c);
      assert s[1..] == AddScaled(a[1..], b[1..], c);
      AddScaledHead(a[0], b[0], c, x, Eval(a[1..], x), Eval(b[1..], x), Eval(s[1..], x));
      assert Eval(a, x) == a[0] + x * Eval(a[1..], x) && Eval(b, x) == b[0] + x * Eval(b[1..], x);
      assert Eval(s, x) == s[0] + x * Eval(s[1..], x);
    }
  }

  lemma AddScaledHead(a: int, b: int, c: int, x: int, u: int, v: int, s: int)
    requires s == u + c * v
    ensures a + c * b + x * s == a + x * u + c * (b + x * v)
  {
    ScaleAlgebra(x, u, c, v);
    assert c * (b + x * v) == c * b + c * (x * v);
  }
}
