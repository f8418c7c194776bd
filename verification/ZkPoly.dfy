/**
 ZKP.h: the proof polynomials. A polynomial of degree D is its D + 1 coefficients, constant term
 first. Each operator is given by what it does to the value at every point and to the leading
 coefficient.
 */
module ZkPoly {
  import opened Numbers
  import opened Poly
  import opened Field

  type Polynomial = seq<Fe>

  function Lead(p: Polynomial): Fe
    requires p != []
  {
    p[|p| - 1]
  }

  /** operator +=, with a right-hand side of at most the same degree. */
  method AddTo(lhs: Polynomial, rhs: Polynomial) returns (out: Polynomial)
    requires 0 < |rhs| <= |lhs|
    ensures |out| == |lhs| && forall x {:trigger Eval(out, x)} :: Eval(out, x) == Eval(lhs, x) + Eval(rhs, x)
    ensures Lead(out) == Lead(lhs) + if |rhs| == |lhs| then Lead(rhs) else 0
  {
    out := lhs;
    var i := 0;
    while i < |rhs|
      invariant 0 <= i <= |rhs| && |out| == |lhs|
      invariant forall k :: 0 <= k < i ==> out[k] == lhs[k] + rhs[k]
      invariant forall k :: i <= k < |lhs| ==> out[k] == lhs[k]
    {
      out := out[i := Add(out[i], rhs[i])];
      i := i + 1;
    }
    assert out == AddScaled(lhs, rhs, 1);
    forall x { EvalAddScaled(lhs, rhs, 1, x); }
  }

  /** operator -=. */
  method SubFrom(lhs: Polynomial, rhs: Polynomial) returns (out: Polynomial)
    requires 0 < |rhs| <= |lhs|
    ensures |out| == |lhs| && forall x {:trigger Eval(out, x)} :: Eval(out, x) == Eval(lhs, x) - Eval(rhs, x)
    ensures Lead(out) == Lead(lhs) - if |rhs| == |lhs| then Lead(rhs) else 0
  {
    out := lhs;
    var i := 0;
    while i < |rhs|
      invariant 0 <= i <= |rhs| && |out| == |lhs|
      invariant forall k :: 0 <= k < i ==> out[k] == lhs[k] - rhs[k]
      invariant forall k :: i <= k < |lhs| ==> out[k] == lhs[k]
    {
      out := out[i := Sub(out[i], rhs[i])];
      i := i + 1;
    }
    assert out == AddScaled(lhs, rhs, -1);
    forall x { EvalAddScaled(lhs, rhs, -1, x); }
  }

  /** shift_up: multiplication by X^n. */
  method ShiftUp(p: Polynomial, n: nat) returns (out: Polynomial)
    requires p != []
    ensures |out| == |p| + n && Lead(out) == Lead(p)
    ensures forall x {:trigger Eval(out, x)} :: Eval(out, x) == Mul(Eval(p, x), Pow(x, n))
  {
    hide Eval, Pow;
    out := seq(|p| + n, _ => 0);
    var i := 0;
    while i < |p|
      invariant 0 <= i <= |p| && |out| == |p| + n
      invariant forall k :: 0 <= k < n ==> out[k] == 0
      invariant forall k :: 0 <= k < i ==> out[k + n] == p[k]
    {
      out := out[i + n := p[i]];
      i := i + 1;
    }
    var zeros := seq(n, _ => 0);
    assert out == zeros + p;
    forall x ensures Eval(out, x) == Mul(Eval(p, x), Pow(x, n)) {
      EvalAppend(zeros, p, x);
      EvalZeros(zeros, x);
    }
  }

  /** operator *: the convolution of the coefficients. */
  method Times(lhs: Polynomial, rhs: Polynomial) returns (out: Polynomial)
    requires lhs != [] && rhs != []
    ensures |out| == |lhs| + |rhs| - 1 && Lead(out) == Mul(Lead(lhs), Lead(rhs))
    ensures forall x {:trigger Eval(out, x)} :: Eval(out, x) == Mul(Eval(lhs, x), Eval(rhs, x))
  {
    out := seq(|lhs| + |rhs| - 1, _ => 0);
    AccumulateStart(out, lhs, rhs);
    var i := 0;
    while i < |lhs|
      invariant 0 <= i <= |lhs|
      invariant Accumulated(out, lhs, rhs, i, 0)
    {
      var j := 0;
      while j < |rhs|
        invariant 0 <= j <= |rhs|
        invariant j < |rhs| ==> Accumulated(out, lhs, rhs, i, j)
        invariant j == |rhs| ==> Accumulated(out, lhs, rhs, i + 1, 0)
      {
        AccumulateStep(out, lhs, rhs, i, j);
        out := out[i + j := Add(out[i + j], Mul(lhs[i], rhs[j]))];
        j := j + 1;
      }
      i := i + 1;
    }
    AccumulateEnd(out, lhs, rhs);
    forall x ensures Eval(out, x) == Mul(Eval(lhs, x), Eval(rhs, x)) { EvalConv(lhs, rhs, x); }
    ConvLead(lhs, rhs);
  }

  /** A degree-0 polynomial times another: the value and the lead are scaled. */
  method Scale(c: Fe, p: Polynomial) returns (out: Polynomial)
    requires p != []
    ensures |out| == |p| && Lead(out) == Mul(c, Lead(p))
    ensures forall x {:trigger Eval(out, x)} :: Eval(out, x) == Mul(c, Eval(p, x))
  {
    out := Times([c], p);
    forall x ensures Eval(out, x) == Mul(c, Eval(p, x)) { EvalSingle(c, x); }
  }
}
