/**
 The field operators of the protocol layer. An element is any integer of its residue class
 modulo p, as fe25519 values are; `Add`, `Sub` and `Mul` are the C++ operators, reduction and
 freezing leave the class alone, and `R` is the residue that packing writes and that a zero
 test looks at.
 */
module Field {
  import opened Numbers
  import F = Fe25519

  type Fe = int

  const P: int := F.P

  function Add(x: Fe, y: Fe): Fe { x + y }

  function Sub(x: Fe, y: Fe): Fe { x - y }

  function Mul(x: Fe, y: Fe): Fe { x * y }

  lemma OperatorsWritten(x: Fe, y: Fe)
    ensures Add(x, y) == x + y && Sub(x, y) == x - y && Mul(x, y) == x * y
  {}

  /** The canonical residue. */
  function R(x: Fe): (r: Fe)
    ensures 0 <= r < P
  {
    x % P
  }

  lemma ResidueWritten(x: Fe)
    ensures R(x) == x % 0x7fff_ffff_ffff_ffff_ffff_ffff_ffff_ffff_ffff_ffff_ffff_ffff_ffff_ffff_ffff_ffed
  {}

  lemma CanonicalTwice(x: Fe)
    ensures R(R(x)) == R(x)
  {
    CongMod(x, P);
  }

  function AddR(x: Fe, y: Fe): Fe { R(x + y) }

  function SubR(x: Fe, y: Fe): Fe { R(x - y) }

  function MulR(x: Fe, y: Fe): Fe { R(x * y) }

  lemma ResidueOfAdd(x: Fe, y: Fe)
    ensures R(Add(x, y)) == AddR(R(x), R(y))
  {
    CongMod(x, P);
    CongMod(y, P);
    CongAdd(R(x), x, R(y), y, P);
  }

  lemma ResidueOfSub(x: Fe, y: Fe)
    ensures R(Sub(x, y)) == SubR(R(x), R(y))
  {
    CongMod(x, P);
    CongMod(y, P);
    CongAdd(R(x), x, R(y), y, P);
  }

  lemma ResidueOfMul(x: Fe, y: Fe)
    ensures R(Mul(x, y)) == MulR(R(x), R(y))
  {
    CongMod(x, P);
    CongMod(y, P);
    CongMul(R(x), x, R(y), y, P);
  }

  /** Taking residues commutes with every operator. */
  lemma Residues()
    ensures forall x, y {:trigger R(Add(x, y))} :: R(Add(x, y)) == AddR(R(x), R(y))
    ensures forall x, y {:trigger R(Sub(x, y))} :: R(Sub(x, y)) == SubR(R(x), R(y))
    ensures forall x, y {:trigger R(Mul(x, y))} :: R(Mul(x, y)) == MulR(R(x), R(y))
    ensures forall x {:trigger R(R(x))} :: R(R(x)) == R(x)
  {
    forall x, y { ResidueOfAdd(x, y); }
    forall x, y { ResidueOfSub(x, y); }
    forall x, y { ResidueOfMul(x, y); }
    forall x ensures R(R(x)) == R(x) { CanonicalTwice(x); }
  }

  /** A congruent pair gives congruent sums, differences and products. */
  lemma Congruent(x: Fe, x': Fe, y: Fe, y': Fe)
    requires R(x) == R(x') && R(y) == R(y')
    ensures R(x + y) == R(x' + y') && R(x - y) == R(x' - y') && R(x * y) == R(x' * y')
  {
    CongAdd(x, x', y, y', P);
    CongMul(x, x', y, y', P);
  }

  lemma PowSame(x: Fe, y: Fe, n: nat)
    requires R(x) == R(y)
    ensures R(Pow(x, n)) == R(Pow(y, n))
  {
    CongPow(x, y, n, P);
  }

  lemma CongIsSame(x: Fe, y: Fe)
    ensures Cong(x, y, P) <==> R(x) == R(y)
  {}

  lemma ZeroIsDivisible(x: Fe)
    ensures R(x) == 0 <==> Divides(P, x)
  {}

  /** Modulo a prime only a zero factor makes a product zero. */
  lemma ZeroFactor(x: Fe, y: Fe)
    requires IsPrime(P) && R(x * y) == 0
    ensures R(x) == 0 || R(y) == 0
  {
    hide R;
    ZeroIsDivisible(x * y);
    ZeroIsDivisible(x);
    ZeroIsDivisible(y);
    Euclid(P, x, y);
  }

  lemma OneIsCanonical()
    ensures R(0) == 0 && R(1) == 1
  {}

  /** Fermat's little theorem on residues. */
  lemma FermatResidue(x: Fe)
    requires IsPrime(P) && R(x) != 0
    ensures R(Pow(x, P - 1)) == 1
  {
    hide R, Pow;
    ZeroIsDivisible(x);
    Fermat(P, x);
    CongIsSame(Pow(x, P - 1), 1);
    OneIsCanonical();
  }

  lemma {:induction false} NonzeroPower(x: Fe, n: nat)
    requires IsPrime(P) && R(x) != 0
    ensures R(Pow(x, n)) != 0
  {
    hide R;
    OneIsCanonical();
    if n > 0 {
      NonzeroPower(x, n - 1);
      if R(x * Pow(x, n - 1)) == 0 { ZeroFactor(x, Pow(x, n - 1)); }
    }
  }

  // --------------------------------------------------------- dot products

  /** voleUtils.h dot_product: the sum over the entries of the second vector. */
  function Dot(gamma: seq<Fe>, v: seq<Fe>): Fe
    requires |v| <= |gamma|
  {
    if v == [] then 0 else Add(Dot(gamma, v[..|v| - 1]), Mul(gamma[|v| - 1], v[|v| - 1]))
  }

  method DotProduct(gamma: seq<Fe>, v: seq<Fe>) returns (out: Fe)
    requires |v| <= |gamma|
    ensures out == Dot(gamma, v)
  {
    out := 0;
    var i := 0;
    assert v[..0] == [];
    while i < |v|
      invariant 0 <= i <= |v| && out == Dot(gamma, v[..i])
    {
      assert v[..i + 1][..i] == v[..i];
      out := Add(out, Mul(gamma[i], v[i]));
      i := i + 1;
    }
    assert v[..|v|] == v;
  }

  /** o = u + h * v entry by entry, up to residues. */
  ghost predicate Correlated(o: seq<Fe>, u: seq<Fe>, v: seq<Fe>, h: Fe)
  {
    |o| == |u| == |v| && forall j :: 0 <= j < |o| ==> R(o[j]) == R(u[j] + h * v[j])
  }

  lemma CorrelatedMeans(o: seq<Fe>, u: seq<Fe>, v: seq<Fe>, h: Fe)
    ensures Correlated(o, u, v, h) <==>
      |o| == |u| == |v| && forall j :: 0 <= j < |o| ==> o[j] % P == (u[j] + h * v[j]) % P
  {}

  /** o = u + h * v up to residues. */
  ghost predicate Related(o: Fe, u: Fe, v: Fe, h: Fe)
  {
    R(o) == R(u + h * v)
  }

  lemma CorrelatedPrefix(o: seq<Fe>, u: seq<Fe>, v: seq<Fe>, h: Fe, n: nat)
    requires Correlated(o, u, v, h) && n <= |o|
    ensures |o| == |u| == |v| && Correlated(o[..n], u[..n], v[..n], h)
    ensures n < |o| ==> Related(o[n], u[n], v[n], h)
  {
    hide R;
  }

  /** A dot product keeps the correlation. */
  lemma {:induction false} DotCorrelated(gamma: seq<Fe>, o: seq<Fe>, u: seq<Fe>, v: seq<Fe>, h: Fe)
    requires |o| <= |gamma| && Correlated(o, u, v, h)
    ensures |o| == |u| == |v| && Related(Dot(gamma, o), Dot(gamma, u), Dot(gamma, v), h)
  {
    hide R, Dot, Correlated;
    CorrelatedPrefix(o, u, v, h, 0);
    if o == [] {
      DotEmpty(gamma);
      NothingRelated(h);
    } else {
      var n := |o| - 1;
      CorrelatedPrefix(o, u, v, h, n);
      DotCorrelated(gamma, o[..n], u[..n], v[..n], h);
      DotSnoc(gamma, o);
      DotSnoc(gamma, u);
      DotSnoc(gamma, v);
      var d, a, b, g, x, y := Dot(gamma, o[..n]), Dot(gamma, u[..n]), Dot(gamma, v[..n]), gamma[n], u[n], v[n];
      Congruent(g, g, o[n], x + h * y);
      Congruent(d, a + h * b, g * o[n], g * (x + h * y));
      CombineAlgebra(a, h, b, g, x, y);
    }
  }

  lemma NothingRelated(h: Fe)
    ensures Related(0, 0, 0, h)
  {}

  lemma DotEmpty(gamma: seq<Fe>)
    ensures Dot(gamma, []) == 0
  {}

  lemma DotSnoc(gamma: seq<Fe>, v: seq<Fe>)
    requires 0 < |v| <= |gamma|
    ensures Dot(gamma, v) == Dot(gamma, v[..|v| - 1]) + gamma[|v| - 1] * v[|v| - 1]
  {}

  lemma CombineAlgebra(a: int, h: int, b: int, g: int, x: int, y: int)
    ensures (a + h * b) + g * (x + h * y) == (a + g * x) + h * (b + g * y)
  {
    MulAssoc(g, h, y);
    MulAssoc(h, g, y);
    assert g * (x + h * y) == g * x + g * (h * y);
    assert h * (b + g * y) == h * b + h * (g * y);
  }
}
