/**
 VolePlus.h: both sides of VOLE+ as the message steps they exchange. Random vectors (gamma,
 lambda) are inputs; a sent vector is the vector of canonical residues.
 */
module VolePlus {
  import opened Numbers
  import opened Field

  type Vec = seq<Fe>

  ghost predicate Shape(m: seq<Vec>, rows: nat, cols: nat)
  {
    |m| == rows && forall i :: 0 <= i < rows ==> |m[i]| == cols
  }

  /** Row i of o is u_i + h_i * v_i. */
  ghost predicate RowsCorrelated(o: seq<Vec>, u: seq<Vec>, v: seq<Vec>, h: Vec)
  {
    |o| == |u| == |v| == |h| && forall i :: 0 <= i < |o| ==> Correlated(o[i], u[i], v[i], h[i])
  }

  /** Every row of o uses the first row of v. */
  ghost predicate Aligned(o: seq<Vec>, u: seq<Vec>, v0: Vec, h: Vec)
  {
    |o| == |u| == |h| && forall i :: 0 <= i < |o| ==> Correlated(o[i], u[i], v0, h[i])
  }

  /** The combination of the first `n` rows at column `j`. */
  function Column(lambda: Vec, m: seq<Vec>, j: nat, n: nat): Fe
    requires n <= |m| && n <= |lambda| && forall i :: 0 <= i < n ==> j < |m[i]|
  {
    if n == 0 then 0 else Add(Column(lambda, m, j, n - 1), Mul(lambda[n - 1], m[n - 1][j]))
  }

  lemma ColumnWritten(lambda: Vec, m: seq<Vec>, j: nat, n: nat)
    requires n < |m| && n < |lambda| && forall i :: 0 <= i <= n ==> j < |m[i]|
    ensures Column(lambda, m, j, 0) == 0 && Column(lambda, m, j, n + 1) == Column(lambda, m, j, n) + lambda[n] * m[n][j]
  {}

  lemma {:induction false} ColumnCorrelated(lambda: Vec, o: seq<Vec>, u: seq<Vec>, v0: Vec, h: Vec, j: nat, n: nat)
    requires Aligned(o, u, v0, h) && n <= |o| <= |lambda| && j < |v0|
    ensures R(Column(lambda, o, j, n)) == R(Column(lambda, u, j, n) + Dot(lambda, h[..n]) * v0[j])
  {
    hide R;
    if n > 0 {
      ColumnCorrelated(lambda, o, u, v0, h, j, n - 1);
      assert h[..n][..n - 1] == h[..n - 1];
      assert Correlated(o[n - 1], u[n - 1], v0, h[n - 1]);
      ColumnStep(Column(lambda, o, j, n - 1), Column(lambda, u, j, n - 1), Dot(lambda, h[..n - 1]), v0[j],
                 lambda[n - 1], o[n - 1][j], u[n - 1][j], h[n - 1]);
    }
  }

  lemma ColumnStep(c: int, a: int, b: int, y: int, l: int, o: int, x: int, h: int)
    requires R(c) == R(a + b * y) && R(o) == R(x + h * y)
    ensures R(c + l * o) == R((a + l * x) + (b + l * h) * y)
  {
    hide R;
    Congruent(l, l, o, x + h * y);
    Congruent(c, a + b * y, l * o, l * (x + h * y));
    ColumnAlgebra(a, b, y, l, x, h);
  }

  lemma ColumnAlgebra(a: int, b: int, y: int, l: int, x: int, h: int)
    ensures (a + b * y) + l * (x + h * y) == (a + l * x) + (b + l * h) * y
  {
    MulAssoc(l, h, y);
    assert l * (x + h * y) == l * x + l * (h * y);
    assert (b + l * h) * y == b * y + (l * h) * y;
  }

  class VolePlus {
    const len: nat
    const kVole: nat

    constructor (len: nat, kVole: nat)
      requires kVole > 0
      ensures this.len == len && this.kVole == kVole
    {
      this.len := len;
      this.kVole := kVole;
    }

    // ------------------------------------------------------------- sender

    /** The differences v_0 - v_i that align every row on the first. */
    method SendDerandomization(vi: seq<Vec>) returns (msg: seq<Vec>)
      requires kVole > 0 && Shape(vi, kVole, len + 1)
      ensures Shape(msg, kVole - 1, len + 1)
      ensures forall i, j :: 0 <= i < kVole - 1 && 0 <= j < len + 1 ==> msg[i][j] == R(vi[0][j] - vi[i + 1][j])
    {
      msg := [];
      var i := 1;
      while i < kVole
        invariant 1 <= i <= kVole && Shape(msg, i - 1, len + 1)
        invariant forall r, j :: 0 <= r < i - 1 && 0 <= j < len + 1 ==> msg[r][j] == R(vi[0][j] - vi[r + 1][j])
      {
        var row: Vec := [];
        var j := 0;
        while j < len + 1
          invariant 0 <= j <= len + 1 && |row| == j
          invariant forall c :: 0 <= c < j ==> row[c] == R(vi[0][c] - vi[i][c])
        {
          row := row + [R(Sub(vi[0][j], vi[i][j]))];
          j := j + 1;
        }
        msg := msg + [row];
        i := i + 1;
      }
    }

    /** The folded values <gamma, u_i> and <gamma, v_0>. */
    method SendChecks(gamma: Vec, ui: seq<Vec>, vi: seq<Vec>) returns (cs: Vec, cv1: Fe)
      requires kVole > 0 && Shape(ui, kVole, len + 1) && Shape(vi, kVole, len + 1) && |gamma| == len + 1
      ensures |cs| == kVole && forall i :: 0 <= i < kVole ==> cs[i] == R(Dot(gamma, ui[i]))
      ensures cv1 == R(Dot(gamma, vi[0]))
    {
      cs := [];
      var i := 0;
      while i < kVole
        invariant 0 <= i <= kVole && |cs| == i
        invariant forall k :: 0 <= k < i ==> cs[k] == R(Dot(gamma, ui[k]))
      {
        var c := DotProduct(gamma, ui[i]);
        cs := cs + [R(c)];
        i := i + 1;
      }
      var c := DotProduct(gamma, vi[0]);
      cv1 := R(c);
    }

    /** u' = Delta' * v_0 - sum lambda_i u_i + (u, r_u) and v' = (v, r_v) - v_0. */
    method SendShares(u: Vec, v: Vec, ru: Fe, rv: Fe, ui: seq<Vec>, vi: seq<Vec>, lambda: Vec, deltaPrime: Fe)
      returns (uPrime: Vec, vPrime: Vec)
      requires kVole > 0 && Shape(ui, kVole, len + 1) && Shape(vi, kVole, len + 1)
      requires |u| == |v| == len && |lambda| == kVole
      ensures |uPrime| == |vPrime| == len + 1
      ensures forall j :: 0 <= j < len + 1 ==>
        uPrime[j] == R(deltaPrime * vi[0][j] - Column(lambda, ui, j, kVole) + (u + [ru])[j])
      ensures forall j :: 0 <= j < len + 1 ==> vPrime[j] == R((v + [rv])[j] - vi[0][j])
    {
      var x: Vec, y: Vec := [], [];
      var j := 0;
      while j < len + 1
        invariant 0 <= j <= len + 1 && |x| == j
        invariant forall c :: 0 <= c < j ==> x[c] == Column(lambda, ui, c, kVole)
      {
        var s := 0;
        var i := 0;
        while i < kVole
          invariant 0 <= i <= kVole && s == Column(lambda, ui, j, i)
        {
          s := Add(s, Mul(lambda[i], ui[i][j]));
          i := i + 1;
        }
        x := x + [s];
        j := j + 1;
      }
      j := 0;
      while j < len + 1
        invariant 0 <= j <= len + 1 && |x| == len + 1
        invariant forall c :: 0 <= c < j ==> x[c] == deltaPrime * vi[0][c] - Column(lambda, ui, c, kVole)
        invariant forall c :: j <= c < len + 1 ==> x[c] == Column(lambda, ui, c, kVole)
      {
        x := x[j := Sub(Mul(deltaPrime, vi[0][j]), x[j])];
        j := j + 1;
      }
      j := 0;
      while j < len
        invariant 0 <= j <= len && |x| == len + 1 && |y| == j
        invariant forall c :: 0 <= c < len + 1 ==>
          x[c] == deltaPrime * vi[0][c] - Column(lambda, ui, c, kVole) + if c < j then u[c] else 0
        invariant forall c :: 0 <= c < j ==> y[c] == v[c] - vi[0][c]
      {
        x := x[j := Add(x[j], u[j])];
        y := y + [Sub(v[j], vi[0][j])];
        j := j + 1;
      }
      x := x[len := Add(x[len], ru)];
      y := y + [Sub(rv, vi[0][len])];
      uPrime := seq(len + 1, j requires 0 <= j < len + 1 => R(x[j]));
      vPrime := seq(len + 1, j requires 0 <= j < len + 1 => R(y[j]));
    }

    // ----------------------------------------------------------- receiver

    /** Adds h_i times the received differences to every row but the first. */
    method ReceiveDerandomization(oi: seq<Vec>, hi: Vec, msg: seq<Vec>) returns (o: seq<Vec>)
      requires kVole > 0 && Shape(oi, kVole, len + 1) && |hi| == kVole && Shape(msg, kVole - 1, len + 1)
      ensures Shape(o, kVole, len + 1) && o[0] == oi[0]
      ensures forall i, j :: 1 <= i < kVole && 0 <= j < len + 1 ==> o[i][j] == oi[i][j] + hi[i] * msg[i - 1][j]
    {
      o := oi;
      var i := 0;
      while i < kVole - 1
        invariant 0 <= i <= kVole - 1 && Shape(o, kVole, len + 1)
        invariant forall r, j :: 1 <= r < i + 1 && 0 <= j < len + 1 ==> o[r][j] == oi[r][j] + hi[r] * msg[r - 1][j]
        invariant o[0] == oi[0] && forall r :: i < r < kVole ==> o[r] == oi[r]
      {
        var row := o[i + 1];
        var j := 0;
        while j < len + 1
          invariant 0 <= j <= len + 1 == |row|
          invariant forall c :: 0 <= c < j ==> row[c] == oi[i + 1][c] + hi[i + 1] * msg[i][c]
          invariant forall c :: j <= c < len + 1 ==> row[c] == oi[i + 1][c]
        {
          row := row[j := Add(row[j], Mul(hi[i + 1], msg[i][j]))];
          j := j + 1;
        }
        o := o[i + 1 := row];
        i := i + 1;
      }
    }

    /** All k consistency checks; true exactly when every one of them is zero modulo p. */
    method ReceiveChecks(gamma: Vec, oi: seq<Vec>, hi: Vec, cs: Vec, cv1: Fe) returns (ok: bool)
      requires Shape(oi, kVole, len + 1) && |gamma| == len + 1 && |hi| == |cs| == kVole
      ensures ok <==> forall i :: 0 <= i < kVole ==> R(cs[i] - Dot(gamma, oi[i]) + hi[i] * cv1) == 0
    {
      var i := 0;
      while i < kVole
        invariant 0 <= i <= kVole
        invariant forall k :: 0 <= k < i ==> R(cs[k] - Dot(gamma, oi[k]) + hi[k] * cv1) == 0
      {
        var d := DotProduct(gamma, oi[i]);
        var check := Add(Sub(cs[i], d), Mul(hi[i], cv1));
        if R(check) != 0 { return false; }
        i := i + 1;
      }
      ok := true;
    }

    /** Delta' = h - <lambda, hi>. */
    method ReceiveDelta(h: Fe, lambda: Vec, hi: Vec) returns (deltaPrime: Fe)
      requires |lambda| == |hi| == kVole
      ensures deltaPrime == R(h - Dot(lambda, hi))
    {
      var s := DotProduct(lambda, hi);
      deltaPrime := R(Sub(h, s));
    }

    /** o, c_u and c_v from the received shares. */
    method ReceiveShares(h: Fe, gamma: Vec, lambda: Vec, oi: seq<Vec>, uPrime: Vec, vPrime: Vec, cv1: Fe)
      returns (o: Vec, cu: Fe, cv: Fe)
      requires Shape(oi, kVole, len + 1) && |gamma| == len + 1 && |lambda| == kVole
      requires |uPrime| == |vPrime| == len + 1
      ensures |o| == len + 1
      ensures forall j :: 0 <= j < len + 1 ==> o[j] == Column(lambda, oi, j, kVole) + uPrime[j] + h * vPrime[j]
      ensures cv == Dot(gamma, vPrime) + cv1 && cu == Dot(gamma, o) - h * cv
    {
      o := seq(len + 1, _ => 0);
      var i := 0;
      while i < kVole
        invariant 0 <= i <= kVole && |o| == len + 1
        invariant forall c :: 0 <= c < len + 1 ==> o[c] == Column(lambda, oi, c, i)
      {
        var j := 0;
        while j < len + 1
          invariant 0 <= j <= len + 1 == |o|
          invariant forall c :: 0 <= c < len + 1 ==> o[c] == Column(lambda, oi, c, if c < j then i + 1 else i)
        {
          o := o[j := Add(o[j], Mul(lambda[i], oi[i][j]))];
          j := j + 1;
        }
        i := i + 1;
      }
      var j := 0;
      while j < len + 1
        invariant 0 <= j <= len + 1 == |o|
        invariant forall c :: 0 <= c < len + 1 ==>
          o[c] == Column(lambda, oi, c, kVole) + if c < j then uPrime[c] + h * vPrime[c] else 0
      {
        o := o[j := Add(Add(o[j], uPrime[j]), Mul(h, vPrime[j]))];
        j := j + 1;
      }
      var d := DotProduct(gamma, vPrime);
      cv := Add(d, cv1);
      d := DotProduct(gamma, o);
      cu := Sub(d, Mul(h, cv));
    }
  }

  lemma DerandomizeStep(o: Fe, u: Fe, h: Fe, v: Fe, v0: Fe, msg: Fe)
    requires R(o) == R(u + h * v) && msg == R(v0 - v)
    ensures R(o + h * msg) == R(u + h * v0)
  {
    CanonicalTwice(v0 - v);
    Congruent(h, h, msg, v0 - v);
    Congruent(o, u + h * v, h * msg, h * (v0 - v));
    assert h * (v0 - v) == h * v0 - h * v;
  }

  /** The sender's differences align the rows on its first row. */
  lemma DerandomizedAligned(o: seq<Vec>, oi: seq<Vec>, ui: seq<Vec>, vi: seq<Vec>, hi: Vec, msg: seq<Vec>, n: nat)
    requires 0 < |oi| && Shape(oi, |oi|, n) && Shape(o, |oi|, n) && Shape(msg, |oi| - 1, n) && RowsCorrelated(oi, ui, vi, hi)
    requires forall i, j :: 0 <= i < |oi| - 1 && 0 <= j < n ==> msg[i][j] == R(vi[0][j] - vi[i + 1][j])
    requires o[0] == oi[0] && forall i, j :: 1 <= i < |oi| && 0 <= j < n ==> o[i][j] == oi[i][j] + hi[i] * msg[i - 1][j]
    ensures Aligned(o, ui, vi[0], hi)
  {
    hide R;
    forall i | 0 <= i < |o| ensures Correlated(o[i], ui[i], vi[0], hi[i]) {
      assert Correlated(oi[i], ui[i], vi[i], hi[i]) && Correlated(oi[0], ui[0], vi[0], hi[0]);
      if i > 0 {
        forall j | 0 <= j < n ensures R(o[i][j]) == R(ui[i][j] + hi[i] * vi[0][j]) {
          DerandomizeStep(oi[i][j], ui[i][j], hi[i], vi[i][j], vi[0][j], msg[i - 1][j]);
        }
      }
    }
  }

  /** Every honest check is zero. */
  lemma HonestChecksPass(gamma: Vec, o: Vec, u: Vec, v0: Vec, h: Fe, c: Fe, cv1: Fe)
    requires Correlated(o, u, v0, h) && |o| <= |gamma| && c == R(Dot(gamma, u)) && cv1 == R(Dot(gamma, v0))
    ensures R(c - Dot(gamma, o) + h * cv1) == 0
  {
    hide R, Dot;
    DotCorrelated(gamma, o, u, v0, h);
    var a, b, d := Dot(gamma, u), Dot(gamma, v0), Dot(gamma, o);
    CanonicalTwice(a);
    CanonicalTwice(b);
    Congruent(c, a, d, a + h * b);
    Congruent(h, h, cv1, b);
    Congruent(c - d, a - (a + h * b), h * cv1, h * b);
    ZeroResidue();
  }

  lemma ZeroResidue()
    ensures R(0) == 0
  {}

  /** The receiver's entry is u + h * v. */
  lemma OutputEntry(col: Fe, colU: Fe, s: Fe, v0: Fe, h: Fe, deltaPrime: Fe, u: Fe, v: Fe, uPrime: Fe, vPrime: Fe)
    requires R(col) == R(colU + s * v0) && deltaPrime == R(h - s)
    requires uPrime == R(deltaPrime * v0 - colU + u) && vPrime == R(v - v0)
    ensures R(col + uPrime + h * vPrime) == R(u + h * v)
  {
    hide R;
    CanonicalTwice(h - s);
    CanonicalTwice(deltaPrime * v0 - colU + u);
    CanonicalTwice(v - v0);
    Congruent(deltaPrime, h - s, v0, v0);
    Congruent(deltaPrime * v0, (h - s) * v0, colU, colU);
    Congruent(deltaPrime * v0 - colU, (h - s) * v0 - colU, u, u);
    Congruent(col, colU + s * v0, uPrime, (h - s) * v0 - colU + u);
    Congruent(h, h, vPrime, v - v0);
    Congruent(col + uPrime, colU + s * v0 + ((h - s) * v0 - colU + u), h * vPrime, h * (v - v0));
    assert (h - s) * v0 == h * v0 - s * v0 && h * (v - v0) == h * v - h * v0;
  }

  lemma DifferenceCorrelated(d: Vec, v: Vec, v0: Vec)
    requires |d| == |v| == |v0| && forall j :: 0 <= j < |v| ==> d[j] == R(v[j] - v0[j])
    ensures Correlated(d, v, v0, -1)
  {
    forall j | 0 <= j < |v| ensures R(d[j]) == R(v[j] + -1 * v0[j]) { CanonicalTwice(v[j] - v0[j]); }
  }

  /** c_v folds (v, r_v). */
  lemma FoldedCv(gamma: Vec, v: Vec, v0: Vec, vPrime: Vec, cv1: Fe)
    requires |gamma| >= |v| == |v0| == |vPrime|
    requires Correlated(vPrime, v, v0, -1) && cv1 == R(Dot(gamma, v0))
    ensures R(Dot(gamma, vPrime) + cv1) == R(Dot(gamma, v))
  {
    hide R, Dot, Correlated;
    DotCorrelated(gamma, vPrime, v, v0, -1);
    CanonicalTwice(Dot(gamma, v0));
    Congruent(Dot(gamma, vPrime), Dot(gamma, v) - Dot(gamma, v0), cv1, Dot(gamma, v0));
  }

  /** c_u folds (u, r_u). */
  lemma FoldedCu(gamma: Vec, o: Vec, u: Vec, v: Vec, h: Fe, cv: Fe)
    requires |gamma| >= |o| == |u| == |v|
    requires Correlated(o, u, v, h) && R(cv) == R(Dot(gamma, v))
    ensures R(Dot(gamma, o) - h * cv) == R(Dot(gamma, u))
  {
    hide R, Dot, Correlated;
    DotCorrelated(gamma, o, u, v, h);
    SubtractShare(Dot(gamma, o), Dot(gamma, u), Dot(gamma, v), h, cv);
  }

  lemma SubtractShare(o: Fe, a: Fe, b: Fe, h: Fe, cv: Fe)
    requires R(o) == R(a + h * b) && R(cv) == R(b)
    ensures R(o - h * cv) == R(a)
  {
    hide R;
    Congruent(h, h, cv, b);
    Congruent(o, a + h * b, h * cv, h * b);
  }

  lemma DotWithOne(gamma: Vec, u: Vec, r: Fe)
    requires |gamma| == |u| + 1 && gamma[|u|] == 1
    ensures Dot(gamma, u + [r]) == Dot(gamma, u) + r
  {
    assert (u + [r])[..|u|] == u;
  }

  /**
   One whole honest VOLE+ for any length and repetition count: every check is zero, the client's
   output is u + h * v, and its folded values are those of the server's vectors.
   */
  method Run(vp: VolePlus, h: Fe, u: Vec, v: Vec, ru: Fe, rv: Fe, gamma: Vec, lambda: Vec,
             ui: seq<Vec>, vi: seq<Vec>, oi: seq<Vec>, hi: Vec)
    returns (ok: bool, o: Vec, cu: Fe, cv: Fe)
    requires vp.kVole > 0 && |u| == |v| == vp.len && |gamma| == vp.len + 1 && gamma[vp.len] == 1
    requires |lambda| == |hi| == vp.kVole
    requires Shape(ui, vp.kVole, vp.len + 1) && Shape(vi, vp.kVole, vp.len + 1) && Shape(oi, vp.kVole, vp.len + 1)
    requires RowsCorrelated(oi, ui, vi, hi)
    ensures ok && |o| == vp.len
    ensures Correlated(o, u, v, h) && forall j :: 0 <= j < vp.len ==> o[j] % P == (u[j] + h * v[j]) % P
    ensures R(cu) == R(ru + Dot(gamma, u)) && R(cv) == R(rv + Dot(gamma, v))
  {
    hide R, Dot, Column;
    var k, n := vp.kVole, vp.len;
    var msg := vp.SendDerandomization(vi);
    var aligned := vp.ReceiveDerandomization(oi, hi, msg);
    DerandomizedAligned(aligned, oi, ui, vi, hi, msg, n + 1);
    var cs, cv1 := vp.SendChecks(gamma, ui, vi);
    ok := vp.ReceiveChecks(gamma, aligned, hi, cs, cv1);
    forall i | 0 <= i < k ensures R(cs[i] - Dot(gamma, aligned[i]) + hi[i] * cv1) == 0 {
      HonestChecksPass(gamma, aligned[i], ui[i], vi[0], hi[i], cs[i], cv1);
    }
    var deltaPrime := vp.ReceiveDelta(h, lambda, hi);
    var uPrime, vPrime := vp.SendShares(u, v, ru, rv, ui, vi, lambda, deltaPrime);
    var full;
    full, cu, cv := vp.ReceiveShares(h, gamma, lambda, aligned, uPrime, vPrime, cv1);
    forall j | 0 <= j < n + 1 ensures R(full[j]) == R((u + [ru])[j] + h * (v + [rv])[j]) {
      ColumnCorrelated(lambda, aligned, ui, vi[0], hi, j, k);
      assert hi[..k] == hi;
      OutputEntry(Column(lambda, aligned, j, k), Column(lambda, ui, j, k), Dot(lambda, hi), vi[0][j],
                  h, deltaPrime, (u + [ru])[j], (v + [rv])[j], uPrime[j], vPrime[j]);
    }
    DifferenceCorrelated(vPrime, v + [rv], vi[0]);
    FoldedCv(gamma, v + [rv], vi[0], vPrime, cv1);
    FoldedCu(gamma, full, u + [ru], v + [rv], h, cv);
    DotWithOne(gamma, u, ru);
    DotWithOne(gamma, v, rv);
    o := full[..n];
    forall j | 0 <= j < n ensures R(o[j]) == R(u[j] + h * v[j]) {
      assert (u + [ru])[j] == u[j] && (v + [rv])[j] == v[j];
    }
    CorrelatedMeans(o, u, v, h);
  }
}
