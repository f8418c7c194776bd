/**
 Number theory shared by the field, the protocol and the primality-test models:
 powers, congruences, Euclid's lemma and Fermat's little theorem.
 */
module Numbers {

  // ---------------------------------------------------------------- powers

  function Pow(b: int, e: nat): int
  {
    if e == 0 then 1 else b * Pow(b, e - 1)
  }

  /** Powers, written out. */
  lemma PowWritten(b: int, e: nat)
    ensures Pow(b, 0) == 1 && Pow(b, 1) == b && Pow(b, e + 1) == b * Pow(b, e)
  {}

  lemma {:induction false} PowAdd(b: int, m: nat, n: nat)
    ensures Pow(b, m + n) == Pow(b, m) * Pow(b, n)
  {
    if m > 0 {
      PowAdd(b, m - 1, n);
      MulAssoc(b, Pow(b, m - 1), Pow(b, n));
    }
  }

  lemma {:induction false} PowOfPow(b: int, m: nat, n: nat)
    ensures Pow(Pow(b, m), n) == Pow(b, m * n)
  {
    if n == 0 {
      assert m * n == 0;
    } else {
      PowOfPow(b, m, n - 1);
      MulNonNeg(m, n - 1);
      assert m * n == m + m * (n - 1);
      PowAdd(b, m, m * (n - 1));
    }
  }

  lemma {:induction false} PowOfProduct(a: int, b: int, n: nat)
    ensures Pow(a * b, n) == Pow(a, n) * Pow(b, n)
  {
    if n > 0 {
      PowOfProduct(a, b, n - 1);
      MulSwap(a, b, Pow(a, n - 1), Pow(b, n - 1));
    }
  }

  lemma {:induction false} PowOne(n: nat)
    ensures Pow(1, n) == 1
  {
    if n > 0 { PowOne(n - 1); }
  }

  lemma {:induction false} PowPositive(b: nat, n: nat)
    requires b > 0
    ensures Pow(b, n) > 0
  {
    if n > 0 { PowPositive(b, n - 1); }
  }

  lemma MulAssoc(a: int, b: int, c: int)
    ensures (a * b) * c == a * (b * c)
  {}

  lemma MulSwap(a: int, b: int, c: int, d: int)
    ensures (a * b) * (c * d) == (a * c) * (b * d)
  {
    MulAssoc(a, b, c * d);
    MulAssoc(b, c, d);
    MulAssoc(c, b, d);
    MulAssoc(a, c, b * d);
  }

  lemma MulNonNeg(a: nat, b: nat)
    ensures a * b >= 0
  {}

  lemma MulMono(a: int, b: int, c: nat)
    requires a <= b
    ensures a * c <= b * c
  {}

  function Min(a: nat, b: nat): nat { if a < b then a else b }

  // ---------------------------------------------------------- congruences

  /** `a` and `b` leave the same remainder modulo `m`. */
  predicate Cong(a: int, b: int, m: int)
    requires m > 0
  {
    a % m == b % m
  }

  lemma CongMeans(a: int, b: int, m: int)
    requires m > 0
    ensures Cong(a, b, m) <==> a % m == b % m
    ensures Cong(a, b, m) <==> (a - b) % m == 0
  {
    var q := a / m - b / m;
    assert a - b == q * m + (a % m - b % m);
    if a % m == b % m { ModUnique(a - b, q, 0, m); }
    if (a - b) % m == 0 {
      var k := (a - b) / m;
      assert a - b == k * m;
      assert a == (b / m + k) * m + b % m;
      ModUnique(a, b / m + k, b % m, m);
    }
  }

  lemma ModUnique(x: int, q: int, r: int, m: int)
    requires 0 <= r < m && x == q * m + r
    ensures x % m == r && x / m == q
  {
    var q', r' := x / m, x % m;
    assert x == q' * m + r';
    assert (q - q') * m == r' - r;
    if q > q' {
      MulMono(1, q - q', m);
    } else if q < q' {
      MulMono(q - q', -1, m);
    }
  }

  /** Dividing twice is dividing by the product. */
  lemma DivideTwice(x: nat, m: nat, q: nat)
    requires m > 0 && q > 0
    ensures m * q > 0 && x / m / q == x / (m * q)
  {
    var a := x / m;
    assert x == a * m + x % m;
    assert a == (a / q) * q + a % q;
    MulMono(1, q, m);
    assert x == (a / q) * (m * q) + ((a % q) * m + x % m) by {
      MulAssoc(a / q, q, m);
      assert a * m == ((a / q) * q) * m + (a % q) * m;
    }
    MulMono(a % q, q - 1, m);
    assert (q - 1) * m == q * m - m;
    ModUnique(x, a / q, (a % q) * m + x % m, m * q);
  }

  lemma QuotientBound(x: nat, m: nat, q: nat)
    requires m > 0 && x < m * q
    ensures x / m < q
  {
    assert x == x / m * m + x % m;
    if x / m >= q { MulMono(q, x / m, m); }
  }

  lemma CongFrom(a: int, b: int, k: int, m: int)
    requires m > 0 && a == b + k * m
    ensures Cong(a, b, m)
  {
    assert b == (b / m) * m + b % m;
    assert a == (b / m + k) * m + b % m;
    ModUnique(a, b / m + k, b % m, m);
  }

  lemma CongTo(a: int, b: int, m: int) returns (k: int)
    requires m > 0 && Cong(a, b, m)
    ensures a == b + k * m
  {
    k := a / m - b / m;
    assert a == (a / m) * m + a % m;
    assert b == (b / m) * m + b % m;
    assert (a / m - b / m) * m == (a / m) * m - (b / m) * m;
  }

  lemma CongAdd(a: int, a': int, b: int, b': int, m: int)
    requires m > 0 && Cong(a, a', m) && Cong(b, b', m)
    ensures Cong(a + b, a' + b', m) && Cong(a - b, a' - b', m)
  {
    var k := CongTo(a, a', m);
    var l := CongTo(b, b', m);
    assert (k + l) * m == k * m + l * m;
    assert (k - l) * m == k * m - l * m;
    CongFrom(a + b, a' + b', k + l, m);
    CongFrom(a - b, a' - b', k - l, m);
  }

  lemma CongMul(a: int, a': int, b: int, b': int, m: int)
    requires m > 0 && Cong(a, a', m) && Cong(b, b', m)
    ensures Cong(a * b, a' * b', m)
  {
    hide Cong;
    var k := CongTo(a, a', m);
    var l := CongTo(b, b', m);
    ProductDifference(a', k, b', l, m);
    CongFrom(a * b, a' * b', k * b + a' * l, m);
  }

  lemma ProductDifference(a: int, k: int, b: int, l: int, m: int)
    ensures (a + k * m) * (b + l * m) == a * b + (k * (b + l * m) + a * l) * m
  {
    var c := b + l * m;
    assert (a + k * m) * c == a * c + (k * m) * c;
    assert (k * m) * c == (k * c) * m by { MulAssoc(k, m, c); MulAssoc(k, c, m); }
    assert a * c == a * b + (a * l) * m by { MulAssoc(a, l, m); }
    assert (k * c + a * l) * m == (k * c) * m + (a * l) * m;
  }

  lemma {:induction false} CongPow(a: int, a': int, n: nat, m: int)
    requires m > 0 && Cong(a, a', m)
    ensures Cong(Pow(a, n), Pow(a', n), m)
  {
    if n > 0 {
      CongPow(a, a', n - 1, m);
      CongMul(a, a', Pow(a, n - 1), Pow(a', n - 1), m);
    }
  }

  lemma CongMod(a: int, m: int)
    requires m > 0
    ensures Cong(a % m, a, m)
  {
    ModUnique(a % m, 0, a % m, m);
  }

  // ------------------------------------------------------------ primality

  predicate Divides(d: int, n: int)
    requires d > 0
  {
    n % d == 0
  }

  ghost predicate IsPrime(p: int)
  {
    p >= 2 && forall d :: 2 <= d < p ==> !Divides(d, p)
  }

  /** A prime is a number from two up whose only factorisations are trivial. */
  lemma PrimeMeans(p: int)
    ensures IsPrime(p) <==> p >= 2 && forall a: nat, b: nat :: a * b == p ==> a == 1 || b == 1
  {
    if IsPrime(p) {
      forall a: nat, b: nat | a * b == p ensures a == 1 || b == 1 { PrimeFactors(p, a, b); }
    }
    if p >= 2 && forall a: nat, b: nat :: a * b == p ==> a == 1 || b == 1 {
      forall d | 2 <= d < p ensures !Divides(d, p) { NoFactor(p, d); }
    }
  }

  lemma NoFactor(p: int, d: nat)
    requires 2 <= d < p && forall a: nat, b: nat :: a * b == p ==> a == 1 || b == 1
    ensures !Divides(d, p)
  {
    var k := p / d;
    assert p == d * k + p % d;
    assert d * k == p ==> d == 1 || k == 1;
  }

  lemma PrimeFactors(p: int, a: nat, b: nat)
    requires IsPrime(p) && a * b == p
    ensures a == 1 || b == 1
  {
    assert b == 0 || b >= 1;
    if a >= 2 && b >= 2 {
      MulMono(2, b, a);
      DividesFrom(a, b, p);
    }
  }

  lemma DividesFrom(d: int, k: int, n: int)
    requires d > 0 && n == k * d
    ensures Divides(d, n)
  {
    ModUnique(n, k, 0, d);
  }

  /** Euclid's lemma for a factor already reduced below the prime. */
  lemma {:induction false} EuclidReduced(p: int, a: int, b: int)
    requires IsPrime(p) && 0 < a < p && Divides(p, a * b)
    ensures Divides(p, b)
    decreases a
  {
    if a > 1 {
      var r := p % a;
      assert !Divides(a, p);
      var k := (a * b) / p;
      assert a * b == k * p;
      assert p == (p / a) * a + r;
      assert r * b == p * b - (p / a) * (a * b) == (b - (p / a) * k) * p by {
        assert (p / a) * (k * p) == ((p / a) * k) * p;
        assert (p - (p / a) * a) * b == p * b - ((p / a) * a) * b;
        MulAssoc(p / a, a, b);
      }
      DividesFrom(p, b - (p / a) * k, r * b);
      EuclidReduced(p, r, b);
    }
  }

  /** A prime that divides a product divides one of the factors. */
  lemma Euclid(p: int, a: int, b: int)
    requires IsPrime(p) && Divides(p, a * b)
    ensures Divides(p, a) || Divides(p, b)
  {
    if !Divides(p, a) {
      CongMod(a, p);
      CongMul(a % p, a, b, b, p);
      EuclidReduced(p, a % p, b);
    }
  }

  // ------------------------------------------------ Fermat's little theorem

  function Choose(n: nat, k: nat): nat
  {
    if k == 0 then 1 else if n == 0 then 0 else Choose(n - 1, k - 1) + Choose(n - 1, k)
  }

  lemma {:induction false} ChooseAbove(n: nat, k: nat)
    requires k > n
    ensures Choose(n, k) == 0
  {
    if n > 0 { ChooseAbove(n - 1, k - 1); ChooseAbove(n - 1, k); }
  }

  lemma {:induction false} ChooseSelf(n: nat)
    ensures Choose(n, n) == 1
  {
    if n > 0 { ChooseSelf(n - 1); ChooseAbove(n - 1, n); }
  }

  lemma AbsorbAlgebra(n: int, k: int, b: int, c: int, d: int)
    requires k * b == (n - 1) * c && (k - 1) * (d + c) == (n - 1) * d
    ensures k * (d + c + b) == n * (d + c)
  {
    assert k * (d + c + b) == (k - 1) * (d + c) + (d + c) + k * b;
    assert n * (d + c) == (n - 1) * d + (n - 1) * c + (d + c);
  }

  lemma {:induction false} ChooseAbsorb(n: nat, k: nat)
    requires n > 0 && k > 0
    ensures k * Choose(n, k) == n * Choose(n - 1, k - 1)
  {
    if n == 1 {
      if k > 1 { ChooseAbove(1, k); ChooseAbove(0, k - 1); }
    } else {
      ChooseAbsorb(n - 1, k);
      if k > 1 {
        ChooseAbsorb(n - 1, k - 1);
        AbsorbAlgebra(n, k, Choose(n - 1, k), Choose(n - 2, k - 1), Choose(n - 2, k - 2));
      }
    }
  }

  /** The first `k` terms of the expansion of (x+1)^n. */
  function Binomial(n: nat, x: int, k: nat): int
  {
    if k == 0 then 0 else Binomial(n, x, k - 1) + Choose(n, k - 1) * Pow(x, k - 1)
  }

  lemma BinomialAlgebra(a: int, b: int, x: int, q: int, s: int)
    ensures (a + b) * (x * q) + x * s == b * (x * q) + x * (s + a * q)
  {
    MulAssoc(x, a, q);
    MulAssoc(a, x, q);
    assert (a + b) * (x * q) == a * (x * q) + b * (x * q);
    assert x * (s + a * q) == x * s + x * (a * q);
  }

  lemma {:induction false} BinomialStep(n: nat, x: int, k: nat)
    requires n > 0
    ensures Binomial(n, x, k + 1) == Binomial(n - 1, x, k + 1) + x * Binomial(n - 1, x, k)
  {
    if k > 0 {
      BinomialStep(n, x, k - 1);
      BinomialAlgebra(Choose(n - 1, k - 1), Choose(n - 1, k), x, Pow(x, k - 1), Binomial(n - 1, x, k - 1));
    } else {
      assert Binomial(n, x, 1) == 1 == Binomial(n - 1, x, 1);
    }
  }

  lemma {:induction false} BinomialTheorem(n: nat, x: int)
    ensures Binomial(n, x, n + 1) == Pow(x + 1, n)
  {
    if n == 0 {
      assert Binomial(0, x, 1) == Binomial(0, x, 0) + Choose(0, 0) * Pow(x, 0);
    } else {
      BinomialStep(n, x, n);
      BinomialTheorem(n - 1, x);
      ChooseAbove(n - 1, n);
    }
  }

  lemma {:induction false} BinomialModPrime(p: int, x: int, k: nat)
    requires IsPrime(p) && 1 <= k <= p
    ensures Cong(Binomial(p, x, k), 1, p)
  {
    if k == 1 {
      assert Binomial(p, x, 1) == Binomial(p, x, 0) + Choose(p, 0) * Pow(x, 0);
    } else {
      BinomialModPrime(p, x, k - 1);
      var c := Choose(p, k - 1);
      ChooseAbsorb(p, k - 1);
      DividesFrom(p, Choose(p - 1, k - 2), (k - 1) * c);
      EuclidReduced(p, k - 1, c);
      CongMul(c, 0, Pow(x, k - 1), Pow(x, k - 1), p);
      CongAdd(Binomial(p, x, k - 1), 1, c * Pow(x, k - 1), 0, p);
    }
  }

  lemma {:induction false} FermatNat(p: int, a: nat)
    requires IsPrime(p)
    ensures Cong(Pow(a, p), a, p)
  {
    if a == 0 {
      assert Pow(0, p) == 0;
    } else {
      var x := a - 1;
      FermatNat(p, x);
      BinomialTheorem(p, x);
      BinomialModPrime(p, x, p);
      ChooseSelf(p);
      CongAdd(Binomial(p, x, p), 1, Pow(x, p), x, p);
    }
  }

  /** Fermat's little theorem: a nonzero residue has order dividing p - 1. */
  lemma Fermat(p: int, a: int)
    requires IsPrime(p) && !Divides(p, a)
    ensures Cong(Pow(a, p - 1), 1, p)
  {
    var r := a % p;
    FermatNat(p, r);
    var k := CongTo(Pow(r, p), r, p);
    var f := Pow(r, p - 1);
    assert r * (f - 1) == k * p;
    DividesFrom(p, k, r * (f - 1));
    EuclidReduced(p, r, f - 1);
    CongAdd(f - 1, 0, 1, 1, p);
    CongMod(a, p);
    CongPow(r, a, p - 1, p);
  }
}
