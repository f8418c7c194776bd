/**
 Tools.cpp: modular exponentiation in 64-bit arithmetic, the Miller-Rabin test, and the search for the
 next prime. A generator is an arbitrary stream of draws.
 */
module MillerRabin {
  import opened Numbers

  const TWO32: int := 0x1_0000_0000
  const TWO64: int := 0x1_0000_0000_0000_0000

  type u64 = x: int | 0 <= x < TWO64

  /** Unsigned 64-bit wrap-around. */
  function W64(x: int): u64 { x % TWO64 }

  class Prng {
    const stream: nat -> u64
    var pos: nat

    constructor (stream: nat -> u64)
      ensures this.stream == stream && pos == 0
    {
      this.stream := stream;
      this.pos := 0;
    }

    method Get() returns (r: u64)
      modifies this
      ensures r == stream(old(pos)) && pos == old(pos) + 1
    {
      r := stream(pos);
      pos := pos + 1;
    }
  }

  lemma NoWrap(a: int, b: int, p: int)
    requires 0 <= a < p && 0 <= b < p && p <= TWO32
    ensures W64(a * b) == a * b
  {
    MulNonNeg(a, b);
    MulMono(a, TWO32 - 1, b);
    MulMono(b, TWO32 - 1, TWO32 - 1);
  }

  lemma StepAlgebra(res: int, x: int, y: nat, p: int)
    requires p > 0
    ensures y % 2 == 1 ==> Cong(res * Pow(x, y), ((res * x) % p) * Pow((x * x) % p, y / 2), p)
    ensures y % 2 == 0 ==> Cong(res * Pow(x, y), res * Pow((x * x) % p, y / 2), p)
  {
    var h := y / 2;
    PowOfProduct(x, x, h);
    PowAdd(x, h, h);
    CongMod(x * x, p);
    CongPow((x * x) % p, x * x, h, p);
    if y % 2 == 1 {
      assert Pow(x, y) == x * Pow(x, 2 * h);
      CongMod(res * x, p);
      CongMul((res * x) % p, res * x, Pow((x * x) % p, h), Pow(x * x, h), p);
      MulAssoc(res, x, Pow(x, 2 * h));
    } else {
      CongMul(res, res, Pow((x * x) % p, h), Pow(x * x, h), p);
    }
  }

  /** power: x^y mod p, exactly, for every modulus up to 2^32; only 0th powers modulo one are off. */
  method Power(x: u64, y: u64, p: u64) returns (res: u64)
    requires 0 < p <= TWO32
    ensures res == if p == 1 && y == 0 then 1 else Pow(x, y) % p
  {
    hide Pow;
    res := 1;
    var b: u64 := x % p;
    var e: nat := y;
    CongMod(x, p);
    CongPow(b, x, y, p);
    while e > 0
      invariant 0 <= e <= y && 0 <= b < p && (res < p || (res == 1 == p && (e > 0 || y == 0)))
      invariant Cong(res * Pow(b, e), Pow(x, y), p) && (y == 0 ==> res == 1)
    {
      StepAlgebra(res, b, e, p);
      if e % 2 == 1 {
        OneTimes(res, b, p);
        res := W64(res * b) % p;
      }
      e := e / 2;
      NoWrap(b, b, p);
      b := W64(b * b) % p;
    }
    ZerothPower(b);
    if res < p { ModUnique(res, 0, res, p); }
    if y == 0 { ZerothPower(x); }
  }

  lemma ZerothPower(b: int)
    ensures Pow(b, 0) == 1
  {}

  lemma OneTimes(res: int, b: int, p: int)
    requires 0 <= b < p <= TWO32 && (0 <= res < p || res == 1)
    ensures W64(res * b) == res * b
  {
    if res == 1 {} else { NoWrap(res, b, p); }
  }

  // -------------------------------------------------------------- the witness

  function Doubled(d: nat, r: nat): nat
  {
    if r == 0 then d else 2 * Doubled(d, r - 1)
  }

  /** The base after s squarings of its d-th power. */
  function Squared(a: int, d: nat, s: nat, n: int): (x: int)
    requires n > 0
    ensures 0 <= x < n
  {
    Pow(a, Doubled(d, s)) % n
  }

  lemma SquaredIs(a: int, d: nat, s: nat, n: int)
    requires n > 0
    ensures d * Pow(2, s) >= 0 && Squared(a, d, s, n) == Pow(a, d * Pow(2, s)) % n
  {
    hide Pow;
    DoubledIsShift(d, s);
  }

  /** A base that the test accepts: a^d = 1, or a^(d * 2^s) = -1 for some s up to r. */
  ghost predicate Accepted(a: int, d: nat, r: nat, n: int)
    requires n > 0
  {
    Squared(a, d, 0, n) == 1 || exists s: nat :: s <= r && Squared(a, d, s, n) == n - 1
  }

  lemma SquareOf(a: int, d: nat, s: nat, x: int, n: int)
    requires n > 0 && x == Squared(a, d, s, n)
    ensures (x * x) % n == Squared(a, d, s + 1, n)
  {
    hide Pow;
    var e := Doubled(d, s);
    PowAdd(a, e, e);
    CongMod(Pow(a, e), n);
    CongMul(x, Pow(a, e), x, Pow(a, e), n);
  }

  /** Once a power is one, all later squares are one. */
  lemma {:induction false} StaysOne(a: int, d: nat, s: nat, t: nat, n: int)
    requires n > 1 && s <= t && Squared(a, d, s, n) == 1
    ensures Squared(a, d, t, n) == 1
    decreases t - s
  {
    hide Squared, Pow;
    if s < t {
      SquareOf(a, d, s, 1, n);
      ModUnique(1, 0, 1, n);
      StaysOne(a, d, s + 1, t, n);
    }
  }

  lemma {:induction false} DoubledMono(d: nat, s: nat, t: nat)
    requires d > 0 && s < t
    ensures 0 < Doubled(d, s) < Doubled(d, t)
  {
    if s > 0 { DoubledMono(d, s - 1, t - 1); } else { DoubledGrows(d, t); }
  }

  lemma {:induction false} DoubledGrows(d: nat, t: nat)
    requires d > 0 && t > 0
    ensures d < Doubled(d, t)
  {
    if t > 1 { DoubledGrows(d, t - 1); } else { assert Doubled(d, 1) == 2 * Doubled(d, 0); }
  }

  lemma Below(d: nat, s: nat, r: nat)
    requires d > 0 && s <= r && Doubled(d, s) != Doubled(d, r)
    ensures s < r && 2 * Doubled(d, s) == Doubled(d, s + 1) <= Doubled(d, r)
  {
    if s + 1 < r { DoubledMono(d, s + 1, r); }
  }

  lemma AtMost(d: nat, s: nat, r: nat)
    requires d > 0 && s <= r
    ensures Doubled(d, 0) == d && d <= Doubled(d, s) <= Doubled(d, r) && (Doubled(d, s) == Doubled(d, r) ==> s == r)
  {
    if s < r { DoubledMono(d, s, r); }
    if s > 0 { DoubledMono(d, 0, s); }
  }

  /** Neither one nor minus one among the squares up to `s`. */
  ghost predicate NoneUpTo(a: int, d: nat, s: nat, n: int)
    requires n > 0
  {
    forall t: nat :: t <= s ==> Squared(a, d, t, n) != 1 && Squared(a, d, t, n) != n - 1
  }

  lemma RejectedByNone(a: int, d: nat, r: nat, n: int)
    requires n > 2 && NoneUpTo(a, d, r, n)
    ensures !Accepted(a, d, r, n)
  {
    hide Squared, Pow;
    assert Doubled(d, 0) == d;
  }

  /** A one after neither one nor minus one: no later square is minus one. */
  lemma RejectedByOne(a: int, d: nat, s: nat, r: nat, n: int)
    requires n > 2 && s < r && NoneUpTo(a, d, s, n) && Squared(a, d, s + 1, n) == 1
    ensures !Accepted(a, d, r, n)
  {
    hide Squared, Pow;
    forall t: nat | t <= r ensures Squared(a, d, t, n) != n - 1 {
      if t > s { StaysOne(a, d, s + 1, t, n); }
    }
  }

  /** millerTest: true exactly for an accepted base; `d` runs up to n - 1 = d * 2^r. */
  method MillerTest(d: u64, prng: Prng, n: u64, ghost r: nat) returns (ok: bool)
    requires 4 < n < TWO32 && d > 0 && Doubled(d, r) == n - 1
    modifies prng
    ensures prng.pos == old(prng.pos) + 1
    ensures ok <==> Accepted(2 + prng.stream(old(prng.pos)) % (n - 4), d, r, n)
  {
    hide Pow, Doubled, W64, Accepted;
    var draw := prng.Get();
    var base := draw % (n - 4);
    Small(2 + base);
    var a: u64 := W64(2 + base);
    ok := Squares(a, d, n, r);
  }

  lemma FirstSquare(a: int, d: nat, n: int)
    requires n > 0
    ensures Squared(a, d, 0, n) == Pow(a, d) % n
  {}

  method Squares(a: u64, d0: u64, n: u64, ghost r: nat) returns (ok: bool)
    requires 4 < n < TWO32 && d0 > 0 && Doubled(d0, r) == n - 1
    ensures ok <==> Accepted(a, d0, r, n)
  {
    hide Squared, Pow;
    hide Doubled, W64;
    AtMost(d0, 0, r);
    var x := Power(a, d0, n);
    FirstSquare(a, d0, n);
    if x == 1 { return true; }
    if x == n - 1 { return true; }
    var d: u64 := d0;
    ghost var s := 0;
    while d != n - 1
      invariant s <= r && d == Doubled(d0, s) && x == Squared(a, d0, s, n) && 0 <= x < n && NoneUpTo(a, d0, s, n)
      decreases r - s
    {
      Below(d0, s, r);
      SquareOf(a, d0, s, x, n);
      NoWrap(x, x, n);
      x := W64(x * x) % n;
      Small(d * 2);
      d := W64(d * 2);
      if x == 1 {
        RejectedByOne(a, d0, s, r, n);
        return false;
      }
      s := s + 1;
      if x == n - 1 { return true; }
    }
    AtMost(d0, s, r);
    RejectedByNone(a, d0, r, n);
    ok := false;
  }

  lemma Small(x: int)
    requires 0 <= x < TWO64
    ensures W64(x) == x
  {}

  /** Modulo a prime, one has no square roots but one and minus one. */
  lemma RootsOfOne(p: int, x: int)
    requires IsPrime(p) && 0 <= x < p && (x * x) % p == 1
    ensures x == 1 || x == p - 1
  {
    ModUnique(1, 0, 1, p);
    CongAdd(x * x, 1, 1, 1, p);
    assert (x - 1) * (x + 1) == x * x - 1;
    ModUnique(0, 0, 0, p);
    Euclid(p, x - 1, x + 1);
    if Divides(p, x - 1) {
      if x > 1 { ModUnique(x - 1, 0, x - 1, p); }
      if x == 0 { ModUnique(-1, -1, p - 1, p); }
    } else {
      if x + 1 < p { ModUnique(x + 1, 0, x + 1, p); }
    }
  }

  /** Below a one there are only ones, or there is a minus one. */
  lemma {:induction false} Descent(p: int, a: int, d: nat, r: nat)
    requires IsPrime(p) && Squared(a, d, r, p) == 1
    ensures Accepted(a, d, r, p)
  {
    hide Squared, Pow;
    if r > 0 {
      var x := Squared(a, d, r - 1, p);
      SquareOf(a, d, r - 1, x, p);
      RootsOfOne(p, x);
      if x == 1 { Descent(p, a, d, r - 1); }
    }
  }

  /** A prime is accepted whatever base is drawn. */
  lemma PrimeAccepted(n: int, a: int, d: nat, r: nat)
    requires IsPrime(n) && 0 < a < n && Doubled(d, r) == n - 1
    ensures Accepted(a, d, r, n)
  {
    ModUnique(a, 0, a, n);
    ModUnique(1, 0, 1, n);
    Fermat(n, a);
    assert Squared(a, d, r, n) == Pow(a, n - 1) % n;
    hide Squared, Pow;
    Descent(n, a, d, r);
  }

  ghost predicate AllAccepted(stream: nat -> u64, pos: nat, k: nat, d: nat, r: nat, n: int)
    requires n > 4
  {
    forall i: nat :: pos <= i < pos + k ==> Accepted(2 + stream(i) % (n - 4), d, r, n)
  }

  /** m = OddOf(m) * 2^TwosOf(m) with an odd factor. */
  function OddOf(m: nat): (d: nat)
    requires m > 0
    ensures 0 < d <= m && d % 2 == 1
  {
    if m % 2 == 0 then OddOf(m / 2) else m
  }

  function TwosOf(m: nat): nat
    requires m > 0
  {
    if m % 2 == 0 then 1 + TwosOf(m / 2) else 0
  }

  lemma {:induction false} OddTimesTwos(m: nat)
    requires m > 0
    ensures Doubled(OddOf(m), TwosOf(m)) == m
  {
    if m % 2 == 0 { OddTimesTwos(m / 2); }
  }

  /** What isPrime decides: two, three, or k accepted bases drawn from position `pos` on. */
  ghost predicate Passes(stream: nat -> u64, pos: nat, k: nat, n: int)
  {
    n == 2 || n == 3 || (n > 4 && AllAccepted(stream, pos, k, OddOf(n - 1), TwosOf(n - 1), n))
  }

  /** No prime is rejected, whatever is drawn. */
  lemma PrimePasses(stream: nat -> u64, pos: nat, k: nat, n: int)
    requires IsPrime(n)
    ensures Passes(stream, pos, k, n)
  {
    hide Accepted, IsPrime, OddOf, TwosOf;
    SmallComposites(n);
    if n > 4 {
      OddTimesTwos(n - 1);
      forall i: nat | pos <= i < pos + k ensures Accepted(2 + stream(i) % (n - 4), OddOf(n - 1), TwosOf(n - 1), n) {
        PrimeAccepted(n, 2 + stream(i) % (n - 4), OddOf(n - 1), TwosOf(n - 1));
      }
    }
  }

  lemma {:induction false} DoubledIsShift(d: nat, r: nat)
    ensures Doubled(d, r) == d * Pow(2, r)
  {
    if r > 0 { DoubledIsShift(d, r - 1); }
  }

  lemma {:induction false} OddUnique(d: nat, r: nat)
    requires d % 2 == 1
    ensures Doubled(d, r) > 0 && OddOf(Doubled(d, r)) == d && TwosOf(Doubled(d, r)) == r
  {
    if r > 0 { OddUnique(d, r - 1); }
  }

  lemma MinusOneSquared(n: int)
    requires n > 2
    ensures (n - 1) * (n - 1) % n == 1
  {
    assert (n - 1) * (n - 1) == (n - 2) * n + 1;
    ModUnique((n - 1) * (n - 1), n - 2, 1, n);
  }

  /** An accepted base satisfies Fermat's equation up to the sign. */
  lemma AcceptedFermat(a: int, d: nat, r: nat, n: int)
    requires n > 2 && Doubled(d, r) == n - 1 && Accepted(a, d, r, n)
    ensures Pow(a, n - 1) % n == 1 || Pow(a, n - 1) % n == n - 1
  {
    assert Squared(a, d, r, n) == Pow(a, n - 1) % n;
    hide Squared, Pow;
    if Squared(a, d, 0, n) == 1 {
      StaysOne(a, d, 0, r, n);
    } else {
      var s: nat :| s <= r && Squared(a, d, s, n) == n - 1;
      if s < r {
        SquareOf(a, d, s, n - 1, n);
        MinusOneSquared(n);
        StaysOne(a, d, s + 1, r, n);
      }
    }
  }

  /** What the k rounds decide, for n - 1 = d * 2^r with odd d, in plain powers. */
  lemma PassesIff(stream: nat -> u64, pos: nat, k: nat, n: int, d: nat, r: nat)
    requires n > 4 && d % 2 == 1 && n - 1 == Doubled(d, r)
    ensures Passes(stream, pos, k, n) <==>
      forall i: nat :: pos <= i < pos + k ==>
        var a := 2 + stream(i) % (n - 4);
        Squared(a, d, 0, n) == 1 || exists s: nat :: s <= r && Squared(a, d, s, n) == n - 1
  {
    OddUnique(d, r);
    hide Squared, Doubled, OddOf, TwosOf;
  }

  lemma PassesFermat(stream: nat -> u64, pos: nat, k: nat, n: int)
    requires n > 4 && Passes(stream, pos, k, n)
    ensures forall i: nat :: pos <= i < pos + k ==> Pow(2 + stream(i) % (n - 4), n - 1) % n in {1, n - 1}
  {
    var d, r := OddOf(n - 1), TwosOf(n - 1);
    OddTimesTwos(n - 1);
    hide Pow, Doubled, Accepted, OddOf, TwosOf;
    forall i: nat | pos <= i < pos + k ensures Pow(2 + stream(i) % (n - 4), n - 1) % n in {1, n - 1} {
      AcceptedFermat(2 + stream(i) % (n - 4), d, r, n);
    }
  }

  /**
   isPrime: the corner cases, and k rounds on n - 1 = d' * 2^r with odd d'. The answer is true exactly if every drawn base
   has d'-th power one or some power d' * 2^s that is minus one.
   */
  method IsPrimeTest(n: u64, prng: Prng, k: u64) returns (ok: bool, ghost d': nat, ghost r: nat)
    requires n < TWO32
    modifies prng
    ensures n <= 4 ==> (ok <==> n == 2 || n == 3)
    ensures n > 4 ==> n - 1 == d' * Pow(2, r) && d' % 2 == 1
    ensures n > 4 ==>
      (ok <==> forall i: nat :: old(prng.pos) <= i < old(prng.pos) + k ==>
        var a := 2 + prng.stream(i) % (n - 4);
        Squared(a, d', 0, n) == 1 || exists s: nat :: s <= r && Squared(a, d', s, n) == n - 1)
    ensures n > 4 && ok ==> forall i: nat :: old(prng.pos) <= i < old(prng.pos) + k ==>
      Pow(2 + prng.stream(i) % (n - 4), n - 1) % n in {1, n - 1}
    ensures old(prng.pos) <= prng.pos <= old(prng.pos) + k && (n > 4 && ok ==> prng.pos == old(prng.pos) + k)
    ensures ok <==> Passes(prng.stream, old(prng.pos), k, n)
    ensures IsPrime(n) ==> ok
  {
    hide Doubled, AllAccepted, IsPrime, OddOf, TwosOf, Pow, Accepted;
    d', r := 0, 0;
    SmallPasses(prng.stream, prng.pos, k, n);
    if IsPrime(n) { PrimePasses(prng.stream, prng.pos, k, n); }
    if n > 4 {
      d', r := OddOf(n - 1), TwosOf(n - 1);
      OddTimesTwos(n - 1);
      DoubledIsShift(d', r);
      PassesIff(prng.stream, prng.pos, k, n, d', r);
      if Passes(prng.stream, prng.pos, k, n) { PassesFermat(prng.stream, prng.pos, k, n); }
    }
    ok := false;
    if n <= 1 || n == 4 { return; }
    if n <= 3 {
      ok := true;
      return;
    }
    var d := OddPart(n - 1);
    OddTimesTwos(n - 1);
    ok := Rounds(d, prng, n, k, TwosOf(n - 1));
  }

  lemma SmallPasses(stream: nat -> u64, pos: nat, k: nat, n: int)
    ensures n <= 4 ==> (Passes(stream, pos, k, n) <==> n == 2 || n == 3)
  {}

  method OddPart(m: u64) returns (d: u64)
    requires m > 0
    ensures d == OddOf(m)
  {
    d := m;
    while d % 2 == 0
      invariant d > 0 && OddOf(d) == OddOf(m)
      decreases d
    {
      d := d / 2;
    }
  }

  /** The k rounds. */
  method Rounds(d: u64, prng: Prng, n: u64, k: u64, ghost r: nat) returns (ok: bool)
    requires 4 < n < TWO32 && d > 0 && Doubled(d, r) == n - 1
    modifies prng
    ensures ok <==> AllAccepted(prng.stream, old(prng.pos), k, d, r, n)
    ensures old(prng.pos) <= prng.pos <= old(prng.pos) + k && (ok ==> prng.pos == old(prng.pos) + k)
  {
    hide Doubled, Accepted;
    var i: u64 := 0;
    while i < k
      invariant 0 <= i <= k && prng.pos == old(prng.pos) + i
      invariant AllAccepted(prng.stream, old(prng.pos), i, d, r, n)
    {
      var fine := MillerTest(d, prng, n, r);
      if !fine {
        assert !Accepted(2 + prng.stream(old(prng.pos) + i) % (n - 4), d, r, n);
        return false;
      }
      i := i + 1;
    }
    ok := true;
  }

  lemma SmallComposites(n: int)
    ensures IsPrime(n) ==> n == 2 || n == 3 || n > 4
  {
    FourIsComposite();
  }

  lemma FourIsComposite()
    ensures !IsPrime(4)
  {
    DividesFrom(2, 2, 4);
    assert Divides(2, 4);
  }

  /**
   nextPrime: with a prime q at or above n the search ends by q. It tries the numbers from n on, each on the draws behind
   those of the one before, and stops at the first that passes; it steps over no prime, and every base drawn for the
   result satisfies Fermat's equation up to the sign.
   */
  method NextPrime(n: u64, prng: Prng, k: u64, ghost q: int) returns (r: u64, ghost starts: seq<nat>)
    requires IsPrime(q) && n <= q < TWO32
    modifies prng
    ensures n <= r <= q && |starts| == r - n + 1 && starts[0] == old(prng.pos)
    ensures forall j :: 0 <= j < r - n ==> starts[j] <= starts[j + 1] <= starts[j] + k && !Passes(prng.stream, starts[j], k, n + j)
    ensures Passes(prng.stream, starts[r - n], k, r) && (r > 4 ==> prng.pos == starts[r - n] + k)
    ensures r > 4 ==> forall i: nat :: prng.pos <= i + k < prng.pos + k ==>
      Pow(2 + prng.stream(i) % (r - 4), r - 1) % r in {1, r - 1}
    ensures forall m :: n <= m < r ==> !IsPrime(m)
  {
    hide IsPrime, Passes, Pow, Tried, Doubled;
    r := n;
    starts := [prng.pos];
    NoneTried(prng.stream, starts, n, k);
    ghost var d, t;
    var ok;
    ok, d, t := IsPrimeTest(r, prng, k);
    while !ok
      invariant n <= r <= q && (IsPrime(r) ==> ok) && |starts| == r - n + 1 && starts[0] == old(prng.pos)
      invariant starts[r - n] <= prng.pos <= starts[r - n] + k && (r > 4 && ok ==> prng.pos == starts[r - n] + k)
      invariant Tried(prng.stream, starts, n, r, k) && (ok <==> Passes(prng.stream, starts[r - n], k, r))
      invariant forall m :: n <= m < r ==> !IsPrime(m)
      decreases q - r, !ok
    {
      OneMore(prng.stream, starts, n, r, k, prng.pos);
      r := r + 1;
      starts := starts + [prng.pos];
      ok, d, t := IsPrimeTest(r, prng, k);
    }
    AllTried(prng.stream, starts, n, r, k);
    if r > 4 { PassesFermat(prng.stream, starts[r - n], k, r); }
  }

  /** The numbers before `r` were rejected, each on the draws behind those of the one before. */
  ghost predicate Tried(stream: nat -> u64, starts: seq<nat>, n: nat, r: nat, k: nat)
  {
    && n <= r && |starts| == r - n + 1
    && forall j :: 0 <= j < r - n ==> starts[j] <= starts[j + 1] <= starts[j] + k && !Passes(stream, starts[j], k, n + j)
  }

  lemma NoneTried(stream: nat -> u64, starts: seq<nat>, n: nat, k: nat)
    requires |starts| == 1
    ensures Tried(stream, starts, n, n, k)
  {}

  lemma OneMore(stream: nat -> u64, starts: seq<nat>, n: nat, r: nat, k: nat, pos: nat)
    requires Tried(stream, starts, n, r, k)
    requires n <= r && |starts| == r - n + 1 && starts[r - n] <= pos <= starts[r - n] + k && !Passes(stream, starts[r - n], k, r)
    ensures Tried(stream, starts + [pos], n, r + 1, k)
  {
    hide Passes;
  }

  lemma AllTried(stream: nat -> u64, starts: seq<nat>, n: nat, r: nat, k: nat)
    requires Tried(stream, starts, n, r, k)
    ensures n <= r && |starts| == r - n + 1
    ensures forall j :: 0 <= j < r - n ==> starts[j] <= starts[j + 1] <= starts[j] + k && !Passes(stream, starts[j], k, n + j)
  {
    hide Passes;
  }
}
