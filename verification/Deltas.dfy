/**
 params-scripts/dpub.py, what the count is for: the words of length l_com over epsilon symbols, sorted by how often
 their symbols occur. The pruned total is the number of words whose counts beat the threshold.
 */
module Deltas {
  import opened Numbers
  import opened Partitions

  // ------------------------------------------------------------------ words

  /** All words of length `n` over the symbols below `e`. */
  ghost function Words(n: nat, e: nat): (r: set<seq<nat>>)
    ensures forall w: seq<nat> :: w in r <==> |w| == n && forall i :: 0 <= i < n ==> w[i] < e
  {
    if n == 0 then {[]}
    else
      var r := set w, x | w in Words(n - 1, e) && 0 <= x < e :: w + [x];
      assert forall w: seq<nat> :: |w| == n && (forall i :: 0 <= i < n ==> w[i] < e) ==> w == w[..n - 1] + [w[n - 1]];
      r
  }

  /** How often each symbol occurs. */
  ghost function Counts(w: seq<nat>, e: nat): (c: seq<nat>)
    ensures |c| == e && forall x :: 0 <= x < e ==> c[x] == multiset(w)[x]
  {
    seq(e, x requires 0 <= x < e => multiset(w)[x])
  }

  /** Appending a symbol is injective. */
  lemma {:induction false} AppendCount(s: set<seq<nat>>, t: set<seq<nat>>, x: nat)
    requires forall w: seq<nat> :: w in t <==> w != [] && w[|w| - 1] == x && w[..|w| - 1] in s
    ensures |t| == |s|
  {
    if s == {} {
      assert t == {};
    } else {
      var u :| u in s;
      var v := u + [x];
      assert v[..|v| - 1] == u;
      forall w: seq<nat> ensures w in t - {v} <==> w != [] && w[|w| - 1] == x && w[..|w| - 1] in s - {u} {
        if w != [] && w[|w| - 1] == x && w[..|w| - 1] == u { assert w == v; }
      }
      AppendCount(s - {u}, t - {v}, x);
    }
  }

  lemma Halves(s: set<seq<nat>>, a: set<seq<nat>>, b: set<seq<nat>>)
    requires s == a + b && a !! b
    ensures |s| == |a| + |b|
  {}

  // ------------------------------------------------------- products of factorials

  /** The product of the factorials of a list. */
  function FactProduct(s: seq<nat>): (r: nat)
    ensures r >= 1
  {
    if s == [] then 1 else MulPositive(FactProduct(s[..|s| - 1]), Factorial(s[|s| - 1]))
  }

  lemma {:induction false} FactAppend(a: seq<nat>, b: seq<nat>)
    ensures FactProduct(a + b) == FactProduct(a) * FactProduct(b)
  {
    hide Factorial;
    if b == [] {
      assert a + b == a;
    } else {
      var n := |b| - 1;
      FactAppend(a, b[..n]);
      assert (a + b)[..|a + b| - 1] == a + b[..n];
      MulAssoc(FactProduct(a), FactProduct(b[..n]), Factorial(b[n]));
    }
  }

  lemma FactOne(x: nat)
    ensures FactProduct([x]) == Factorial(x)
  {
    hide Factorial;
    assert [x][..0] == [];
  }

  lemma FactStep(x: nat)
    requires x > 0
    ensures Factorial(x) == x * Factorial(x - 1)
  {}

  /** Taking one off an entry takes its value out of the product. */
  lemma FactUpdate(c: seq<nat>, x: nat)
    requires x < |c| && c[x] > 0
    ensures FactProduct(c) == FactProduct(c[x := c[x] - 1]) * c[x]
  {
    hide Factorial, FactProduct;
    var a, b, d := c[..x], c[x + 1..], c[x := c[x] - 1];
    assert c == a + [c[x]] + b && d == a + [c[x] - 1] + b;
    FactAppend(a + [c[x]], b); FactAppend(a, [c[x]]);
    FactAppend(a + [c[x] - 1], b); FactAppend(a, [c[x] - 1]);
    FactOne(c[x]); FactOne(c[x] - 1);
    FactStep(c[x]);
    Regroup(FactProduct(a), c[x], Factorial(c[x] - 1), FactProduct(b));
  }

  lemma Regroup(a: nat, x: nat, f: nat, b: nat)
    ensures a * (x * f) * b == (a * f * b) * x
  {
    MulAssoc(a, x, f);
    assert a * (x * f) == x * (a * f);
    MulAssoc(x, a * f, b);
  }

  lemma {:induction false} FactZeros(c: seq<nat>)
    requires forall i :: 0 <= i < |c| ==> c[i] == 0
    ensures FactProduct(c) == 1
  {
    if c != [] { FactZeros(c[..|c| - 1]); }
  }

  lemma {:induction false} SumAppend(a: seq<nat>, b: seq<nat>)
    ensures Sum(a + b) == Sum(a) + Sum(b)
  {
    if a == [] {
      assert a + b == b;
    } else {
      assert (a + b)[1..] == a[1..] + b;
      SumAppend(a[1..], b);
    }
  }

  lemma {:induction false} ZeroSum(c: seq<nat>)
    ensures Sum(c) == 0 <==> forall i :: 0 <= i < |c| ==> c[i] == 0
  {
    if c != [] { ZeroSum(c[1..]); }
  }

  lemma SumUpdate(c: seq<nat>, x: nat)
    requires x < |c| && c[x] > 0
    ensures Sum(c[x := c[x] - 1]) == Sum(c) - 1
  {
    var a, b, d := c[..x], c[x + 1..], c[x := c[x] - 1];
    assert c == a + [c[x]] + b && d == a + [c[x] - 1] + b;
    SumAppend(a + [c[x]], b); SumAppend(a, [c[x]]);
    SumAppend(a + [c[x] - 1], b); SumAppend(a, [c[x] - 1]);
  }

  lemma SumPrefix(c: seq<nat>, x: nat)
    requires x < |c|
    ensures Sum(c[..x + 1]) == Sum(c[..x]) + c[x]
  {
    assert c[..x + 1] == c[..x] + [c[x]];
    SumAppend(c[..x], [c[x]]);
  }

  // ------------------------------------------------------ words with given counts

  ghost function WithCounts(c: seq<nat>, n: nat): set<seq<nat>>
  {
    set w | w in Words(n, |c|) && Counts(w, |c|) == c
  }

  ghost function LastBelow(c: seq<nat>, n: nat, x: nat): set<seq<nat>>
    requires n > 0
  {
    set w | w in WithCounts(c, n) && w[n - 1] < x
  }

  ghost function LastIs(c: seq<nat>, n: nat, x: nat): set<seq<nat>>
    requires n > 0
  {
    set w | w in WithCounts(c, n) && w[n - 1] == x
  }

  lemma CountsAppend(u: seq<nat>, x: nat, e: nat)
    requires x < e
    ensures Counts(u + [x], e) == Counts(u, e)[x := Counts(u, e)[x] + 1]
  {
    forall y | 0 <= y < e ensures Counts(u + [x], e)[y] == Counts(u, e)[x := Counts(u, e)[x] + 1][y] {
      assert multiset(u + [x]) == multiset(u) + multiset{x};
    }
  }

  /** Dropping the last symbol `x` drops its count by one. */
  lemma DropLast(c: seq<nat>, n: nat, x: nat, w: seq<nat>)
    requires n > 0 && x < |c| && c[x] > 0
    ensures w in LastIs(c, n, x) <==> w != [] && w[|w| - 1] == x && w[..|w| - 1] in WithCounts(c[x := c[x] - 1], n - 1)
  {
    hide Words, Counts;
    if w != [] && |w| == n && w[n - 1] == x {
      var u: seq<nat> := w[..n - 1];
      assert w == u + [x];
      CountsAppend(u, x, |c|);
      assert Counts(w, |c|) == c <==> Counts(u, |c|) == c[x := c[x] - 1];
    }
  }

  lemma NoLast(c: seq<nat>, n: nat, x: nat)
    requires n > 0 && x < |c| && c[x] == 0
    ensures LastIs(c, n, x) == {}
  {
    forall w | w in WithCounts(c, n) ensures w[n - 1] != x {
      assert w[n - 1] in multiset(w) && Counts(w, |c|)[x] == 0;
    }
  }

  lemma NoWords(c: seq<nat>)
    requires forall i :: 0 <= i < |c| ==> c[i] == 0
    ensures WithCounts(c, 0) == {[]}
  {
    var none: seq<nat> := [];
    assert Counts(none, |c|) == c;
    assert none in Words(0, |c|);
  }

  /** The number of words with given counts, times the factorials of the counts, is n!. */
  lemma {:induction false} WordCount(c: seq<nat>, n: nat)
    requires Sum(c) == n
    ensures |WithCounts(c, n)| * FactProduct(c) == Factorial(n)
    decreases n, 1, 0
  {
    hide FactProduct, Words, Sum, Counts;
    if n == 0 {
      ZeroSum(c);
      FactZeros(c);
      NoWords(c);
    } else {
      LastBelowCount(c, n, |c|);
      assert c[..|c|] == c;
      AllBelow(c, n);
    }
  }

  lemma NoneBelow(c: seq<nat>, n: nat)
    requires n > 0
    ensures LastBelow(c, n, 0) == {}
  {
    forall w | w in WithCounts(c, n) ensures !(w[n - 1] < 0) {}
  }

  lemma AllBelow(c: seq<nat>, n: nat)
    requires n > 0
    ensures LastBelow(c, n, |c|) == WithCounts(c, n)
  {}

  lemma {:induction false} LastBelowCount(c: seq<nat>, n: nat, x: nat)
    requires n > 0 && Sum(c) == n && x <= |c|
    ensures |LastBelow(c, n, x)| * FactProduct(c) == Sum(c[..x]) * Factorial(n - 1)
    decreases n, 0, x
  {
    hide FactProduct, Words, Sum, Counts, Factorial, WithCounts;
    if x == 0 {
      assert c[..0] == [];
      EmptySum();
      NoneBelow(c, n);
    } else {
      LastBelowCount(c, n, x - 1);
      SumPrefix(c, x - 1);
      Halves(LastBelow(c, n, x), LastBelow(c, n, x - 1), LastIs(c, n, x - 1));
      LastIsCount(c, n, x - 1);
      SplitSum(|LastBelow(c, n, x - 1)|, |LastIs(c, n, x - 1)|, FactProduct(c), Sum(c[..x - 1]), c[x - 1], Factorial(n - 1));
    }
  }

  lemma EmptySum()
    ensures Sum([]) == 0
  {}

  lemma SplitSum(a: nat, b: nat, f: nat, s: nat, t: nat, g: nat)
    requires a * f == s * g && b * f == t * g
    ensures (a + b) * f == (s + t) * g
  {}

  lemma {:induction false} LastIsCount(c: seq<nat>, n: nat, x: nat)
    requires n > 0 && Sum(c) == n && x < |c|
    ensures |LastIs(c, n, x)| * FactProduct(c) == c[x] * Factorial(n - 1)
    decreases n, 0, 0
  {
    hide FactProduct, Words, Sum, Counts, Factorial, WithCounts, LastIs;
    if c[x] == 0 {
      NoLast(c, n, x);
    } else {
      var d := c[x := c[x] - 1];
      SumUpdate(c, x);
      WordCount(d, n - 1);
      FactUpdate(c, x);
      forall w: seq<nat>
        ensures w in LastIs(c, n, x) <==> w != [] && w[|w| - 1] == x && w[..|w| - 1] in WithCounts(d, n - 1)
      {
        DropLast(c, n, x, w);
      }
      AppendCount(WithCounts(d, n - 1), LastIs(c, n, x), x);
      MulAssoc(|WithCounts(d, n - 1)|, FactProduct(d), c[x]);
    }
  }

  // ------------------------------------------- count vectors with given entries

  /** The positive entries of a list. */
  ghost function Positive(c: seq<nat>): multiset<nat>
  {
    multiset(c)[0 := 0]
  }

  /** The lists of length `e` with entries below `b` whose positive entries are `q`. */
  ghost function Vectors(q: multiset<nat>, e: nat, b: nat): set<seq<nat>>
  {
    set c | c in Words(e, b) && Positive(c) == q
  }

  /** The product of the factorials of the multiplicities. */
  ghost function MultProduct(q: multiset<nat>, b: nat): (r: nat)
    ensures r >= 1
  {
    if b == 0 then 1 else MulPositive(MultProduct(q, b - 1), Factorial(q[b - 1]))
  }

  lemma ProductsWritten(q: multiset<nat>, b: nat, s: seq<nat>, x: nat)
    ensures MultProduct(q, 0) == 1 && MultProduct(q, b + 1) == MultProduct(q, b) * Factorial(q[b])
    ensures FactProduct([]) == 1 && FactProduct(s + [x]) == FactProduct(s) * Factorial(x)
  {
    hide Factorial;
    assert (s + [x])[..|s|] == s;
  }

  lemma {:induction false} MultSame(q: multiset<nat>, r: multiset<nat>, b: nat)
    requires forall v: nat :: v < b ==> q[v] == r[v]
    ensures MultProduct(q, b) == MultProduct(r, b)
  {
    hide Factorial;
    if b > 0 { MultSame(q, r, b - 1); }
  }

  lemma {:induction false} MultUpdate(q: multiset<nat>, y: nat, b: nat)
    requires y < b && q[y] > 0
    ensures MultProduct(q, b) == MultProduct(q[y := q[y] - 1], b) * q[y]
  {
    hide Factorial, MultProduct;
    var r := q[y := q[y] - 1];
    ProductsWritten(q, b - 1, [], 0);
    ProductsWritten(r, b - 1, [], 0);
    var m := MultProduct(r, b - 1);
    if y == b - 1 {
      MultSame(q, r, b - 1);
      FactStep(q[y]);
      FirstFactor(m, Factorial(q[y] - 1), q[y], Factorial(q[y]));
    } else {
      MultUpdate(q, y, b - 1);
      FactorsSwap(MultProduct(q, b - 1), m, q[y], Factorial(q[b - 1]));
    }
  }

  lemma FirstFactor(m: nat, f: nat, k: nat, g: nat)
    requires g == f * k || g == k * f
    ensures m * g == m * f * k
  {
    MulAssoc(m, f, k);
  }

  lemma FactorsSwap(m: nat, m': nat, k: nat, f: nat)
    requires m == m' * k
    ensures m * f == m' * f * k
  {
    MulAssoc(m', k, f);
    MulAssoc(m', f, k);
  }

  /** The members of `q` below `y`. */
  ghost function Below(q: multiset<nat>, y: nat): nat
  {
    if y == 0 then 0 else Below(q, y - 1) + q[y - 1]
  }

  lemma {:induction false} BelowSame(q: multiset<nat>, r: multiset<nat>, y: nat)
    requires forall v: nat :: v < y ==> q[v] == r[v]
    ensures Below(q, y) == Below(r, y)
  {
    if y > 0 { BelowSame(q, r, y - 1); }
  }

  lemma {:induction false} BelowAll(q: multiset<nat>, b: nat)
    requires forall v: nat :: v in q ==> v < b
    ensures Below(q, b) == |q|
  {
    if b == 0 {
      assert q == multiset{};
    } else {
      var r := q[b - 1 := 0];
      BelowSame(q, r, b - 1);
      BelowAll(r, b - 1);
    }
  }

  lemma {:induction false} PermRatio(n: nat, m: nat)
    requires m >= 1
    ensures Perm(n, m) == (n - m + 1) * Perm(n, m - 1)
  {
    if m == 1 {
      assert Perm(n, 0) == 1;
      if n > 0 { assert Perm(n - 1, 0) == 1; }
    } else if n > 0 {
      PermRatio(n - 1, m - 1);
      var a, b := n - m + 1, Perm(n - 1, m - 2);
      assert Perm(n, m) == n * (a * b) && Perm(n, m - 1) == n * b;
      MulAssoc(n, a, b);
      MulAssoc(a, n, b);
    }
  }

  /** Whether the last place of n is left out or takes one of the m things. */
  lemma PermSplit(n: nat, m: nat)
    requires n >= 1
    ensures Perm(n, m) == Perm(n - 1, m) + if m == 0 then 0 else m * Perm(n - 1, m - 1)
  {
    if m > 0 {
      PermRatio(n - 1, m);
      assert (n - m) * Perm(n - 1, m - 1) + m * Perm(n - 1, m - 1) == n * Perm(n - 1, m - 1);
    }
  }

  ghost function VectorsBelow(q: multiset<nat>, e: nat, b: nat, y: nat): set<seq<nat>>
    requires e > 0
  {
    set c | c in Vectors(q, e, b) && c[e - 1] < y
  }

  ghost function VectorsEnding(q: multiset<nat>, e: nat, b: nat, y: nat): set<seq<nat>>
    requires e > 0
  {
    set c | c in Vectors(q, e, b) && c[e - 1] == y
  }

  lemma PositiveAppend(u: seq<nat>, y: nat)
    ensures Positive(u + [y]) == if y == 0 then Positive(u) else Positive(u)[y := Positive(u)[y] + 1]
  {
    assert multiset(u + [y]) == multiset(u) + multiset{y};
  }

  /** Dropping the last entry. */
  lemma DropEntry(q: multiset<nat>, e: nat, b: nat, y: nat, c: seq<nat>)
    requires e > 0 && y < b && (y > 0 ==> q[y] > 0) && q[0] == 0
    ensures c in VectorsEnding(q, e, b, y) <==>
      c != [] && c[|c| - 1] == y && c[..|c| - 1] in Vectors(if y == 0 then q else q[y := q[y] - 1], e - 1, b)
  {
    hide Words, Positive;
    if c != [] && |c| == e && c[e - 1] == y {
      var u: seq<nat> := c[..e - 1];
      assert c == u + [y];
      PositiveAppend(u, y);
      if y > 0 {
        var p, r := Positive(u), q[y := q[y] - 1];
        if p == r { assert p[y := p[y] + 1] == q; }
        if p[y := p[y] + 1] == q { assert p == r; }
      }
    }
  }

  lemma NoneEnding(q: multiset<nat>, e: nat, b: nat, y: nat)
    requires e > 0 && 0 < y && q[y] == 0
    ensures VectorsEnding(q, e, b, y) == {}
  {
    forall c | c in Vectors(q, e, b) ensures c[e - 1] != y {
      assert c[e - 1] in multiset(c) && Positive(c)[y] == 0;
    }
  }

  /** The number of lists with given positive entries, times the factorials of the multiplicities, is a falling factorial. */
  lemma {:induction false} VectorCount(q: multiset<nat>, e: nat, b: nat)
    requires q[0] == 0 && b > 0 && forall v: nat :: v in q ==> v < b
    ensures |Vectors(q, e, b)| * MultProduct(q, b) == Perm(e, |q|)
    decreases e, 1, 0
  {
    hide Words, Positive, MultProduct, Perm;
    if e == 0 {
      NoEntries(q, b);
    } else {
      VectorsBelowCount(q, e, b, b);
      BelowAll(q, b);
      PermSplit(e, |q|);
      AllVectorsBelow(q, e, b);
    }
  }

  lemma NoVectorBelow(q: multiset<nat>, e: nat, b: nat)
    requires e > 0
    ensures VectorsBelow(q, e, b, 0) == {}
  {
    forall c | c in Vectors(q, e, b) ensures !(c[e - 1] < 0) {}
  }

  lemma AllVectorsBelow(q: multiset<nat>, e: nat, b: nat)
    requires e > 0
    ensures VectorsBelow(q, e, b, b) == Vectors(q, e, b)
  {}

  lemma NoEntries(q: multiset<nat>, b: nat)
    requires q[0] == 0 && forall v: nat :: v in q ==> v < b
    ensures |Vectors(q, 0, b)| * MultProduct(q, b) == Perm(0, |q|)
  {
    var none: seq<nat> := [];
    assert Positive(none) == multiset{};
    if q == multiset{} {
      assert none in Words(0, b);
      assert Vectors(q, 0, b) == {none};
      NoMultiples(b);
    } else {
      assert Vectors(q, 0, b) == {};
    }
  }

  lemma {:induction false} NoMultiples(b: nat)
    ensures MultProduct(multiset{}, b) == 1
  {
    if b > 0 { NoMultiples(b - 1); }
  }

  /** Lists that end in zero, and lists that end in a positive entry below `y`. */
  ghost function Placed(q: multiset<nat>, e: nat, y: nat): nat
    requires e > 0
  {
    (if y == 0 then 0 else Perm(e - 1, |q|)) + if |q| == 0 then 0 else MulNat(Below(q, y), Perm(e - 1, |q| - 1))
  }

  lemma {:induction false} VectorsBelowCount(q: multiset<nat>, e: nat, b: nat, y: nat)
    requires e > 0 && q[0] == 0 && b > 0 && y <= b && forall v: nat :: v in q ==> v < b
    ensures |VectorsBelow(q, e, b, y)| * MultProduct(q, b) == Placed(q, e, y)
    decreases e, 0, y
  {
    hide Words, Positive, MultProduct, Perm, Vectors;
    if y == 0 {
      NoVectorBelow(q, e, b);
    } else {
      VectorsBelowCount(q, e, b, y - 1);
      Halves(VectorsBelow(q, e, b, y), VectorsBelow(q, e, b, y - 1), VectorsEnding(q, e, b, y - 1));
      VectorsEndingCount(q, e, b, y - 1);
      PlacedNext(q, e, y - 1);
      Distribute(|VectorsBelow(q, e, b, y - 1)|, |VectorsEnding(q, e, b, y - 1)|, MultProduct(q, b));
    }
  }

  lemma Distribute(a: nat, b: nat, f: nat)
    ensures (a + b) * f == a * f + b * f
  {}

  lemma PlacedNext(q: multiset<nat>, e: nat, y: nat)
    requires e > 0 && q[0] == 0
    ensures Placed(q, e, y + 1) == Placed(q, e, y) + Ending(q, e, y)
  {
    hide Perm;
    if y == 0 {
      assert Below(q, 0) == 0 && Below(q, 1) == 0;
    } else if |q| > 0 {
      Distribute(Below(q, y), q[y], Perm(e - 1, |q| - 1));
    }
  }

  ghost function Ending(q: multiset<nat>, e: nat, y: nat): nat
    requires e > 0
  {
    if y == 0 then Perm(e - 1, |q|) else if |q| == 0 then 0 else MulNat(q[y], Perm(e - 1, |q| - 1))
  }

  lemma {:induction false} VectorsEndingCount(q: multiset<nat>, e: nat, b: nat, y: nat)
    requires e > 0 && q[0] == 0 && y < b && forall v: nat :: v in q ==> v < b
    ensures |VectorsEnding(q, e, b, y)| * MultProduct(q, b) == Ending(q, e, y)
    decreases e, 0, 0
  {
    hide Words, Positive, MultProduct, Perm, Vectors, VectorsEnding;
    if y > 0 && q[y] == 0 {
      NoneEnding(q, e, b, y);
    } else {
      var r := if y == 0 then q else q[y := q[y] - 1];
      forall c: seq<nat>
        ensures c in VectorsEnding(q, e, b, y) <==> c != [] && c[|c| - 1] == y && c[..|c| - 1] in Vectors(r, e - 1, b)
      {
        DropEntry(q, e, b, y, c);
      }
      AppendCount(Vectors(r, e - 1, b), VectorsEnding(q, e, b, y), y);
      VectorCount(r, e - 1, b);
      if y > 0 {
        MultUpdate(q, y, b);
        MulAssoc(|Vectors(r, e - 1, b)|, MultProduct(r, b), q[y]);
      }
    }
  }

  // ------------------------------------------------------------------ shapes

  function NonZero(c: seq<nat>): seq<nat>
  {
    if c == [] then []
    else
      var r := NonZero(c[..|c| - 1]);
      if c[|c| - 1] == 0 then r else r + [c[|c| - 1]]
  }

  lemma {:induction false} NonZeroKeeps(c: seq<nat>)
    ensures multiset(NonZero(c)) == Positive(c)
  {
    if c != [] {
      var n := |c| - 1;
      NonZeroKeeps(c[..n]);
      assert c == c[..n] + [c[n]];
      PositiveAppend(c[..n], c[n]);
    }
  }

  /** How often the symbols of a word occur, from the most frequent down. */
  ghost function Shape(w: seq<nat>, e: nat): seq<nat>
  {
    SortedDown(NonZero(Counts(w, e)))
  }

  /** The shape is a non-increasing list of the positive counts. */
  lemma ShapeMeans(w: seq<nat>, e: nat)
    ensures multiset(Shape(w, e)) == multiset(Counts(w, e))[0 := 0]
    ensures forall i, j :: 0 <= i < j < |Shape(w, e)| ==> Shape(w, e)[i] >= Shape(w, e)[j]
  {
    hide SortedDown, NonZero, Counts;
    NonZeroKeeps(Counts(w, e));
    SortedKeeps(NonZero(Counts(w, e)));
    SortedCounts(NonZero(Counts(w, e)), 0);
  }

  lemma TailMultiset(a: seq<nat>)
    requires a != []
    ensures multiset(a) == multiset(a[1..]) + multiset{a[0]}
  {
    assert a == [a[0]] + a[1..];
  }

  lemma HeadMax(a: seq<nat>, x: nat)
    requires IsDown(a) && x in multiset(a)
    ensures a != [] && x <= a[0]
  {}

  lemma DownTail(a: seq<nat>)
    requires IsDown(a) && a != []
    ensures IsDown(a[1..])
  {}

  lemma {:induction false} SortedUnique(a: seq<nat>, b: seq<nat>)
    requires IsDown(a) && IsDown(b) && multiset(a) == multiset(b)
    ensures a == b
  {
    hide IsDown;
    assert |multiset(a)| == |a| && |multiset(b)| == |b|;
    if a != [] {
      assert a[0] in multiset(a) && b[0] in multiset(b);
      HeadMax(b, a[0]);
      HeadMax(a, b[0]);
      TailMultiset(a);
      TailMultiset(b);
      CancelMember(multiset(a[1..]), multiset(b[1..]), a[0]);
      DownTail(a);
      DownTail(b);
      SortedUnique(a[1..], b[1..]);
      assert a == [a[0]] + a[1..] && b == [b[0]] + b[1..];
    }
  }

  lemma CancelMember(a: multiset<nat>, b: multiset<nat>, x: nat)
    requires a + multiset{x} == b + multiset{x}
    ensures a == b
  {
    assert a == (a + multiset{x}) - multiset{x};
    assert b == (b + multiset{x}) - multiset{x};
  }

  lemma ShapeIff(w: seq<nat>, e: nat, p: seq<nat>)
    requires IsDown(p) && forall i :: 0 <= i < |p| ==> p[i] >= 1
    ensures Shape(w, e) == p <==> Positive(Counts(w, e)) == multiset(p)
  {
    hide Counts, Shape;
    ShapeMeans(w, e);
    if Positive(Counts(w, e)) == multiset(p) { SortedUnique(Shape(w, e), p); }
  }

  /** Lists with the same positive entries have the same sum and the same product of factorials. */
  lemma {:induction false} SamePositive(c: seq<nat>, p: seq<nat>)
    requires Positive(c) == Positive(p)
    ensures Sum(c) == Sum(p) && FactProduct(c) == FactProduct(p)
  {
    hide Sum, FactProduct, Positive, Factorial;
    if c == [] {
      OnlyZeros(p);
      ZeroSum(p);
      ZeroSum(c);
      FactZeros(p);
      FactZeros(c);
    } else {
      var n := |c| - 1;
      assert c == c[..n] + [c[n]];
      PositiveAppend(c[..n], c[n]);
      SumAppend(c[..n], [c[n]]);
      FactAppend(c[..n], [c[n]]);
      SumOne(c[n]);
      FactOne(c[n]);
      if c[n] == 0 {
        SamePositive(c[..n], p);
        FactZero();
      } else {
        var r := Without(c[..n], p, c[n]);
        SamePositive(c[..n], r);
      }
    }
  }

  lemma FactZero()
    ensures Factorial(0) == 1
  {}

  lemma SumOne(x: nat)
    ensures Sum([x]) == x
  {
    assert [x][1..] == [];
  }

  lemma OnlyZeros(p: seq<nat>)
    requires Positive(p) == Positive([])
    ensures forall i :: 0 <= i < |p| ==> p[i] == 0
  {
    forall i | 0 <= i < |p| ensures p[i] == 0 {
      var x, none: seq<nat> := p[i], [];
      assert Positive(none) == multiset{} && multiset(p)[x] > 0;
      assert Positive(p)[x] == if x == 0 then 0 else multiset(p)[x];
    }
  }

  /** A list without one of its positive entries. */
  lemma Without(u: seq<nat>, p: seq<nat>, x: nat) returns (r: seq<nat>)
    requires x > 0 && Positive(u)[x := Positive(u)[x] + 1] == Positive(p)
    ensures Positive(u) == Positive(r) && Sum(p) == Sum(r) + x && FactProduct(p) == FactProduct(r) * Factorial(x)
  {
    hide Sum, FactProduct, Factorial, Positive;
    var i := PlaceOf(u, p, x);
    var a, b := p[..i], p[i + 1..];
    r := a + b;
    assert p == a + [x] + b;
    RemovedPositive(u, a, b, x);
    SumAppend(a + [x], b); SumAppend(a, [x]); SumAppend(a, b); SumOne(x);
    FactAppend(a + [x], b); FactAppend(a, [x]); FactAppend(a, b); FactOne(x);
    MulAssoc(FactProduct(a), FactProduct(b), Factorial(x));
    MulAssoc(FactProduct(a), Factorial(x), FactProduct(b));
  }

  lemma PlaceOf(u: seq<nat>, p: seq<nat>, x: nat) returns (i: nat)
    requires x > 0 && Positive(u)[x := Positive(u)[x] + 1] == Positive(p)
    ensures i < |p| && p[i] == x
  {
    assert Positive(p)[x] > 0 && multiset(p)[x] > 0;
    assert x in p;
    i :| 0 <= i < |p| && p[i] == x;
  }

  lemma RemovedPositive(u: seq<nat>, a: seq<nat>, b: seq<nat>, x: nat)
    requires x > 0 && Positive(u)[x := Positive(u)[x] + 1] == Positive(a + [x] + b)
    ensures Positive(u) == Positive(a + b)
  {
    var p, r := Positive(a + [x] + b), Positive(a + b);
    assert multiset(a + [x] + b) == multiset(a + b) + multiset{x};
    forall v: nat ensures Positive(u)[v] == r[v] {
      assert p[v] == r[v] + if v == x then 1 else 0;
    }
  }

  /** All words whose counts lie in a set of keys with equally many words each. */
  lemma {:induction false} FiberCount(keys: set<seq<nat>>, n: nat, e: nat, m: nat)
    requires forall c :: c in keys ==> |c| == e && |WithCounts(c, n)| == m
    ensures |set w | w in Words(n, e) && Counts(w, e) in keys| == |keys| * m
  {
    hide Words, Counts;
    var all := set w | w in Words(n, e) && Counts(w, e) in keys;
    if keys == {} {
      assert all == {};
    } else {
      var c :| c in keys;
      var rest := set w | w in Words(n, e) && Counts(w, e) in keys - {c};
      FiberCount(keys - {c}, n, e, m);
      Halves(all, rest, WithCounts(c, n));
      assert |keys| == |keys - {c}| + 1;
      Distribute(|keys - {c}|, 1, m);
    }
  }

  ghost function OfShape(p: seq<nat>, n: nat, e: nat): set<seq<nat>>
  {
    set w | w in Words(n, e) && Shape(w, e) == p
  }

  lemma {:induction false} CountBound(w: seq<nat>, x: nat)
    ensures multiset(w)[x] <= |w|
  {}

  /** The words of a shape are those whose counts have its positive entries. */
  lemma ShapeByCounts(p: seq<nat>, n: nat, e: nat)
    requires IsPartition(p, n, n)
    ensures OfShape(p, n, e) == set w | w in Words(n, e) && Counts(w, e) in Vectors(multiset(p), e, n + 1)
  {
    hide Shape, Positive;
    forall w | w in Words(n, e)
      ensures Shape(w, e) == p <==> Counts(w, e) in Vectors(multiset(p), e, n + 1)
    {
      ShapeIff(w, e, p);
      forall x | 0 <= x < e ensures Counts(w, e)[x] < n + 1 { CountBound(w, x); }
    }
  }

  lemma PartitionPositive(p: seq<nat>, n: nat)
    requires IsPartition(p, n, n)
    ensures Positive(p) == multiset(p) && multiset(p)[0] == 0 && forall v: nat :: v in multiset(p) ==> v < n + 1
  {
    assert 0 !in multiset(p);
  }

  /** The number of words of a shape, as a product. */
  lemma ShapeCount(p: seq<nat>, n: nat, e: nat) returns (a: nat, m: nat)
    requires IsPartition(p, n, n)
    ensures |OfShape(p, n, e)| == a * m && a * MultProduct(multiset(p), n + 1) == Perm(e, |p|)
    ensures m * FactProduct(p) == Factorial(n) || a == 0
  {
    hide Perm, MultProduct, FactProduct, Factorial, Words, Sum, Positive;
    var keys := Vectors(multiset(p), e, n + 1);
    PartitionPositive(p, n);
    VectorCount(multiset(p), e, n + 1);
    assert |multiset(p)| == |p|;
    a, m := |keys|, 0;
    if a > 0 {
      var c :| c in keys;
      m := |WithCounts(c, n)|;
    }
    forall c | c in keys ensures |c| == e && |WithCounts(c, n)| * FactProduct(p) == Factorial(n) && |WithCounts(c, n)| == m {
      EqualFibers(p, n, e, c);
      if a > 0 {
        var d :| d in keys && m == |WithCounts(d, n)|;
        EqualFibers(p, n, e, d);
        SameFactor(|WithCounts(c, n)|, m, FactProduct(p));
      }
    }
    FiberCount(keys, n, e, m);
    ShapeByCounts(p, n, e);
    if a > 0 { var c :| c in keys; }
  }

  lemma SameFactor(a: nat, b: nat, f: nat)
    requires a * f == b * f && f >= 1
    ensures a == b
  {
    if a < b { MulMono(a + 1, b, f); }
    if b < a { MulMono(b + 1, a, f); }
  }

  lemma EqualFibers(p: seq<nat>, n: nat, e: nat, c: seq<nat>)
    requires IsPartition(p, n, n) && c in Vectors(multiset(p), e, n + 1)
    ensures |c| == e && |WithCounts(c, n)| * FactProduct(p) == Factorial(n)
  {
    hide FactProduct, Factorial, Sum, Positive, WithCounts;
    PartitionPositive(p, n);
    SamePositive(c, p);
    WordCount(c, n);
  }

  // ------------------------------------------------------------------ weights

  /** Dividing a multiple of the factorials is exact at every step. */
  lemma {:induction false} DivideExact(x: nat, a: nat, s: seq<nat>)
    requires x == a * FactProduct(s)
    ensures DivideAll(x, s) == a
    decreases |s|
  {
    hide Factorial;
    if s != [] {
      var n := |s| - 1;
      var f, g := FactProduct(s[..n]), Factorial(s[n]);
      MulAssoc(a, f, g);
      MulAssoc(a, g, f);
      MulNonNeg(a, g);
      DivideExact(x, a * g, s[..n]);
      QuotientExact(a, g);
    }
  }

  lemma QuotientExact(a: nat, g: nat)
    requires g >= 1
    ensures a * g / g == a
  {
    ModUnique(a * g, a, 0, g);
  }

  /** The runs of a non-increasing list are the multiplicities of its entries. */
  lemma {:induction false} RunsProduct(p: seq<nat>, n: nat, b: nat)
    requires n <= |p| && IsDown(p) && forall i :: 0 <= i < |p| ==> p[i] < b
    ensures FactProduct(RunsUpTo(p, n)) == MultProduct(multiset(p[..n]), b)
    ensures n > 0 ==> RunsUpTo(p, n)[|RunsUpTo(p, n)| - 1] == multiset(p[..n])[p[n - 1]]
  {
    hide FactProduct, MultProduct, Factorial, IsDown, OneMore;
    if n == 0 {
      NoMultiples(b);
      FactZeros([]);
      assert p[..0] == [] && multiset(p[..0]) == multiset{};
    } else {
      RunsProduct(p, n - 1, b);
      assert p[..n] == p[..n - 1] + [p[n - 1]];
      AddedProduct(p[..n - 1], p[n - 1], b);
      var same := n > 1 && p[n - 1] == p[n - 2];
      if !same { NewValue(p, n - 1); }
      MoreProduct(RunsUpTo(p, n - 1), same);
    }
  }

  lemma MoreProduct(r: seq<nat>, same: bool)
    requires same ==> r != []
    ensures var t := OneMore(r, same);
      && FactProduct(t) == FactProduct(r) * t[|t| - 1]
      && t[|t| - 1] == if same then r[|r| - 1] + 1 else 1
  {
    hide FactProduct;
    if same { LongerRun(r); } else { NewRun(r); }
  }

  lemma AddedProduct(u: seq<nat>, x: nat, b: nat)
    requires x < b
    ensures multiset(u + [x])[x] == multiset(u)[x] + 1
    ensures MultProduct(multiset(u + [x]), b) == MultProduct(multiset(u), b) * (multiset(u)[x] + 1)
  {
    hide MultProduct;
    var q := multiset(u + [x]);
    assert q == multiset(u) + multiset{x};
    assert q[x := q[x] - 1] == multiset(u);
    MultUpdate(q, x, b);
  }

  lemma LongerRun(r: seq<nat>)
    requires r != []
    ensures FactProduct(r[|r| - 1 := r[|r| - 1] + 1]) == FactProduct(r) * (r[|r| - 1] + 1)
  {
    hide FactProduct;
    var l := r[|r| - 1 := r[|r| - 1] + 1];
    FactUpdate(l, |r| - 1);
    assert l[|r| - 1 := l[|r| - 1] - 1] == r;
  }

  lemma NewRun(r: seq<nat>)
    ensures FactProduct(r + [1]) == FactProduct(r)
  {
    hide FactProduct, Factorial;
    FactAppend(r, [1]);
    FactOne(1);
    FactStep(1);
    FactZero();
  }

  lemma NewValue(p: seq<nat>, n: nat)
    requires IsDown(p) && n < |p| && (n > 0 ==> p[n] != p[n - 1])
    ensures multiset(p[..n])[p[n]] == 0
  {
    forall i | 0 <= i < n ensures p[..n][i] != p[n] { assert p[i] >= p[n - 1] >= p[n]; }
    assert p[n] !in multiset(p[..n]);
  }

  /** The weight of a partition is the number of words of that shape. */
  lemma WeightCounts(p: seq<nat>, n: nat, e: nat)
    requires IsPartition(p, n, n)
    ensures Weight(p, n, e) == |OfShape(p, n, e)| == |set w | w in Words(n, e) && Shape(w, e) == p|
  {
    assert OfShape(p, n, e) == set w | w in Words(n, e) && Shape(w, e) == p;
    hide OfShape, Words, Shape, FactProduct, MultProduct, Perm, Factorial, DivideAll, RunsUpTo, Sum;
    var a, m := ShapeCount(p, n, e);
    RunsProduct(p, |p|, n + 1);
    assert p[..|p|] == p;
    DivideExact(Perm(e, |p|), a, RunLengths(p));
    if a != 0 { DivideExact(Factorial(n), m, p); }
  }

  /** The divisions of the weight leave no remainder. */
  lemma WeightExact(p: seq<nat>, n: nat, e: nat)
    requires IsPartition(p, n, n)
    ensures Weight(p, n, e) * FactProduct(p) * MultProduct(multiset(p), n + 1) == Perm(e, |p|) * Factorial(n)
  {
    hide OfShape, FactProduct, MultProduct, Perm, Factorial, Weight, Sum;
    WeightCounts(p, n, e);
    var a, m := ShapeCount(p, n, e);
    if a != 0 { Rearranged(a, m, FactProduct(p), MultProduct(multiset(p), n + 1)); }
  }

  lemma Rearranged(a: nat, m: nat, f: nat, g: nat)
    ensures (a * m) * f * g == (a * g) * (m * f)
  {
    MulAssoc(a, m, f);
    MulAssoc(a, m * f, g);
    MulAssoc(a, g, m * f);
  }

  // -------------------------------------------------------------------- totals

  /** The shape of a word is one of the generated partitions. */
  lemma ShapeGenerated(w: seq<nat>, n: nat, e: nat)
    requires w in Words(n, e)
    ensures Shape(w, e) in Generate(n, n)
  {
    hide Shape, Generate, Counts, Sum, Positive;
    var p := Shape(w, e);
    ShapeMeans(w, e);
    CountsSum(w, e);
    ShapePositive(w, e);
    SamePositive(Counts(w, e), p);
    forall i | 0 <= i < |p| ensures 1 <= p[i] <= n { EntryBound(p, i); }
    GenerateComplete(p, n, n);
  }

  lemma ShapePositive(w: seq<nat>, e: nat)
    ensures Positive(Shape(w, e)) == Positive(Counts(w, e)) && forall i :: 0 <= i < |Shape(w, e)| ==> Shape(w, e)[i] >= 1
  {
    hide Shape, Counts;
    ShapeMeans(w, e);
    forall i | 0 <= i < |Shape(w, e)| ensures Shape(w, e)[i] >= 1 { assert Shape(w, e)[i] in multiset(Shape(w, e)); }
  }

  lemma EntryBound(p: seq<nat>, i: nat)
    requires i < |p|
    ensures p[i] <= Sum(p)
  {
    assert p == p[..i] + [p[i]] + p[i + 1..];
    SumAppend(p[..i] + [p[i]], p[i + 1..]);
    SumAppend(p[..i], [p[i]]);
    SumOne(p[i]);
  }

  /** The counts of a word over the symbols below e add up to its length. */
  lemma {:induction false} CountsSum(w: seq<nat>, e: nat)
    requires forall i :: 0 <= i < |w| ==> w[i] < e
    ensures Sum(Counts(w, e)) == |w|
  {
    hide Sum, Counts;
    if w == [] {
      ZeroSum(Counts(w, e));
    } else {
      var n := |w| - 1;
      CountsSum(w[..n], e);
      assert w == w[..n] + [w[n]];
      CountsAppend(w[..n], w[n], e);
      var c := Counts(w, e);
      SumUpdate(c, w[n]);
      assert c[w[n] := c[w[n]] - 1] == Counts(w[..n], e);
    }
  }

  /** The words of the listed shapes that beat the threshold. */
  ghost function Beating(ps: seq<seq<nat>>, n: nat, k: nat, e: nat, threshold: real): set<seq<nat>>
  {
    set w | w in Words(n, e) && Shape(w, e) in ps && CMaxOf(Shape(w, e), k) as real > threshold
  }

  lemma {:induction false} TotalCounts(ps: seq<seq<nat>>, n: nat, k: nat, e: nat, threshold: real)
    requires NoRepeats(ps) && forall i :: 0 <= i < |ps| ==> IsPartition(ps[i], n, n)
    ensures Total(ps, n, k, e, threshold) == |Beating(ps, n, k, e, threshold)|
  {
    hide Words, Shape, CMaxOf, Weight, IsPartition, Beating, OfShape;
    if ps == [] {
      NoneBeats(n, k, e, threshold);
    } else {
      var p, rest := ps[0], ps[1..];
      TotalCounts(rest, n, k, e, threshold);
      WeightCounts(p, n, e);
      if |p| > e { TooManyParts(p, n, e); }
      var one := if CMaxOf(p, k) as real > threshold then OfShape(p, n, e) else {};
      BeatingSplit(ps, n, k, e, threshold);
      Halves(Beating(ps, n, k, e, threshold), one, Beating(rest, n, k, e, threshold));
    }
  }

  lemma NoneBeats(n: nat, k: nat, e: nat, threshold: real)
    ensures Beating([], n, k, e, threshold) == {}
  {}

  lemma BeatingSplit(ps: seq<seq<nat>>, n: nat, k: nat, e: nat, threshold: real)
    requires ps != [] && NoRepeats(ps)
    ensures var one := if CMaxOf(ps[0], k) as real > threshold then OfShape(ps[0], n, e) else {};
      && Beating(ps, n, k, e, threshold) == one + Beating(ps[1..], n, k, e, threshold)
      && one !! Beating(ps[1..], n, k, e, threshold)
  {
    hide Words, Shape, CMaxOf;
    var p, rest := ps[0], ps[1..];
    assert ps == [p] + rest;
    forall i | 0 <= i < |rest| ensures rest[i] != p { assert ps[i + 1] != ps[0]; }
    assert forall q :: q in ps <==> q == p || q in rest;
  }

  lemma {:induction false} PermVanishes(n: nat, m: nat)
    requires m > n
    ensures Perm(n, m) == 0
  {
    if n > 0 { PermVanishes(n - 1, m - 1); }
  }

  /** More parts than symbols: no words. */
  lemma TooManyParts(p: seq<nat>, n: nat, e: nat)
    requires IsPartition(p, n, n) && |p| > e
    ensures |OfShape(p, n, e)| == 0
  {
    hide OfShape, MultProduct, FactProduct, Factorial, Perm, IsPartition;
    var a, m := ShapeCount(p, n, e);
    PermVanishes(e, |p|);
    if a > 0 { MulMono(1, a, MultProduct(multiset(p), n + 1)); }
  }

  ghost function EndBelow(n: nat, e: nat, x: nat): set<seq<nat>>
    requires n > 0
  {
    set w | w in Words(n, e) && w[n - 1] < x
  }

  ghost function EndAt(n: nat, e: nat, x: nat): set<seq<nat>>
    requires n > 0
  {
    set w | w in Words(n, e) && w[n - 1] == x
  }

  lemma EndPart(n: nat, e: nat, x: nat)
    requires n > 0 && x < e
    ensures EndBelow(n, e, x + 1) == EndBelow(n, e, x) + EndAt(n, e, x) && EndBelow(n, e, x) !! EndAt(n, e, x)
    ensures forall w: seq<nat> :: w in EndAt(n, e, x) <==> w != [] && w[|w| - 1] == x && w[..|w| - 1] in Words(n - 1, e)
  {}

  lemma EndAtNumber(n: nat, e: nat, x: nat)
    requires n > 0 && x < e
    ensures |EndAt(n, e, x)| == |Words(n - 1, e)|
  {
    hide Words, EndAt;
    EndPart(n, e, x);
    AppendCount(Words(n - 1, e), EndAt(n, e, x), x);
  }

  lemma EndAll(n: nat, e: nat)
    requires n > 0
    ensures EndBelow(n, e, 0) == {} && EndBelow(n, e, e) == Words(n, e)
  {
    forall w | w in Words(n, e) ensures !(w[n - 1] < 0) {}
  }

  /** There are e^n words of length n. */
  lemma {:induction false} WordsNumber(n: nat, e: nat)
    ensures |Words(n, e)| == Pow(e, n)
  {
    hide Words;
    if n == 0 {
      OneWord(e);
    } else {
      WordsNumber(n - 1, e);
      EndBelowNumber(n, e, e);
      EndAll(n, e);
    }
  }

  lemma OneWord(e: nat)
    ensures Words(0, e) == {[]}
  {}

  lemma {:induction false} EndBelowNumber(n: nat, e: nat, x: nat)
    requires n > 0 && x <= e
    ensures |EndBelow(n, e, x)| == x * |Words(n - 1, e)|
  {
    hide Words, EndBelow, EndAt;
    EndAll(n, e);
    if x > 0 {
      EndBelowNumber(n, e, x - 1);
      EndPart(n, e, x - 1);
      Halves(EndBelow(n, e, x), EndBelow(n, e, x - 1), EndAt(n, e, x - 1));
      EndAtNumber(n, e, x - 1);
      Distribute(x - 1, 1, |Words(n - 1, e)|);
    }
  }

  // ---------------------------------------------------------------- the count

  /** Perm is the falling factorial. */
  lemma {:induction false} PermMeans(n: nat, m: nat)
    ensures m > n ==> Perm(n, m) == 0
    ensures m <= n ==> Perm(n, m) * Factorial(n - m) == Factorial(n)
  {
    hide Factorial;
    if m > n {
      PermVanishes(n, m);
    } else if m > 0 {
      PermMeans(n - 1, m - 1);
      FactStep(n);
      MulAssoc(n, Perm(n - 1, m - 1), Factorial(n - m));
    }
  }

  lemma {:induction false} FactorialMeans(n: nat)
    ensures Factorial(0) == 1 && Factorial(n + 1) == (n + 1) * Factorial(n)
  {}

  /** Every word has exactly one generated shape: the total counts the words that beat the threshold. */
  lemma TotalIsCount(n: nat, k: nat, e: nat, threshold: real)
    ensures Total(Generate(n, n), n, k, e, threshold)
         == |set w | w in Words(n, e) && CMaxOf(Shape(w, e), k) as real > threshold|
  {
    hide Words, Shape, CMaxOf, IsPartition, Generate, Total;
    var ps := Generate(n, n);
    GenerateDistinct(n, n);
    forall i | 0 <= i < |ps| ensures IsPartition(ps[i], n, n) {
      assert ps[i] in ps;
      GenerateComplete(ps[i], n, n);
    }
    TotalCounts(ps, n, k, e, threshold);
    forall w | w in Words(n, e) ensures Shape(w, e) in ps { ShapeGenerated(w, n, e); }
    assert Beating(ps, n, k, e, threshold) == set w | w in Words(n, e) && CMaxOf(Shape(w, e), k) as real > threshold;
  }

  /** Below every product the total is the number of all words: the weights of all partitions add up to e^n. */
  lemma TotalOfAll(n: nat, k: nat, e: nat)
    ensures Total(Generate(n, n), n, k, e, -1.0) == Pow(e, n)
  {
    hide Words, Shape, CMaxOf, Generate, Total;
    TotalIsCount(n, k, e, -1.0);
    WordsNumber(n, e);
    assert Words(n, e) == set w | w in Words(n, e) && CMaxOf(Shape(w, e), k) as real > -1.0;
  }

  /** compute_delta_pub_size with its threshold, a fraction of the number of arrangements of k out of l_com. */
  method DeltaPubSize(lCom: nat, k: nat, epsilon: nat, success: real) returns (total: nat)
    requires lCom >= 1
    ensures total == |set w | w in Words(lCom, epsilon) && CMaxOf(Shape(w, epsilon), k) as real > success * Perm(lCom, k) as real|
  {
    hide Words, Shape, CMaxOf, Perm;
    var threshold := success * Perm(lCom, k) as real;
    total := ComputeDeltaPubSize(lCom, k, epsilon, threshold);
    assert (set w | w in Words(lCom, epsilon) && CMaxOf(Shape(w, epsilon), k) as real > threshold)
      == set w | w in Words(lCom, epsilon) && CMaxOf(Shape(w, epsilon), k) as real > success * Perm(lCom, k) as real;
  }

  /** The early stop: not even the look-ahead partition beats the threshold. */
  method NothingBeyond(p: seq<nat>, lCom: nat, k: nat, threshold: real) returns (stop: bool)
    requires p != [] && p[0] >= 1
    ensures stop <==> CMaxOf(Greedy(lCom, p[0]), k) as real <= threshold
  {
    hide CMaxOf, Greedy;
    var best := LookAhead(lCom, p[0]);
    var bound := ComputeCMax(best, k);
    stop := bound as real <= threshold;
  }

  method Beats(p: seq<nat>, k: nat, threshold: real) returns (b: bool)
    ensures b <==> CMaxOf(p, k) as real > threshold
  {
    hide CMaxOf;
    var c := ComputeCMax(p, k);
    b := c as real > threshold;
  }

  /**
   The loop of compute_delta_pub_size, for any threshold. The early stop loses nothing: the pruned total is the sum over
   all partitions of l_com, and it is the number of words of length l_com over epsilon symbols for which the product of
   the k largest counts and their predecessors beats the threshold.
   */
  method ComputeDeltaPubSize(lCom: nat, k: nat, epsilon: nat, threshold: real) returns (total: nat)
    requires lCom >= 1
    ensures total == Total(Generate(lCom, lCom), lCom, k, epsilon, threshold)
    ensures total == |set w | w in Words(lCom, epsilon) && CMaxOf(Shape(w, epsilon), k) as real > threshold|
  {
    hide CMaxOf, Generate, Greedy, Weight, IsPartition, Words, Shape;
    TotalIsCount(lCom, k, epsilon, threshold);
    var ps := Generate(lCom, lCom);
    GenerateDescends(lCom, lCom);
    total := 0;
    var i := 0;
    assert ps[0..] == ps;
    while i < |ps|
      invariant 0 <= i <= |ps|
      invariant total + Total(ps[i..], lCom, k, epsilon, threshold) == Total(ps, lCom, k, epsilon, threshold)
    {
      var p := ps[i];
      TotalSplit(ps, i, lCom, k, epsilon, threshold);
      if |p| <= epsilon {
        FirstPositive(p, lCom) by { GenerateComplete(p, lCom, lCom); assert p in ps; }
        var stop := NothingBeyond(p, lCom, k, threshold);
        if stop {
          StopIsSafe(lCom, i, k, threshold);
          NothingLeft(ps[i..], lCom, k, epsilon, threshold);
          return;
        }
        var beats := Beats(p, k, threshold);
        if beats {
          total := total + Weight(p, lCom, epsilon);
        }
      }
      i := i + 1;
    }
  }
}
