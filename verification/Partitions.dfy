/**
 params-scripts/dpub.py: the enumeration of integer partitions, the product of the k largest entries, and
 the pruned count with its look-ahead.
 */
module Partitions {
  import opened Numbers

  // --------------------------------------------------------- the enumeration

  function Prepend(i: nat, ps: seq<seq<nat>>): (r: seq<seq<nat>>)
    ensures |r| == |ps| && forall j :: 0 <= j < |ps| ==> r[j] == [i] + ps[j]
  {
    seq(|ps|, j requires 0 <= j < |ps| => [i] + ps[j])
  }

  /** generate_partitions, as the sequence of what it yields. */
  function Generate(n: nat, max: nat): seq<seq<nat>>
    decreases n, max, 1
  {
    if n == 0 then [[]] else GenerateFrom(n, max, Min(n, max))
  }

  /** The loop over the first part, from `i` down to one. */
  function GenerateFrom(n: nat, max: nat, i: nat): seq<seq<nat>>
    requires i <= n && i <= max
    decreases n, i, 0
  {
    if i == 0 then [] else Prepend(i, Generate(n - i, i)) + GenerateFrom(n, max, i - 1)
  }

  function Sum(p: seq<nat>): nat
  {
    if p == [] then 0 else p[0] + Sum(p[1..])
  }

  /** A partition of n with parts up to max: positive, non-increasing, adding up to n. */
  ghost predicate IsPartition(p: seq<nat>, n: nat, max: nat)
  {
    && Sum(p) == n
    && (forall i :: 0 <= i < |p| ==> 1 <= p[i] <= max)
    && forall i, j :: 0 <= i < j < |p| ==> p[i] >= p[j]
  }

  lemma PartitionHead(p: seq<nat>, n: nat, max: nat)
    requires p != []
    ensures IsPartition(p, n, max) <==> 1 <= p[0] <= max && p[0] <= n && IsPartition(p[1..], n - p[0], p[0])
  {
    if IsPartition(p, n, max) {
      assert forall i :: 0 <= i < |p[1..]| ==> p[1..][i] == p[i + 1];
    }
    if 1 <= p[0] <= max && p[0] <= n && IsPartition(p[1..], n - p[0], p[0]) {
      assert forall i :: 1 <= i < |p| ==> p[i] == p[1..][i - 1];
    }
  }

  lemma PartitionOfZero(p: seq<nat>, max: nat)
    ensures IsPartition(p, 0, max) <==> p == []
  {
    if p != [] { PartitionHead(p, 0, max); }
  }

  lemma SumWritten(i: nat, p: seq<nat>)
    ensures Sum([]) == 0 && Sum([i] + p) == i + Sum(p)
  {
    assert ([i] + p)[1..] == p;
  }

  /** Every yielded list is a partition and every partition is yielded. */
  lemma GenerateComplete(p: seq<nat>, n: nat, max: nat)
    ensures p in Generate(n, max) <==>
      Sum(p) == n && (forall i :: 0 <= i < |p| ==> 1 <= p[i] <= max) && forall i, j :: 0 <= i < j < |p| ==> p[i] >= p[j]
    ensures p in Generate(n, max) <==> IsPartition(p, n, max)
  {
    GenerateListed(p, n, max);
  }

  lemma {:induction false} GenerateListed(p: seq<nat>, n: nat, max: nat)
    ensures p in Generate(n, max) <==> IsPartition(p, n, max)
    decreases n, max, 1
  {
    hide IsPartition;
    if n == 0 {
      PartitionOfZero(p, max);
    } else {
      GenerateFromComplete(p, n, max, Min(n, max));
      if p == [] { EmptyPartition(n, max); } else { PartitionHead(p, n, max); }
    }
  }

  lemma EmptyPartition(n: nat, max: nat)
    requires n > 0
    ensures !IsPartition([], n, max)
  {}

  lemma {:induction false} GenerateFromComplete(p: seq<nat>, n: nat, max: nat, i: nat)
    requires i <= n && i <= max
    ensures p in GenerateFrom(n, max, i) <==> p != [] && 1 <= p[0] <= i && IsPartition(p[1..], n - p[0], p[0])
    decreases n, i, 0
  {
    hide IsPartition;
    if i > 0 {
      GenerateFromComplete(p, n, max, i - 1);
      var ps := Generate(n - i, i);
      if p != [] && p[0] == i {
        GenerateListed(p[1..], n - i, i);
        if p[1..] in ps {
          var j :| 0 <= j < |ps| && ps[j] == p[1..];
          assert Prepend(i, ps)[j] == [i] + p[1..] == p;
        }
        if p in Prepend(i, ps) {
          var j :| 0 <= j < |ps| && Prepend(i, ps)[j] == p;
          assert ps[j] == p[1..];
        }
      }
    }
  }

  ghost predicate NoRepeats(ps: seq<seq<nat>>)
  {
    forall i, j :: 0 <= i < j < |ps| ==> ps[i] != ps[j]
  }

  ghost predicate FirstPartsDescend(ps: seq<seq<nat>>)
  {
    && (forall i :: 0 <= i < |ps| ==> ps[i] != [])
    && forall i, j :: 0 <= i < j < |ps| ==> ps[i][0] >= ps[j][0]
  }

  /** No partition is yielded twice. */
  lemma {:induction false} GenerateDistinct(n: nat, max: nat)
    ensures NoRepeats(Generate(n, max))
    decreases n, max, 1
  {
    if n > 0 { GenerateFromOrdered(n, max, Min(n, max)); }
  }

  /** The first parts never grow. */
  lemma GenerateDescends(n: nat, max: nat)
    requires n > 0
    ensures FirstPartsDescend(Generate(n, max))
  {
    GenerateFromOrdered(n, max, Min(n, max));
  }

  lemma {:induction false} GenerateFromOrdered(n: nat, max: nat, i: nat)
    requires i <= n && i <= max
    ensures NoRepeats(GenerateFrom(n, max, i)) && FirstPartsDescend(GenerateFrom(n, max, i))
    ensures forall j :: 0 <= j < |GenerateFrom(n, max, i)| ==> GenerateFrom(n, max, i)[j][0] <= i
    decreases n, i, 0
  {
    if i > 0 {
      var head, tail := Prepend(i, Generate(n - i, i)), GenerateFrom(n, max, i - 1);
      GenerateDistinct(n - i, i);
      GenerateFromOrdered(n, max, i - 1);
      assert forall j, k :: 0 <= j < k < |head| ==> head[j][1..] == Generate(n - i, i)[j] && head[k][1..] == Generate(n - i, i)[k];
    }
  }

  // ------------------------------------------------- the k largest elements

  function Descending(m: nat): (s: seq<nat>)
    ensures |s| == m && forall i :: 0 <= i < m ==> s[i] == i + 1
  {
    seq(m, i => i + 1)
  }

  /** The list S: 1..n_i for every part. */
  function Elements(p: seq<nat>): seq<nat>
  {
    if p == [] then [] else Elements(p[..|p| - 1]) + Descending(p[|p| - 1])
  }

  function Insert(x: nat, s: seq<nat>): (r: seq<nat>)
    ensures |r| == |s| + 1
  {
    if s == [] || x >= s[0] then [x] + s else [s[0]] + Insert(x, s[1..])
  }

  /** sort(reverse=True). */
  function SortedDown(s: seq<nat>): (r: seq<nat>)
    ensures |r| == |s|
  {
    if s == [] then [] else Insert(s[0], SortedDown(s[1..]))
  }

  function Product(s: seq<nat>): nat
  {
    if s == [] then 1 else MulNat(Product(s[..|s| - 1]), s[|s| - 1])
  }

  function MulNat(a: nat, b: nat): nat
  {
    MulNonNeg(a, b);
    a * b
  }

  function CMaxOf(p: seq<nat>, k: nat): nat
  {
    var s := SortedDown(Elements(p));
    Product(s[..Min(k, |s|)])
  }

  lemma ElementsWritten(p: seq<nat>, m: nat)
    ensures Elements([]) == [] && Elements(p + [m]) == Elements(p) + seq(m, i => i + 1)
  {
    assert (p + [m])[..|p|] == p;
  }

  lemma ProductWritten(s: seq<nat>, x: nat)
    ensures Product([]) == 1 && Product(s + [x]) == Product(s) * x
  {
    assert (s + [x])[..|s|] == s;
  }

  /** `k` of the entries, or all of them if there are fewer. */
  ghost predicate IsChoice(p: seq<nat>, k: nat, q: seq<nat>)
  {
    |q| == Min(k, |Elements(p)|) && multiset(q) <= multiset(Elements(p))
  }

  method ComputeCMax(p: seq<nat>, k: nat) returns (c: nat)
    ensures c == CMaxOf(p, k)
    ensures exists q: seq<nat> ::
      (|q| == k || (|q| < k && |q| == |Elements(p)|)) && multiset(q) <= multiset(Elements(p)) && Product(q) == c
    ensures forall q: seq<nat> :: |q| <= k && multiset(q) <= multiset(Elements(p)) && (|q| == k || |q| == |Elements(p)|) ==>
      Product(q) <= c
  {
    hide SortedDown, Product;
    var s: seq<nat> := [];
    var i := 0;
    while i < |p|
      invariant 0 <= i <= |p| && s == Elements(p[..i])
    {
      assert p[..i + 1][..i] == p[..i];
      s := s + Descending(p[i]);
      i := i + 1;
    }
    assert p[..|p|] == p;
    s := SortedDown(s);
    c := Product(s[..Min(k, |s|)]);
    CMaxReached(p, k);
    forall q: seq<nat> | |q| <= k && multiset(q) <= multiset(Elements(p)) && (|q| == k || |q| == |Elements(p)|)
      ensures Product(q) <= c
    {
      ChoiceSize(q, Elements(p));
      ChoiceBounded(p, k, q);
    }
  }

  /** The k largest entries are a choice. */
  lemma CMaxReached(p: seq<nat>, k: nat)
    ensures exists q: seq<nat> ::
      (|q| == k || (|q| < k && |q| == |Elements(p)|)) && multiset(q) <= multiset(Elements(p)) && Product(q) == CMaxOf(p, k)
  {
    hide Elements, Product, SortedDown;
    var s := SortedDown(Elements(p));
    var n := Min(k, |s|);
    SortedKeeps(Elements(p));
    assert multiset(s) == multiset(s[..n]) + multiset(s[n..]) by { assert s == s[..n] + s[n..]; }
    assert Product(s[..n]) == CMaxOf(p, k) && multiset(s[..n]) <= multiset(Elements(p));
  }

  lemma ChoiceSize(q: seq<nat>, s: seq<nat>)
    requires multiset(q) <= multiset(s)
    ensures |q| <= |s|
  {
    assert |multiset(s) - multiset(q)| == |multiset(s)| - |multiset(q)|;
  }

  /** How many entries are at least t. */
  function AtLeast(s: seq<nat>, t: nat): nat
  {
    if s == [] then 0 else (if s[|s| - 1] >= t then 1 else 0) + AtLeast(s[..|s| - 1], t)
  }

  lemma {:induction false} AtLeastAppend(a: seq<nat>, b: seq<nat>, t: nat)
    ensures AtLeast(a + b, t) == AtLeast(a, t) + AtLeast(b, t)
  {
    if b == [] {
      assert a + b == a;
    } else {
      assert (a + b)[..|a + b| - 1] == a + b[..|b| - 1];
      AtLeastAppend(a, b[..|b| - 1], t);
    }
  }

  lemma AtLeastHead(s: seq<nat>, t: nat)
    requires s != []
    ensures AtLeast(s, t) == (if s[0] >= t then 1 else 0) + AtLeast(s[1..], t)
  {
    assert s == [s[0]] + s[1..];
    AtLeastAppend([s[0]], s[1..], t);
    assert AtLeast([s[0]][..0], t) == 0;
  }

  ghost predicate IsDown(s: seq<nat>)
  {
    forall i, j :: 0 <= i < j < |s| ==> s[i] >= s[j]
  }

  lemma {:induction false} InsertKeeps(x: nat, s: seq<nat>, t: nat)
    requires IsDown(s)
    ensures IsDown(Insert(x, s)) && AtLeast(Insert(x, s), t) == (if x >= t then 1 else 0) + AtLeast(s, t)
    ensures forall i :: 0 <= i < |Insert(x, s)| ==> Insert(x, s)[i] <= x || (s != [] && Insert(x, s)[i] <= s[0])
  {
    var r := Insert(x, s);
    AtLeastHead(r, t);
    if s == [] || x >= s[0] {
      assert r[1..] == s;
    } else {
      InsertKeeps(x, s[1..], t);
      AtLeastHead(s, t);
      assert r[1..] == Insert(x, s[1..]);
    }
  }

  /** Sorting orders the entries and keeps every count. */
  lemma {:induction false} SortedCounts(s: seq<nat>, t: nat)
    ensures IsDown(SortedDown(s)) && AtLeast(SortedDown(s), t) == AtLeast(s, t)
  {
    if s != [] {
      SortedCounts(s[1..], t);
      InsertKeeps(s[0], SortedDown(s[1..]), t);
      AtLeastHead(s, t);
    }
  }

  lemma {:induction false} AllAtLeast(s: seq<nat>, t: nat)
    requires forall i :: 0 <= i < |s| ==> s[i] >= t
    ensures AtLeast(s, t) == |s|
  {
    if s != [] { AllAtLeast(s[..|s| - 1], t); }
  }

  lemma {:induction false} NoneAtLeast(s: seq<nat>, t: nat)
    requires forall i :: 0 <= i < |s| ==> s[i] < t
    ensures AtLeast(s, t) == 0
  {
    if s != [] { NoneAtLeast(s[..|s| - 1], t); }
  }

  lemma {:induction false} AtLeastBound(s: seq<nat>, t: nat)
    ensures AtLeast(s, t) <= |s|
  {
    if s != [] { AtLeastBound(s[..|s| - 1], t); }
  }

  /** Sorted entries follow the counts. */
  lemma EntriesFollow(a: seq<nat>, b: seq<nat>, j: nat)
    requires IsDown(a) && IsDown(b) && j < |b| <= |a|
    requires AtLeast(a, b[j]) >= AtLeast(b, b[j])
    ensures a[j] >= b[j]
  {
    LowEntries(a, j, b[j]);
    HighEntries(b, j);
  }

  /** If entry j is below t, at most the j entries before it reach t. */
  lemma LowEntries(a: seq<nat>, j: nat, t: nat)
    requires IsDown(a) && j < |a|
    ensures a[j] < t ==> AtLeast(a, t) <= j
  {
    hide AtLeast;
    if a[j] < t {
      assert a == a[..j] + a[j..];
      AtLeastAppend(a[..j], a[j..], t);
      NoneAtLeast(a[j..], t);
      AtLeastBound(a[..j], t);
    }
  }

  /** Entry j and the j entries before it reach its value. */
  lemma HighEntries(b: seq<nat>, j: nat)
    requires IsDown(b) && j < |b|
    ensures AtLeast(b, b[j]) >= j + 1
  {
    hide AtLeast;
    assert b == b[..j + 1] + b[j + 1..];
    AtLeastAppend(b[..j + 1], b[j + 1..], b[j]);
    AllAtLeast(b[..j + 1], b[j]);
  }

  lemma {:induction false} ProductMono(a: seq<nat>, b: seq<nat>)
    requires |a| == |b| && forall i :: 0 <= i < |a| ==> a[i] >= b[i]
    ensures Product(a) >= Product(b)
  {
    hide MulNat;
    if a != [] {
      ProductMono(a[..|a| - 1], b[..|b| - 1]);
      MulNatMono(Product(a[..|a| - 1]), Product(b[..|b| - 1]), a[|a| - 1], b[|b| - 1]);
    }
  }

  lemma MulNatMono(a: nat, b: nat, c: nat, d: nat)
    requires a >= b && c >= d
    ensures MulNat(a, c) >= MulNat(b, d)
  {
    MulMono(b, a, c);
    MulMono(d, c, b);
  }

  /** Larger counts everywhere give a larger product of the k largest entries. */
  lemma CountsDominate(p: seq<nat>, q: seq<nat>, k: nat)
    requires |Elements(p)| == |Elements(q)|
    requires forall t: nat :: AtLeast(Elements(p), t) >= AtLeast(Elements(q), t)
    ensures CMaxOf(p, k) >= CMaxOf(q, k)
  {
    hide AtLeast, IsDown;
    var a, b := SortedDown(Elements(p)), SortedDown(Elements(q));
    forall j | 0 <= j < |a| ensures a[j] >= b[j] {
      SortedCounts(Elements(p), b[j]);
      SortedCounts(Elements(q), b[j]);
      EntriesFollow(a, b, j);
    }
    ProductMono(a[..Min(k, |a|)], b[..Min(k, |b|)]);
  }

  // ------------------------------------------------ the k largest entries

  lemma {:induction false} InsertMultiset(x: nat, s: seq<nat>)
    ensures multiset(Insert(x, s)) == multiset(s) + multiset{x}
  {
    if s != [] && x < s[0] {
      InsertMultiset(x, s[1..]);
      assert s == [s[0]] + s[1..];
    }
  }

  lemma {:induction false} SortedKeeps(s: seq<nat>)
    ensures multiset(SortedDown(s)) == multiset(s)
  {
    if s != [] {
      SortedKeeps(s[1..]);
      InsertMultiset(s[0], SortedDown(s[1..]));
      assert s == [s[0]] + s[1..];
    }
  }

  lemma {:induction false} ProductHead(s: seq<nat>)
    requires s != []
    ensures Product(s) == s[0] * Product(s[1..])
  {
    var n := |s| - 1;
    if n == 0 {
      assert s[..0] == [] && s[1..] == [];
    } else {
      ProductHead(s[..n]);
      assert s[..n][1..] == s[1..][..n - 1];
      MulAssoc(s[0], Product(s[1..][..n - 1]), s[n]);
    }
  }

  lemma {:induction false} InsertProduct(x: nat, s: seq<nat>)
    ensures Product(Insert(x, s)) == x * Product(s)
  {
    hide Product;
    ProductHead(Insert(x, s));
    if s == [] || x >= s[0] {
      assert Insert(x, s)[1..] == s;
    } else {
      InsertProduct(x, s[1..]);
      ProductHead(s);
      assert Insert(x, s)[1..] == Insert(x, s[1..]);
      MulAssoc(s[0], x, Product(s[1..]));
      MulAssoc(x, s[0], Product(s[1..]));
    }
  }

  lemma {:induction false} SortedProduct(s: seq<nat>)
    ensures Product(SortedDown(s)) == Product(s)
  {
    if s != [] {
      SortedProduct(s[1..]);
      InsertProduct(s[0], SortedDown(s[1..]));
      ProductHead(s);
    }
  }

  /** Taking an entry out of a list that has it. */
  lemma TakeOut(s: seq<nat>, x: nat, t: nat) returns (r: seq<nat>)
    requires x in multiset(s)
    ensures multiset(s) == multiset(r) + multiset{x} && AtLeast(s, t) == AtLeast(r, t) + if x >= t then 1 else 0
  {
    hide AtLeast;
    var i :| 0 <= i < |s| && s[i] == x;
    var a, b := s[..i], s[i + 1..];
    r := a + b;
    assert s == a + [x] + b;
    AtLeastAppend(a, b, t);
    AtLeastAppend(a + [x], b, t);
    AtLeastAppend(a, [x], t);
    AtLeastOne(x, t);
  }

  lemma AtLeastOne(x: nat, t: nat)
    ensures AtLeast([x], t) == if x >= t then 1 else 0
  {
    assert AtLeast([x][..0], t) == 0;
  }

  lemma CancelOne(a: multiset<nat>, b: multiset<nat>, x: nat)
    requires a + multiset{x} <= b + multiset{x}
    ensures a <= b
  {
    forall y | y in a ensures a[y] <= b[y] { assert (a + multiset{x})[y] <= (b + multiset{x})[y]; }
  }

  /** Fewer entries, fewer of them at least t. */
  lemma {:induction false} AtLeastSub(q: seq<nat>, s: seq<nat>, t: nat)
    requires multiset(q) <= multiset(s)
    ensures AtLeast(q, t) <= AtLeast(s, t)
  {
    if q != [] {
      var n := |q| - 1;
      assert multiset(q) == multiset(q[..n]) + multiset{q[n]} by { assert q == q[..n] + [q[n]]; }
      assert q[n] in multiset(q);
      var r := TakeOut(s, q[n], t);
      CancelOne(multiset(q[..n]), multiset(r), q[n]);
      AtLeastSub(q[..n], r, t);
    }
  }

  /** No choice of k entries has a larger product than the k largest. */
  lemma ChoiceBounded(p: seq<nat>, k: nat, q: seq<nat>)
    requires IsChoice(p, k, q)
    ensures Product(q) <= CMaxOf(p, k)
  {
    hide AtLeast, IsDown, Product;
    var s := Elements(p);
    var a, b := SortedDown(s), SortedDown(q);
    SortedProduct(q);
    forall j | 0 <= j < |b| ensures a[j] >= b[j] {
      SortedCounts(s, b[j]);
      SortedCounts(q, b[j]);
      AtLeastSub(q, s, b[j]);
      EntriesFollow(a, b, j);
    }
    ProductMono(a[..|b|], b);
  }

  // ------------------------------------------------------- the look-ahead

  /** Entries at least t that one part contributes. */
  function Over(q: nat, t: nat): nat
  {
    if t == 0 then q else if q >= t then q - t + 1 else 0
  }

  function Overs(p: seq<nat>, t: nat): nat
  {
    if p == [] then 0 else Over(p[0], t) + Overs(p[1..], t)
  }

  lemma {:induction false} OversAppend(p: seq<nat>, q: seq<nat>, t: nat)
    ensures Overs(p + q, t) == Overs(p, t) + Overs(q, t)
  {
    if p == [] {
      assert p + q == q;
    } else {
      assert (p + q)[1..] == p[1..] + q;
      OversAppend(p[1..], q, t);
    }
  }

  lemma {:induction false} DescendingCount(m: nat, t: nat)
    ensures AtLeast(Descending(m), t) == Over(m, t)
  {
    if m > 0 {
      assert Descending(m)[..m - 1] == Descending(m - 1);
      DescendingCount(m - 1, t);
    }
  }

  lemma {:induction false} ElementsCount(p: seq<nat>, t: nat)
    ensures AtLeast(Elements(p), t) == Overs(p, t)
  {
    if p != [] {
      var n := |p| - 1;
      ElementsCount(p[..n], t);
      AtLeastAppend(Elements(p[..n]), Descending(p[n]), t);
      DescendingCount(p[n], t);
      assert p == p[..n] + [p[n]];
      OversAppend(p[..n], [p[n]], t);
      assert Overs([p[n]], t) == Over(p[n], t) + Overs([p[n]][1..], t);
    }
  }

  /** The list has as many entries as the parts add up to. */
  lemma {:induction false} OversAtZero(p: seq<nat>)
    ensures Overs(p, 0) == Sum(p)
  {
    if p != [] { OversAtZero(p[1..]); }
  }

  lemma ElementsLength(p: seq<nat>)
    ensures |Elements(p)| == Sum(p)
  {
    ElementsCount(p, 0);
    OversAtZero(p);
    AllAtLeast(Elements(p), 0);
  }

  /** Full parts of size m, then the rest. */
  function Greedy(rem: nat, m: nat): (p: seq<nat>)
    requires m >= 1
  {
    if rem == 0 then [] else [Min(rem, m)] + Greedy(rem - Min(rem, m), m)
  }

  method LookAhead(lCom: nat, maxAllowed: nat) returns (best: seq<nat>)
    requires maxAllowed >= 1
    ensures best == Greedy(lCom, maxAllowed)
    ensures best == seq(lCom / maxAllowed, _ => maxAllowed) + if lCom % maxAllowed == 0 then [] else [lCom % maxAllowed]
  {
    best := [];
    var rem := lCom;
    while rem > 0
      invariant 0 <= rem <= lCom && best + Greedy(rem, maxAllowed) == Greedy(lCom, maxAllowed)
    {
      var take := Min(rem, maxAllowed);
      best := best + [take];
      rem := rem - take;
    }
    GreedyWritten(lCom, maxAllowed);
  }

  lemma {:induction false} GreedyWritten(rem: nat, m: nat)
    requires m >= 1
    ensures Greedy(rem, m) == seq(rem / m, _ => m) + if rem % m == 0 then [] else [rem % m]
  {
    if rem >= m {
      GreedyWritten(rem - m, m);
      TakeOnce(rem, m);
      OneFullPart(m, (rem - m) / m);
    } else {
      ModUnique(rem, 0, rem, m);
    }
  }

  lemma TakeOnce(rem: nat, m: nat)
    requires 1 <= m <= rem
    ensures rem / m == (rem - m) / m + 1 && rem % m == (rem - m) % m
  {
    ModUnique(rem, (rem - m) / m + 1, (rem - m) % m, m);
  }

  lemma OneFullPart(m: nat, q: nat)
    ensures [m] + seq(q, _ => m) == seq(q + 1, _ => m)
  {}

  lemma {:induction false} GreedySum(rem: nat, m: nat)
    requires m >= 1
    ensures Sum(Greedy(rem, m)) == rem
  {
    if rem > 0 { GreedySum(rem - Min(rem, m), m); }
  }

  /** Moving from a part q to full parts never loses entries above t. */
  lemma Superadditive(q: nat, r: nat, m: nat, t: nat)
    requires q <= m && r <= m
    ensures Over(q, t) + Over(r, t) <= Over(Min(q + r, m), t) + Over(q + r - Min(q + r, m), t)
  {}

  lemma {:induction false} GreedyTakes(q: nat, rem: nat, m: nat, t: nat)
    requires 1 <= q <= m
    ensures Over(q, t) + Overs(Greedy(rem, m), t) <= Overs(Greedy(q + rem, m), t)
    decreases rem
  {
    hide Over;
    GreedyHead(q + rem, m, t);
    if rem == 0 {
      GreedyEmpty(m, t);
    } else if rem <= m {
      GreedyHead(rem, m, t);
      GreedyEmpty(m, t);
      Superadditive(q, rem, m, t);
      if q + rem > m {
        GreedyHead(q + rem - m, m, t);
      } else {
        ZeroOver(t);
      }
    } else {
      GreedyHead(rem, m, t);
      GreedyTakes(q, rem - m, m, t);
    }
  }

  lemma ZeroOver(t: nat)
    ensures Over(0, t) == 0
  {}

  lemma GreedyEmpty(m: nat, t: nat)
    requires m >= 1
    ensures Overs(Greedy(0, m), t) == 0
  {}

  lemma GreedyHead(rem: nat, m: nat, t: nat)
    requires m >= 1 && rem > 0
    ensures Overs(Greedy(rem, m), t) == Over(Min(rem, m), t) + Overs(Greedy(rem - Min(rem, m), m), t)
  {
    hide Over;
    var g := Greedy(rem, m);
    assert g[1..] == Greedy(rem - Min(rem, m), m);
  }

  lemma {:induction false} GreedyCounts(p: seq<nat>, m: nat, t: nat)
    requires m >= 1 && forall i :: 0 <= i < |p| ==> 1 <= p[i] <= m
    ensures Overs(p, t) <= Overs(Greedy(Sum(p), m), t)
  {
    hide Over;
    if p != [] {
      GreedyCounts(p[1..], m, t);
      GreedyTakes(p[0], Sum(p[1..]), m, t);
    }
  }

  /** The look-ahead partition maximises C_max over all partitions with parts up to its bound. */
  lemma GreedyMaximises(p: seq<nat>, n: nat, m: nat, k: nat)
    requires m >= 1 && IsPartition(p, n, m)
    ensures CMaxOf(Greedy(n, m), k) >= CMaxOf(p, k)
  {
    hide Overs, AtLeast, Elements;
    ElementsLength(p);
    ElementsLength(Greedy(n, m));
    GreedySum(n, m);
    forall t: nat ensures AtLeast(Elements(Greedy(n, m)), t) >= AtLeast(Elements(p), t) {
      ElementsCount(p, t);
      ElementsCount(Greedy(n, m), t);
      GreedyCounts(p, m, t);
    }
    CountsDominate(Greedy(n, m), p, k);
  }

  // ------------------------------------------------------- the pruned count

  function Factorial(n: nat): (r: nat)
    ensures r >= 1
  {
    if n == 0 then 1 else MulPositive(n, Factorial(n - 1))
  }

  function MulPositive(a: nat, b: nat): (r: nat)
    requires a >= 1 && b >= 1
    ensures r >= 1 && r == a * b
  {
    MulMono(1, a, b);
    a * b
  }

  /** math.perm: n * (n - 1) * ... of m factors. */
  function Perm(n: nat, m: nat): nat
  {
    if m == 0 then 1 else if n == 0 then 0 else MulNat(n, Perm(n - 1, m - 1))
  }

  /** Integer division by the factorials of the listed numbers, one after the other. */
  function DivideAll(x: nat, s: seq<nat>): nat
  {
    if s == [] then x else DivideAll(x, s[..|s| - 1]) / Factorial(s[|s| - 1])
  }

  /** How often each value occurs, in order of first occurrence in a non-increasing list. */
  function RunLengths(p: seq<nat>): seq<nat>
  {
    RunsUpTo(p, |p|)
  }

  function RunsUpTo(p: seq<nat>, n: nat): (r: seq<nat>)
    requires n <= |p|
    ensures n > 0 ==> r != []
  {
    if n == 0 then [] else OneMore(RunsUpTo(p, n - 1), n > 1 && p[n - 1] == p[n - 2])
  }

  /** The last run grows, or a new one starts. */
  function OneMore(r: seq<nat>, same: bool): (t: seq<nat>)
    ensures t != []
  {
    if same && r != [] then r[|r| - 1 := r[|r| - 1] + 1] else r + [1]
  }

  /** The number of deltas of one partition. */
  function Weight(p: seq<nat>, lCom: nat, epsilon: nat): nat
  {
    MulNat(DivideAll(Perm(epsilon, |p|), RunLengths(p)), DivideAll(Factorial(lCom), p))
  }

  /** What one partition adds to the exhaustive total. */
  function Contribution(p: seq<nat>, lCom: nat, k: nat, epsilon: nat, threshold: real): nat
  {
    if |p| <= epsilon && CMaxOf(p, k) as real > threshold then Weight(p, lCom, epsilon) else 0
  }

  function Total(ps: seq<seq<nat>>, lCom: nat, k: nat, epsilon: nat, threshold: real): nat
  {
    if ps == [] then 0
    else Contribution(ps[0], lCom, k, epsilon, threshold) + Total(ps[1..], lCom, k, epsilon, threshold)
  }

  lemma {:induction false} TotalSplit(ps: seq<seq<nat>>, i: nat, lCom: nat, k: nat, epsilon: nat, threshold: real)
    requires i < |ps|
    ensures Total(ps[i..], lCom, k, epsilon, threshold)
         == Contribution(ps[i], lCom, k, epsilon, threshold) + Total(ps[i + 1..], lCom, k, epsilon, threshold)
  {
    assert ps[i..][1..] == ps[i + 1..];
  }

  lemma {:induction false} NothingLeft(ps: seq<seq<nat>>, lCom: nat, k: nat, epsilon: nat, threshold: real)
    requires forall i :: 0 <= i < |ps| ==> CMaxOf(ps[i], k) as real <= threshold
    ensures Total(ps, lCom, k, epsilon, threshold) == 0
  {
    hide CMaxOf, Weight;
    if ps != [] { NothingLeft(ps[1..], lCom, k, epsilon, threshold); }
  }

  /** A failed look-ahead rules out every partition that is still to come. */
  lemma StopIsSafe(n: nat, i: nat, k: nat, threshold: real)
    requires n > 0 && i < |Generate(n, n)| && Generate(n, n)[i] != [] && Generate(n, n)[i][0] >= 1
    requires CMaxOf(Greedy(n, Generate(n, n)[i][0]), k) as real <= threshold
    ensures forall j :: i <= j < |Generate(n, n)| ==> CMaxOf(Generate(n, n)[j], k) as real <= threshold
  {
    hide CMaxOf, Generate, Greedy;
    var ps := Generate(n, n);
    GenerateDescends(n, n);
    forall j | i <= j < |ps| ensures CMaxOf(ps[j], k) as real <= threshold {
      GenerateComplete(ps[j], n, n);
      assert ps[j] in ps;
      assert ps[j][0] <= ps[i][0];
      GreedyMaximises(ps[j], n, ps[i][0], k);
    }
  }

  lemma FirstPositive(p: seq<nat>, n: nat)
    requires n > 0 && IsPartition(p, n, n)
    ensures p != [] && p[0] >= 1
  {}
}
