/** Sequences as lists, enumerations of a hash map's keys, and order-free sums. */
module Collections {

  /** The last `n` elements, in order. */
  function LastN<T>(s: seq<T>, n: nat): seq<T> {
    if |s| <= n then s else s[|s| - n..]
  }

  ghost predicate Distinct<T>(s: seq<T>) {
    forall i, j :: 0 <= i < j < |s| ==> s[i] != s[j]
  }

  /** `s` lists every member of `xs` once: an iteration order of a hash map or set. */
  ghost predicate Enumerates<T>(s: seq<T>, xs: set<T>) {
    && Distinct(s)
    && (forall x :: x in s ==> x in xs)
    && (forall x :: x in xs ==> x in s)
  }

  function Sum<T>(s: seq<T>, f: T -> real): real {
    if s == [] then 0.0 else f(s[0]) + Sum(s[1..], f)
  }

  /** How many elements satisfy `wanted`. */
  function Count<T>(s: seq<T>, wanted: T -> bool): (n: nat)
    ensures n <= |s|
  {
    if s == [] then 0 else Count(s[..|s| - 1], wanted) + (if wanted(s[|s| - 1]) then 1 else 0)
  }

  lemma {:induction false} CountCongruent<T>(s: seq<T>, p: T -> bool, q: T -> bool)
    requires forall x :: x in s ==> (p(x) <==> q(x))
    ensures Count(s, p) == Count(s, q)
  {
    if s != [] {
      assert s[|s| - 1] in s;
      assert forall x :: x in s[..|s| - 1] ==> x in s;
      CountCongruent(s[..|s| - 1], p, q);
    }
  }

  function Without<T>(s: seq<T>, i: nat): seq<T>
    requires i < |s|
  {
    s[..i] + s[i + 1..]
  }

  lemma {:induction false} SumWithout<T>(s: seq<T>, f: T -> real, i: nat)
    requires i < |s|
    ensures Sum(s, f) == f(s[i]) + Sum(Without(s, i), f)
  {
    if i == 0 {
      assert Without(s, 0) == s[1..];
    } else {
      SumWithout(s[1..], f, i - 1);
      assert Without(s, i)[0] == s[0];
      assert Without(s, i)[1..] == Without(s[1..], i - 1);
    }
  }

  lemma {:induction false} SumCongruent<T>(s: seq<T>, f: T -> real, g: T -> real)
    requires forall x :: x in s ==> f(x) == g(x)
    ensures Sum(s, f) == Sum(s, g)
  {
    if s != [] {
      assert s[0] in s;
      assert forall x :: x in s[1..] ==> x in s;
      SumCongruent(s[1..], f, g);
    }
  }

  lemma {:induction false} SumAppend<T>(s: seq<T>, x: T, f: T -> real)
    ensures Sum(s + [x], f) == Sum(s, f) + f(x)
  {
    if s == [] {
      assert s + [x] == [x];
      assert [x][1..] == [];
    } else {
      SumAppend(s[1..], x, f);
      assert (s + [x])[1..] == s[1..] + [x];
    }
  }

  lemma WithoutEnumerates<T>(s: seq<T>, xs: set<T>, i: nat)
    requires Enumerates(s, xs) && i < |s|
    ensures Enumerates(Without(s, i), xs - {s[i]})
  {
    var t := Without(s, i);
    forall a, b | 0 <= a < b < |t| ensures t[a] != t[b] {
      assert t[a] == s[if a < i then a else a + 1];
      assert t[b] == s[if b < i then b else b + 1];
    }
    forall x | x in t ensures x in xs - {s[i]} {
      var k :| 0 <= k < |t| && t[k] == x;
      assert x == s[if k < i then k else k + 1];
    }
    forall x | x in xs - {s[i]} ensures x in t {
      var k :| 0 <= k < |s| && s[k] == x;
      assert x == t[if k < i then k else k - 1];
    }
  }

  lemma FirstEnumerated<T>(s: seq<T>, xs: set<T>)
    requires Enumerates(s, xs)
    ensures s != [] ==> s[0] in xs
  {
  }

  /** Every set can be listed. */
  lemma Enumeration<T>(xs: set<T>) returns (s: seq<T>)
    ensures Enumerates(s, xs)
  {
    s := [];
    var left := xs;
    while left != {}
      invariant left <= xs && Enumerates(s, xs - left)
      decreases left
    {
      var x :| x in left;
      assert x !in s;
      s, left := s + [x], left - {x};
    }
  }

  /** A sum over a hash map does not depend on its iteration order. */
  lemma {:induction false} SumOrderFree<T>(a: seq<T>, b: seq<T>, xs: set<T>, f: T -> real)
    requires Enumerates(a, xs) && Enumerates(b, xs)
    ensures Sum(a, f) == Sum(b, f)
    decreases |a|
  {
    if a == [] {
      assert xs == {};
      FirstEnumerated(b, xs);
    } else {
      assert a[0] in a;
      var k :| 0 <= k < |b| && b[k] == a[0];
      WithoutEnumerates(a, xs, 0);
      WithoutEnumerates(b, xs, k);
      assert Without(a, 0) == a[1..];
      SumOrderFree(a[1..], Without(b, k), xs - {a[0]}, f);
      SumWithout(b, f, k);
    }
  }

  lemma Associative<T>(a: seq<T>, b: seq<T>, c: seq<T>)
    ensures (a + b) + c == a + (b + c)
  {
  }

  lemma LastNAppend<T>(s: seq<T>, x: T, n: nat)
    ensures LastN(LastN(s, n) + [x], n) == LastN(s + [x], n)
  {
  }
}
