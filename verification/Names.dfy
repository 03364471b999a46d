/** Crate names, the order Rust sorts them in, and the one ascending sequence a set of names has. */
module Names {

  type Name = string

  /** Lexicographic order by code point, the order of `str`. */
  predicate Leq(a: Name, b: Name) {
    |a| == 0 || (|b| > 0 && (a[0] < b[0] || (a[0] == b[0] && Leq(a[1..], b[1..]))))
  }

  /** `a` and `b` first differ at `k`, and `a` has the smaller character there. */
  ghost predicate DecidedAt(a: Name, b: Name, k: nat) {
    k < |a| && k < |b| && a[..k] == b[..k] && a[k] < b[k]
  }

  /** At the first difference the smaller character decides; where there is none the shorter name comes first. */
  lemma {:induction false} LeqExactly(a: Name, b: Name)
    ensures Leq(a, b) <==> a <= b || exists k: nat :: DecidedAt(a, b, k)
  {
    if |a| > 0 && |b| > 0 {
      if a[0] == b[0] {
        LeqExactly(a[1..], b[1..]);
        TailsAgree(a, b);
      } else {
        forall k | 0 < k <= |a| && k <= |b| ensures a[..k] != b[..k] {
          assert a[..k][0] == a[0] && b[..k][0] == b[0];
        }
        assert DecidedAt(a, b, 0) <==> a[0] < b[0];
      }
    }
  }

  lemma TailsAgree(a: Name, b: Name)
    requires |a| > 0 && |b| > 0 && a[0] == b[0]
    ensures a <= b <==> a[1..] <= b[1..]
    ensures (exists k: nat :: DecidedAt(a, b, k)) <==> exists k: nat :: DecidedAt(a[1..], b[1..], k)
  {
    forall k | 1 <= k <= |a| && k <= |b| ensures a[..k] == b[..k] <==> a[1..][..k - 1] == b[1..][..k - 1] {
      assert a[..k] == [a[0]] + a[1..][..k - 1] && b[..k] == [b[0]] + b[1..][..k - 1];
    }
    if exists k: nat :: DecidedAt(a, b, k) {
      var k: nat :| DecidedAt(a, b, k);
      assert DecidedAt(a[1..], b[1..], k - 1);
    }
    if exists k: nat :: DecidedAt(a[1..], b[1..], k) {
      var k: nat :| DecidedAt(a[1..], b[1..], k);
      assert DecidedAt(a, b, k + 1);
    }
  }

  lemma {:induction false} LeqTotal(a: Name, b: Name)
    ensures Leq(a, b) || Leq(b, a)
  {
    if |a| > 0 && |b| > 0 && a[0] == b[0] { LeqTotal(a[1..], b[1..]); }
  }

  lemma {:induction false} LeqAntisymmetric(a: Name, b: Name)
    requires Leq(a, b) && Leq(b, a)
    ensures a == b
  {
    if |a| > 0 && |b| > 0 {
      LeqAntisymmetric(a[1..], b[1..]);
      assert a == [a[0]] + a[1..] && b == [b[0]] + b[1..];
    }
  }

  lemma {:induction false} LeqTransitive(a: Name, b: Name, c: Name)
    requires Leq(a, b) && Leq(b, c)
    ensures Leq(a, c)
  {
    if |a| > 0 && a[0] == b[0] && b[0] == c[0] { LeqTransitive(a[1..], b[1..], c[1..]); }
  }

  predicate Sorted(s: seq<Name>) {
    forall i, j :: 0 <= i < j < |s| ==> Leq(s[i], s[j])
  }

  predicate Distinct<T(==)>(s: seq<T>) {
    forall i, j :: 0 <= i < j < |s| ==> s[i] != s[j]
  }

  function Elements<T>(s: seq<T>): set<T> {
    set x | x in s
  }

  lemma {:induction false} DistinctSize<T>(s: seq<T>)
    requires Distinct(s)
    ensures |Elements(s)| == |s|
  {
    if s != [] {
      var n := |s| - 1;
      DistinctSize(s[..n]);
      assert Elements(s) == Elements(s[..n]) + {s[n]};
    }
  }

  lemma {:induction false} SubsetSize<T>(a: set<T>, b: set<T>)
    requires a <= b
    ensures |a| <= |b|
    ensures |a| == |b| ==> a == b
  {
    if a != {} {
      var x :| x in a;
      SubsetSize(a - {x}, b - {x});
      if |a| == |b| { assert a == (a - {x}) + {x} && b == (b - {x}) + {x}; }
    } else if b != {} {
      var y :| y in b;
      assert |b| == |b - {y}| + 1;
    }
  }

  lemma {:induction false} LeastExists(s: set<Name>)
    requires s != {}
    ensures exists m :: m in s && forall x :: x in s ==> Leq(m, x)
  {
    var y :| y in s;
    var rest := s - {y};
    if rest == {} {
      assert s == {y};
      LeqTotal(y, y);
    } else {
      LeastExists(rest);
      var m :| m in rest && forall x :: x in rest ==> Leq(m, x);
      LeqTotal(m, y);
      LeqTotal(y, y);
      if Leq(m, y) {
        assert forall x :: x in s ==> x == y || x in rest;
      } else {
        forall x | x in s ensures Leq(y, x) {
          if x != y { LeqTransitive(y, m, x); }
        }
      }
    }
  }

  /** The names of `s` in ascending order. */
  ghost function InOrder(s: set<Name>): (r: seq<Name>)
    ensures Sorted(r) && Distinct(r)
    ensures forall x :: x in r <==> x in s
  {
    if s == {} then []
    else
      LeastExists(s);
      var m :| m in s && forall x :: x in s ==> Leq(m, x);
      [m] + InOrder(s - {m})
  }

  /** A set of names has one ascending enumeration. */
  lemma {:induction false} AscendingUnique(s: seq<Name>, t: seq<Name>)
    requires Sorted(s) && Distinct(s) && Sorted(t) && Distinct(t)
    requires forall x :: x in s <==> x in t
    ensures s == t
  {
    if s == [] {
      assert forall k :: 0 <= k < |t| ==> t[k] in t;
    } else {
      assert s[0] in t;
      assert t[0] in s;
      var i :| 0 <= i < |t| && t[i] == s[0];
      var j :| 0 <= j < |s| && s[j] == t[0];
      LeqTotal(s[0], s[0]);
      LeqAntisymmetric(s[0], t[0]);
      var s', t' := s[1..], t[1..];
      forall x ensures x in s' <==> x in t' {
        if x in s' { assert x in s && x != s[0]; }
        if x in t' { assert x in t && x != t[0]; }
      }
      AscendingUnique(s', t');
      assert s == [s[0]] + s' && t == [t[0]] + t';
    }
  }

  /** `sort_unstable`. */
  method Sort(s: seq<Name>) returns (r: seq<Name>)
    ensures Sorted(r) && multiset(r) == multiset(s)
  {
    r := [];
    var i := 0;
    while i < |s|
      invariant 0 <= i <= |s|
      invariant Sorted(r) && multiset(r) == multiset(s[..i])
    {
      r := InsertSorted(r, s[i]);
      assert s[..i + 1] == s[..i] + [s[i]];
      i := i + 1;
    }
    assert s[..i] == s;
  }

  method InsertSorted(r: seq<Name>, x: Name) returns (q: seq<Name>)
    requires Sorted(r)
    ensures Sorted(q) && multiset(q) == multiset(r) + multiset{x}
  {
    var k := 0;
    while k < |r| && Leq(r[k], x)
      invariant 0 <= k <= |r|
      invariant forall i :: 0 <= i < k ==> Leq(r[i], x)
    {
      k := k + 1;
    }
    if k < |r| {
      LeqTotal(r[k], x);
      forall j | k <= j < |r| ensures Leq(x, r[j]) {
        if j > k { LeqTransitive(x, r[k], r[j]); }
      }
    }
    q := r[..k] + [x] + r[k..];
    assert r == r[..k] + r[k..];
  }

  /** Sorting a permutation of distinct names gives the ascending enumeration of their set. */
  lemma SortedIsInOrder(r: seq<Name>, s: seq<Name>, all: set<Name>)
    requires Sorted(r) && multiset(r) == multiset(s) && Distinct(s)
    requires forall x :: x in s <==> x in all
    ensures r == InOrder(all)
  {
    forall x ensures x in r <==> x in all {
      assert x in r <==> x in multiset(r);
      assert x in s <==> x in multiset(s);
    }
    DistinctByMultiset(s, r);
    AscendingUnique(r, InOrder(all));
  }

  lemma DistinctByMultiset<T>(s: seq<T>, r: seq<T>)
    requires Distinct(s) && multiset(r) == multiset(s)
    ensures Distinct(r)
  {
    if !Distinct(r) {
      var i, j :| 0 <= i < j < |r| && r[i] == r[j];
      var x := r[i];
      assert r == r[..j] + [r[j]] + r[j + 1..];
      assert x in r[..j] by { assert r[..j][i] == x; }
      assert multiset(r)[x] >= 2;
      DistinctOnce(s, x);
    }
  }

  lemma {:induction false} DistinctOnce<T>(s: seq<T>, x: T)
    requires Distinct(s)
    ensures multiset(s)[x] <= 1
  {
    if s != [] {
      var n := |s| - 1;
      DistinctOnce(s[..n], x);
      assert s == s[..n] + [s[n]];
      assert multiset(s) == multiset(s[..n]) + multiset{s[n]};
      assert s[n] == x ==> x !in s[..n];
      assert x in s[..n] <==> x in multiset(s[..n]);
    }
  }
}
