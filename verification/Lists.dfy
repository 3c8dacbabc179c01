/** Facts about sequences used as lists: no duplicates, removing, inserting. */
module Lists {

  predicate NoDup<T(==)>(s: seq<T>) {
    forall i, j :: 0 <= i < j < |s| ==> s[i] != s[j]
  }

  function Without<T(==)>(q: seq<T>, x: T): seq<T> {
    if q == [] then [] else if q[0] == x then Without(q[1..], x) else [q[0]] + Without(q[1..], x)
  }

  lemma {:induction false} WithoutMembers<T>(q: seq<T>, x: T)
    ensures forall y :: y in Without(q, x) <==> y in q && y != x
  {
    if q != [] {
      WithoutMembers(q[1..], x);
      assert q == [q[0]] + q[1..];
    }
  }

  lemma {:induction false} NothingWithout<T>(q: seq<T>, x: T)
    requires x !in q
    ensures Without(q, x) == q
  {
    if q != [] { NothingWithout(q[1..], x); }
  }

  lemma {:induction false} WithoutNoDup<T>(q: seq<T>, x: T)
    requires NoDup(q)
    ensures NoDup(Without(q, x))
  {
    if q != [] {
      var r := Without(q[1..], x);
      WithoutNoDup(q[1..], x);
      WithoutMembers(q[1..], x);
      forall j | 0 <= j < |r| ensures r[j] != q[0] {
        assert r[j] in r;
      }
    }
  }

  /** q with x put at place p. */
  function PutAt<T>(q: seq<T>, p: nat, x: T): seq<T>
    requires p <= |q|
  {
    q[..p] + [x] + q[p..]
  }

  lemma PutPoints<T>(q: seq<T>, p: nat, x: T)
    requires p <= |q|
    ensures var r := PutAt(q, p, x);
            && |r| == |q| + 1 && r[p] == x
            && (forall j :: 0 <= j < p ==> r[j] == q[j])
            && (forall j :: p < j < |r| ==> r[j] == q[j - 1])
  {
  }

  lemma PutMembers<T>(q: seq<T>, p: nat, x: T)
    requires p <= |q|
    ensures forall y :: y in PutAt(q, p, x) <==> y in q || y == x
  {
    assert q == q[..p] + q[p..];
  }

  lemma PutNoDup<T>(q: seq<T>, p: nat, x: T)
    requires p <= |q| && NoDup(q) && x !in q
    ensures NoDup(PutAt(q, p, x))
  {
    PutPoints(q, p, x);
  }

  /** A list without duplicates is not longer than the set of its elements. */
  lemma {:induction false} NoDupBound<T>(s: seq<T>, all: set<T>)
    requires NoDup(s) && forall x :: x in s ==> x in all
    ensures |s| <= |all|
    decreases |s|
  {
    if s != [] {
      var s' := s[..|s| - 1];
      assert s == s' + [s[|s| - 1]];
      NoDupBound(s', all - {s[|s| - 1]});
    }
  }
}
