/** Deterministic listing of a set: the `sorted(set)` idiom the analysis code relies on.

    Identifiers are opaque; all that is used of them is equality and a total order.
 */
module Ordering {

  ghost predicate TotalOrder<T(!new)>(leq: (T, T) -> bool) {
    && (forall a :: leq(a, a))
    && (forall a, b :: leq(a, b) || leq(b, a))
    && (forall a, b :: leq(a, b) && leq(b, a) ==> a == b)
    && (forall a, b, c :: leq(a, b) && leq(b, c) ==> leq(a, c))
  }

  /** Ascending, without repetition. */
  ghost predicate Ascending<T>(leq: (T, T) -> bool, s: seq<T>) {
    forall i, j :: 0 <= i < j < |s| ==> leq(s[i], s[j]) && s[i] != s[j]
  }

  ghost predicate Lists<T(!new)>(r: seq<T>, s: set<T>) {
    forall x :: x in r <==> x in s
  }

  method Least<T(==, !new)>(leq: (T, T) -> bool, s: set<T>) returns (m: T)
    requires TotalOrder(leq) && s != {}
    ensures m in s && forall x :: x in s ==> leq(m, x)
  {
    m :| m in s;
    var todo := s - {m};
    while todo != {}
      invariant m in s && todo <= s
      invariant forall x :: x in s - todo ==> leq(m, x)
      decreases todo
    {
      var x :| x in todo;
      if !leq(m, x) { m := x; }
      todo := todo - {x};
    }
  }

  method SortedElements<T(==, !new)>(leq: (T, T) -> bool, s: set<T>) returns (r: seq<T>)
    requires TotalOrder(leq)
    ensures Ascending(leq, r) && Lists(r, s) && |r| == |s|
  {
    r := [];
    var rest := s;
    while rest != {}
      invariant rest <= s && |r| + |rest| == |s|
      invariant Ascending(leq, r)
      invariant forall x :: x in r <==> x in s - rest
      invariant forall x, y :: x in r && y in rest ==> leq(x, y)
      decreases rest
    {
      var m := Least(leq, rest);
      r, rest := r + [m], rest - {m};
    }
  }

  lemma SameEmptiness<T(!new)>(r: seq<T>, q: seq<T>)
    requires forall x :: x in r <==> x in q
    ensures r == [] <==> q == []
  {
    assert r != [] ==> r[0] in r;
    assert q != [] ==> q[0] in q;
  }

  /** The listing is determined by the set: no other order could have been returned. */
  lemma {:induction false} ListingUnique<T(!new)>(leq: (T, T) -> bool, r: seq<T>, q: seq<T>)
    requires TotalOrder(leq) && Ascending(leq, r) && Ascending(leq, q)
    requires forall x :: x in r <==> x in q
    ensures r == q
  {
    SameEmptiness(r, q);
    if r != [] {
      assert r[0] in q;
      assert q[0] in r;
      assert r[0] == q[0];
      forall x ensures x in r[1..] <==> x in q[1..] {
        if x in r[1..] {
          assert x in r && x != r[0];
        }
        if x in q[1..] {
          assert x in q && x != q[0];
        }
      }
      ListingUnique(leq, r[1..], q[1..]);
      assert r == [r[0]] + r[1..] && q == [q[0]] + q[1..];
    }
  }
}
