/** Option and Result, used where the program returns nil or an error. */
module Wrappers {
  datatype Option<+T> = None | Some(value: T)

  datatype Result<+T, +E> = Success(value: T) | Failure(error: E)
}

/** Selections over sequences: what a WHERE clause, a LIMIT and an OFFSET do to rows read in some order. */
module Selections {

  /** The elements of `xs` that satisfy `p`, in order. */
  function Filter<T(!new)>(xs: seq<T>, p: T -> bool): (ys: seq<T>)
    ensures |ys| <= |xs|
    ensures forall y :: y in ys <==> y in xs && p(y)
  {
    if xs == [] then []
    else
      var last := xs[|xs| - 1];
      var front := Filter(xs[..|xs| - 1], p);
      assert xs == xs[..|xs| - 1] + [last];
      if p(last) then front + [last] else front
  }

  ghost predicate Distinct<T>(xs: seq<T>) {
    forall i, j :: 0 <= i < j < |xs| ==> xs[i] != xs[j]
  }

  /** `order` lists every key of a table once: the order in which the database happens to scan it. */
  ghost predicate Enumerates<T(!new)>(order: seq<T>, keys: set<T>) {
    Distinct(order) && forall k :: k in order <==> k in keys
  }

  lemma FilterAppend<T(!new)>(xs: seq<T>, x: T, p: T -> bool)
    ensures Filter(xs + [x], p) == Filter(xs, p) + if p(x) then [x] else []
  {
    assert (xs + [x])[..|xs|] == xs;
  }

  lemma FilterDistinct<T(!new)>(xs: seq<T>, p: T -> bool)
    requires Distinct(xs)
    ensures Distinct(Filter(xs, p))
  {
    if xs != [] {
      var front := xs[..|xs| - 1];
      assert xs == front + [xs[|xs| - 1]];
      FilterDistinct(front, p);
    }
  }

  lemma FilterFilter<T(!new)>(xs: seq<T>, p: T -> bool, q: T -> bool, both: T -> bool)
    requires forall x :: both(x) <==> p(x) && q(x)
    ensures Filter(Filter(xs, p), q) == Filter(xs, both)
  {
    if xs != [] {
      var front, last := xs[..|xs| - 1], xs[|xs| - 1];
      FilterFilter(front, p, q, both);
      if p(last) {
        FilterAppend(Filter(front, p), last, q);
      }
    }
  }

  lemma FilterSame<T(!new)>(xs: seq<T>, p: T -> bool, q: T -> bool)
    requires forall x :: x in xs ==> (p(x) <==> q(x))
    ensures Filter(xs, p) == Filter(xs, q)
  {
    if xs != [] {
      var front := xs[..|xs| - 1];
      assert xs == front + [xs[|xs| - 1]];
      FilterSame(front, p, q);
    }
  }

  /** LIMIT limit OFFSET offset. */
  function Page<T>(xs: seq<T>, limit: nat, offset: nat): seq<T> {
    if offset >= |xs| then []
    else if offset + limit <= |xs| then xs[offset..offset + limit]
    else xs[offset..]
  }

  /** Distinct elements drawn from a sequence cannot outnumber it. */
  lemma DistinctBound<T(!new)>(xs: seq<T>, ys: seq<T>)
    requires Distinct(xs) && forall x :: x in xs ==> x in ys
    ensures |xs| <= |ys|
  {
    if xs != [] {
      var last := xs[|xs| - 1];
      var front := xs[..|xs| - 1];
      assert last in xs && last in ys;
      var k :| 0 <= k < |ys| && ys[k] == last;
      var rest := ys[..k] + ys[k + 1..];
      forall x | x in front
        ensures x in rest
      {
        var i :| 0 <= i < |front| && front[i] == x;
        assert xs[i] != xs[|xs| - 1];
        assert xs[i] in xs && x in ys;
        var j :| 0 <= j < |ys| && ys[j] == x;
        assert j != k;
        assert x == if j < k then rest[j] else rest[j - 1];
      }
      DistinctBound(front, rest);
    }
  }

  /** A finite set can be listed. */
  lemma Listing<T>(s: set<T>) returns (xs: seq<T>)
    ensures forall x :: x in xs <==> x in s
  {
    xs := [];
    if s != {} {
      var x :| x in s;
      var rest := Listing(s - {x});
      xs := rest + [x];
    }
  }

  // ---------------------------------------------------------------- primary-key order

  predicate Least(s: set<nat>, m: nat) {
    m in s && forall y :: y in s ==> m <= y
  }

  lemma {:induction false} LeastOf(s: set<nat>) returns (m: nat)
    requires s != {}
    ensures Least(s, m)
  {
    var x :| x in s;
    var rest := s - {x};
    m := x;
    if rest != {} {
      var other := LeastOf(rest);
      m := if x < other then x else other;
    }
    forall y | y in s
      ensures m <= y
    {
      assert y == x || y in rest;
    }
  }

  lemma HasLeast(s: set<nat>)
    requires s != {}
    ensures exists m :: Least(s, m)
  {
    var m := LeastOf(s);
  }

  ghost predicate Increasing(xs: seq<nat>) {
    forall i, j :: 0 <= i < j < |xs| ==> xs[i] < xs[j]
  }

  /** The keys of a table in ascending order: ORDER BY id. */
  function Ascending(s: set<nat>): (xs: seq<nat>)
    ensures Increasing(xs) && forall x :: x in xs <==> x in s
  {
    if s == {} then []
    else
      HasLeast(s);
      var least :| Least(s, least);
      var rest := Ascending(s - {least});
      assert forall i :: 0 <= i < |rest| ==> rest[i] in rest;
      [least] + rest
  }

  lemma FilterIncreasing(xs: seq<nat>, p: nat -> bool)
    requires Increasing(xs)
    ensures Increasing(Filter(xs, p))
  {
    if xs != [] {
      var front, last := xs[..|xs| - 1], xs[|xs| - 1];
      FilterIncreasing(front, p);
      var kept := Filter(front, p);
      forall i | 0 <= i < |kept|
        ensures kept[i] < last
      {
        assert kept[i] in kept && kept[i] in front;
      }
    }
  }
}
