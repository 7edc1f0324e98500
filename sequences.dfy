/** Order-preserving filtering and key uniqueness over sequences: the shape
    of a `DELETE ... WHERE` on a table held as a sequence of rows, and of a
    `UNIQUE` or primary-key column. */
module Sequences {

  /** The elements of `s` that satisfy `keep`, in their original order. */
  function Filter<T>(s: seq<T>, keep: T -> bool): (r: seq<T>)
    ensures |r| <= |s|
    ensures forall i :: 0 <= i < |r| ==> r[i] in s && keep(r[i])
    ensures forall i :: 0 <= i < |s| && keep(s[i]) ==> s[i] in r
    decreases |s|
  {
    if s == [] then []
    else if keep(s[0]) then [s[0]] + Filter(s[1..], keep)
    else Filter(s[1..], keep)
  }

  lemma FilterMember<T>(s: seq<T>, keep: T -> bool, x: T)
    ensures x in Filter(s, keep) <==> x in s && keep(x)
  {
    if x in s && keep(x) {
      var k :| 0 <= k < |s| && s[k] == x;
    }
  }

  lemma {:induction false} FilterAppend<T>(a: seq<T>, b: seq<T>, keep: T -> bool)
    ensures Filter(a + b, keep) == Filter(a, keep) + Filter(b, keep)
    decreases |a|
  {
    if a == [] {
      assert a + b == b;
    } else {
      assert (a + b)[0] == a[0];
      assert (a + b)[1..] == a[1..] + b;
      FilterAppend(a[1..], b, keep);
    }
  }

  lemma FilterSingle<T>(x: T, keep: T -> bool)
    ensures Filter([x], keep) == if keep(x) then [x] else []
  {
    assert [x][1..] == [];
  }

  /** Filtering twice is filtering once by the conjunction. */
  lemma {:induction false} FilterFilter<T>(s: seq<T>, p: T -> bool, q: T -> bool, both: T -> bool)
    requires forall x :: x in s ==> (both(x) <==> p(x) && q(x))
    ensures Filter(Filter(s, p), q) == Filter(s, both)
    decreases |s|
  {
    if s != [] {
      assert forall x :: x in s[1..] ==> x in s;
      FilterFilter(s[1..], p, q, both);
    }
  }

  /** A filter that every element passes changes nothing. */
  lemma {:induction false} FilterKeepsAll<T>(s: seq<T>, keep: T -> bool)
    requires forall x :: x in s ==> keep(x)
    ensures Filter(s, keep) == s
    decreases |s|
  {
    if s != [] {
      assert forall x :: x in s[1..] ==> x in s;
      FilterKeepsAll(s[1..], keep);
    }
  }

  /** No two elements of `s` share a key. */
  ghost predicate DistinctBy<T, K>(s: seq<T>, key: T -> K) {
    forall i, j :: 0 <= i < j < |s| ==> key(s[i]) != key(s[j])
  }

  /** Filtering keeps the keys distinct. */
  lemma {:induction false} FilterDistinct<T, K>(s: seq<T>, keep: T -> bool, key: T -> K)
    requires DistinctBy(s, key)
    ensures DistinctBy(Filter(s, keep), key)
    decreases |s|
  {
    if s != [] {
      var tail := s[1..];
      assert DistinctBy(tail, key) by {
        forall i, j | 0 <= i < j < |tail| ensures key(tail[i]) != key(tail[j]) {
          assert tail[i] == s[i + 1] && tail[j] == s[j + 1];
        }
      }
      FilterDistinct(tail, keep, key);
      var rest := Filter(tail, keep);
      if keep(s[0]) {
        forall y | y in rest ensures key(s[0]) != key(y) {
          var k :| 0 <= k < |tail| && tail[k] == y;
          assert s[k + 1] == y;
        }
        var r := [s[0]] + rest;
        forall i, j | 0 <= i < j < |r| ensures key(r[i]) != key(r[j]) {
          if i == 0 {
            assert r[j] == rest[j - 1] && r[j] in rest;
          } else {
            assert r[i] == rest[i - 1] && r[j] == rest[j - 1];
          }
        }
      }
    }
  }

  /** Appending an element whose key is new keeps the keys distinct. */
  lemma DistinctAppend<T, K>(s: seq<T>, e: T, key: T -> K)
    requires DistinctBy(s, key)
    requires forall x :: x in s ==> key(x) != key(e)
    ensures DistinctBy(s + [e], key)
  {
    var r := s + [e];
    forall i, j | 0 <= i < j < |r| ensures key(r[i]) != key(r[j]) {
      assert r[i] == s[i] && s[i] in s;
    }
  }

  /** The keys of `s` strictly increase along the sequence. */
  ghost predicate StrictlyIncreasing<T>(s: seq<T>, rank: T -> int) {
    forall i, j :: 0 <= i < j < |s| ==> rank(s[i]) < rank(s[j])
  }

  /** Filtering keeps the order of what it keeps. */
  lemma {:induction false} FilterIncreasing<T>(s: seq<T>, keep: T -> bool, rank: T -> int)
    requires StrictlyIncreasing(s, rank)
    ensures StrictlyIncreasing(Filter(s, keep), rank)
    decreases |s|
  {
    if s != [] {
      var tail := s[1..];
      TailIncreasing(s, rank);
      FilterIncreasing(tail, keep, rank);
      var rest := Filter(tail, keep);
      if keep(s[0]) {
        forall y | y in rest ensures rank(s[0]) < rank(y) {
          var k :| 0 <= k < |tail| && tail[k] == y;
          assert s[k + 1] == y;
        }
        ConsIncreasing(s[0], rest, rank);
      }
    }
  }

  lemma TailIncreasing<T>(s: seq<T>, rank: T -> int)
    requires s != [] && StrictlyIncreasing(s, rank)
    ensures StrictlyIncreasing(s[1..], rank)
  {
    var tail := s[1..];
    forall i, j | 0 <= i < j < |tail| ensures rank(tail[i]) < rank(tail[j]) {
      assert tail[i] == s[i + 1] && tail[j] == s[j + 1];
    }
  }

  lemma ConsIncreasing<T>(x: T, rest: seq<T>, rank: T -> int)
    requires StrictlyIncreasing(rest, rank)
    requires forall y :: y in rest ==> rank(x) < rank(y)
    ensures StrictlyIncreasing([x] + rest, rank)
  {
    var r := [x] + rest;
    forall i, j | 0 <= i < j < |r| ensures rank(r[i]) < rank(r[j]) {
      if i == 0 {
        assert r[j] == rest[j - 1] && r[j] in rest;
      } else {
        assert r[i] == rest[i - 1] && r[j] == rest[j - 1];
      }
    }
  }
}
