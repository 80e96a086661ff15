/** Order-preserving filtering of sequences, as `Array.prototype.filter` does it. */
module Sequences {

  /** The elements of `s` that satisfy `p`, in order. */
  function Filter<T>(s: seq<T>, p: T -> bool): (r: seq<T>)
    ensures |r| <= |s|
  {
    if |s| == 0 then []
    else Filter(s[..|s| - 1], p) + (if p(s[|s| - 1]) then [s[|s| - 1]] else [])
  }

  /** Filtering one more element keeps it exactly when it satisfies `p`. */
  lemma FilterSnoc<T>(s: seq<T>, x: T, p: T -> bool)
    ensures Filter(s + [x], p) == Filter(s, p) + (if p(x) then [x] else [])
  {
    assert (s + [x])[..|s|] == s;
  }

  /** Filtering keeps exactly the elements that satisfy `p`. */
  lemma {:induction false} FilterMembers<T>(s: seq<T>, p: T -> bool, x: T)
    ensures x in Filter(s, p) <==> x in s && p(x)
  {
    if |s| > 0 {
      var prefix := s[..|s| - 1];
      FilterMembers(prefix, p, x);
      assert s == prefix + [s[|s| - 1]];
    }
  }

  /** The filter is empty exactly when no element satisfies `p`. */
  lemma FilterEmpty<T>(s: seq<T>, p: T -> bool)
    ensures |Filter(s, p)| > 0 <==> exists i | 0 <= i < |s| :: p(s[i])
  {
    var r := Filter(s, p);
    if |r| > 0 {
      FilterMembers(s, p, r[0]);
    }
    if exists i | 0 <= i < |s| :: p(s[i]) {
      var i :| 0 <= i < |s| && p(s[i]);
      FilterMembers(s, p, s[i]);
    }
  }

  /** Filtering what every element satisfies changes nothing. */
  lemma {:induction false} FilterAll<T>(s: seq<T>, p: T -> bool)
    requires forall i | 0 <= i < |s| :: p(s[i])
    ensures Filter(s, p) == s
  {
    if |s| > 0 {
      var prefix := s[..|s| - 1];
      FilterAll(prefix, p);
      FilterSnoc(prefix, s[|s| - 1], p);
      assert prefix + [s[|s| - 1]] == s;
    }
  }

  /** The elements satisfying `p` and those failing it together make up `s`. */
  lemma {:induction false} FilterPartition<T>(s: seq<T>, p: T -> bool, q: T -> bool)
    requires forall x :: q(x) == !p(x)
    ensures multiset(Filter(s, p)) + multiset(Filter(s, q)) == multiset(s)
  {
    if |s| > 0 {
      var prefix := s[..|s| - 1];
      var last := s[|s| - 1];
      FilterPartition(prefix, p, q);
      FilterSnoc(prefix, last, p);
      FilterSnoc(prefix, last, q);
      assert s == prefix + [last];
    }
  }

  /** Two filters in a row are one filter by the conjunction, so their order does not matter. */
  lemma {:induction false} FilterTwice<T>(s: seq<T>, p: T -> bool, q: T -> bool, both: T -> bool)
    requires forall x :: both(x) == (p(x) && q(x))
    ensures Filter(Filter(s, p), q) == Filter(s, both)
  {
    if |s| > 0 {
      var prefix := s[..|s| - 1];
      var last := s[|s| - 1];
      FilterTwice(prefix, p, q, both);
      assert s == prefix + [last];
      FilterSnoc(prefix, last, p);
      FilterSnoc(prefix, last, both);
      if p(last) {
        FilterSnoc(Filter(prefix, p), last, q);
      } else {
        assert Filter(s, p) == Filter(prefix, p);
      }
    }
  }
}
