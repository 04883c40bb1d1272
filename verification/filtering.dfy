/** Row selection by a boolean mask (`df[mask]`): the rows that satisfy a
    predicate, in their original order, duplicates kept. */
module Filtering {

  /** The rows of `s` that satisfy `p`, in order. */
  function Filter<T>(s: seq<T>, p: T -> bool): (r: seq<T>)
    ensures |r| <= |s|
    ensures forall x :: x in r ==> x in s && p(x)
    decreases |s|
  {
    if |s| == 0 then []
    else Filter(s[..|s| - 1], p) + (if p(s[|s| - 1]) then [s[|s| - 1]] else [])
  }

  /** `a` is obtained from `b` by deleting elements (order kept). */
  predicate SubSeq<T(==)>(a: seq<T>, b: seq<T>)
    decreases |b|
  {
    if |a| == 0 then true
    else if |b| == 0 then false
    else (a[|a| - 1] == b[|b| - 1] && SubSeq(a[..|a| - 1], b[..|b| - 1]))
         || SubSeq(a, b[..|b| - 1])
  }

  /** Filtering distributes over appending one row. */
  lemma FilterSnoc<T>(s: seq<T>, x: T, p: T -> bool)
    ensures Filter(s + [x], p) == Filter(s, p) + (if p(x) then [x] else [])
  {
    assert (s + [x])[..|s|] == s;
  }

  /** Filtering distributes over concatenation. */
  lemma {:induction false} FilterConcat<T>(a: seq<T>, b: seq<T>, p: T -> bool)
    ensures Filter(a + b, p) == Filter(a, p) + Filter(b, p)
    decreases |b|
  {
    if |b| == 0 {
      assert a + b == a;
    } else {
      var init, last := b[..|b| - 1], b[|b| - 1];
      var ab := a + b;
      var tail := if p(last) then [last] else [];
      assert ab[..|ab| - 1] == a + init;
      assert ab[|ab| - 1] == last;
      assert Filter(ab, p) == Filter(a + init, p) + tail;
      assert Filter(b, p) == Filter(init, p) + tail;
      FilterConcat(a, init, p);
      assert Filter(a + init, p) + tail == Filter(a, p) + (Filter(init, p) + tail);
    }
  }

  /** Each value keeps all its copies when it satisfies the predicate and
      loses all of them otherwise. */
  lemma {:induction false} FilterMultiset<T>(s: seq<T>, p: T -> bool)
    ensures forall x :: multiset(Filter(s, p))[x] == if p(x) then multiset(s)[x] else 0
    decreases |s|
  {
    if |s| > 0 {
      var init, last := s[..|s| - 1], s[|s| - 1];
      FilterMultiset(init, p);
      assert s == init + [last];
      FilterSnoc(init, last, p);
    }
  }

  /** Filtering with a weaker predicate keeps a superset of the rows, in the
      same order. */
  lemma {:induction false} FilterMono<T>(s: seq<T>, p: T -> bool, q: T -> bool)
    requires forall x :: x in s && p(x) ==> q(x)
    ensures SubSeq(Filter(s, p), Filter(s, q))
    decreases |s|
  {
    if |s| > 0 {
      var init, last := s[..|s| - 1], s[|s| - 1];
      assert s == init + [last];
      assert forall x :: x in init ==> x in s;
      FilterMono(init, p, q);
      FilterSnoc(init, last, p);
      FilterSnoc(init, last, q);
      var a, b := Filter(init, p), Filter(init, q);
      if p(last) {
        SubSeqSnocBoth(a, b, last);
      } else if q(last) {
        SubSeqSnocRight(a, b, last);
        assert Filter(s, p) == a + [] == a;
      } else {
        assert Filter(s, p) == a && Filter(s, q) == b;
      }
    }
  }

  /** Appending the same element to both sides keeps the relation. */
  lemma SubSeqSnocBoth<T>(a: seq<T>, b: seq<T>, x: T)
    requires SubSeq(a, b)
    ensures SubSeq(a + [x], b + [x])
  {
    assert (a + [x])[..|a|] == a;
    assert (b + [x])[..|b|] == b;
  }

  /** Appending to the larger side only keeps the relation. */
  lemma SubSeqSnocRight<T>(a: seq<T>, b: seq<T>, x: T)
    requires SubSeq(a, b)
    ensures SubSeq(a, b + [x])
  {
    assert (b + [x])[..|b|] == b;
  }

  /** Characterisation of a filter by a reference predicate `q` that agrees
      with the mask on every row: the result holds exactly the rows meeting
      `q`, with all their copies, in table order. */
  lemma FilterSelects<T>(s: seq<T>, p: T -> bool, q: T -> bool)
    requires forall x :: x in s ==> (p(x) <==> q(x))
    ensures forall x :: x in Filter(s, p) <==> x in s && q(x)
    ensures forall x :: multiset(Filter(s, p))[x] == if q(x) then multiset(s)[x] else 0
    ensures SubSeq(Filter(s, p), s)
  {
    FilterMultiset(s, p);
    FilterSubSeq(s, p);
    forall x
      ensures multiset(Filter(s, p))[x] == if q(x) then multiset(s)[x] else 0
    {
      if x !in s {
        assert multiset(s)[x] == 0;
      }
    }
  }

  /** A filter's result is a subsequence of its input: it creates no rows
      and does not reorder them. */
  lemma FilterSubSeq<T>(s: seq<T>, p: T -> bool)
    ensures SubSeq(Filter(s, p), s)
  {
    FilterMono(s, p, _ => true);
    FilterAll(s, _ => true);
  }

  /** A predicate that holds of every row keeps the whole table. */
  lemma {:induction false} FilterAll<T>(s: seq<T>, p: T -> bool)
    requires forall x :: x in s ==> p(x)
    ensures Filter(s, p) == s
    decreases |s|
  {
    if |s| > 0 {
      var init, last := s[..|s| - 1], s[|s| - 1];
      assert s == init + [last];
      assert forall x :: x in init ==> x in s;
      FilterAll(init, p);
      FilterSnoc(init, last, p);
    }
  }

  /** A predicate that holds of no row gives the empty table. */
  lemma {:induction false} FilterNone<T>(s: seq<T>, p: T -> bool)
    requires forall x :: x in s ==> !p(x)
    ensures Filter(s, p) == []
    decreases |s|
  {
    if |s| > 0 {
      var init, last := s[..|s| - 1], s[|s| - 1];
      assert s == init + [last];
      assert forall x :: x in init ==> x in s;
      FilterNone(init, p);
      FilterSnoc(init, last, p);
    }
  }

  /** Two predicates that agree on every row select the same rows. */
  lemma {:induction false} FilterExt<T>(s: seq<T>, p: T -> bool, q: T -> bool)
    requires forall x :: x in s ==> p(x) == q(x)
    ensures Filter(s, p) == Filter(s, q)
    decreases |s|
  {
    if |s| > 0 {
      var init, last := s[..|s| - 1], s[|s| - 1];
      assert s == init + [last];
      assert forall x :: x in init ==> x in s;
      FilterExt(init, p, q);
      FilterSnoc(init, last, p);
      FilterSnoc(init, last, q);
    }
  }

  /** A subsequence holds only values of the larger sequence, never more
      copies of any of them. */
  lemma {:induction false} SubSeqMultiset<T>(a: seq<T>, b: seq<T>)
    requires SubSeq(a, b)
    ensures multiset(a) <= multiset(b)
    ensures forall x :: x in a ==> x in b
    decreases |b|
  {
    if |a| > 0 {
      var b0 := b[..|b| - 1];
      assert b == b0 + [b[|b| - 1]];
      if a[|a| - 1] == b[|b| - 1] && SubSeq(a[..|a| - 1], b0) {
        SubSeqMultiset(a[..|a| - 1], b0);
        assert a == a[..|a| - 1] + [a[|a| - 1]];
      } else {
        SubSeqMultiset(a, b0);
      }
    }
  }
}
