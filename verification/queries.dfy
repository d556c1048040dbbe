/** The document-store `find` over an insertion-ordered collection: keep the
    documents a query predicate accepts, in the order they were stored. */
module Queries {

  function Filter<T(!new)>(s: seq<T>, p: T -> bool): (r: seq<T>)
    ensures |r| <= |s|
    ensures forall x :: x in r <==> x in s && p(x)
  {
    if |s| == 0 then []
    else
      assert s == [s[0]] + s[1..];
      (if p(s[0]) then [s[0]] else []) + Filter(s[1..], p)
  }

  /** The query keeps every matching document as often as it is stored and
      drops the others. */
  lemma {:induction false} FilterMultiset<T(!new)>(s: seq<T>, p: T -> bool)
    ensures forall x :: multiset(Filter(s, p))[x] == if p(x) then multiset(s)[x] else 0
  {
    if |s| > 0 {
      FilterMultiset(s[1..], p);
      assert s == [s[0]] + s[1..];
    }
  }

  /** A query matches nothing exactly when no stored document satisfies it. */
  lemma FilterNone<T(!new)>(s: seq<T>, p: T -> bool)
    ensures |Filter(s, p)| == 0 <==> forall j :: 0 <= j < |s| ==> !p(s[j])
  {
    var r := Filter(s, p);
    if |r| > 0 {
      assert r[0] in r;
    }
    forall j | 0 <= j < |s| && p(s[j])
      ensures |r| > 0
    {
      assert s[j] in r;
    }
  }

  /** Storing one more document adds it to the end of every query it matches. */
  lemma {:induction false} FilterSnoc<T(!new)>(s: seq<T>, x: T, p: T -> bool)
    ensures Filter(s + [x], p) == Filter(s, p) + (if p(x) then [x] else [])
  {
    if |s| == 0 {
      assert s + [x] == [x];
    } else {
      assert (s + [x])[1..] == s[1..] + [x];
      FilterSnoc(s[1..], x, p);
    }
  }

  /** Replacing document i by x changes the number of matches by what the
      two documents contribute. */
  lemma {:induction false} FilterUpdateCount<T(!new)>(s: seq<T>, i: nat, x: T, p: T -> bool)
    requires i < |s|
    ensures |Filter(s[i := x], p)| + (if p(s[i]) then 1 else 0)
         == |Filter(s, p)| + (if p(x) then 1 else 0)
  {
    if i == 0 {
      assert s[i := x][1..] == s[1..];
    } else {
      assert s[i := x][1..] == s[1..][i - 1 := x];
      FilterUpdateCount(s[1..], i - 1, x, p);
    }
  }

  /** Filtering with a stronger predicate keeps no more elements. */
  lemma {:induction false} FilterSubsequence<T(!new)>(s: seq<T>, p: T -> bool, q: T -> bool)
    requires forall o :: p(o) ==> q(o)
    ensures |Filter(s, p)| <= |Filter(s, q)|
  {
    if |s| > 0 {
      FilterSubsequence(s[1..], p, q);
    }
  }

  /** Filters that agree on every stored document select the same sequence. */
  lemma {:induction false} FilterAgree<T(!new)>(s: seq<T>, p: T -> bool, q: T -> bool)
    requires forall i :: 0 <= i < |s| ==> p(s[i]) == q(s[i])
    ensures Filter(s, p) == Filter(s, q)
  {
    if |s| > 0 {
      FilterAgree(s[1..], p, q);
    }
  }
}
