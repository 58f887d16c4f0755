/** `Array.prototype.sort` with a comparator, which is stable. It is modelled
    by insertion sort with a "may come first" relation `le`: an element is
    inserted before the first element it may precede, so elements that
    compare equal keep their original order. */
module Sorting {
  import Lists
  import Strings

  /** `le` behaves as a comparator must: any two elements are comparable and
      the relation is transitive. */
  ghost predicate TotalPreorder<T(!new)>(le: (T, T) -> bool) {
    (forall a, b :: le(a, b) || le(b, a))
    && (forall a, b, c :: le(a, b) && le(b, c) ==> le(a, c))
  }

  /** `localeCompare` on names, taken as a plain lexicographic comparison,
      is a comparator. */
  lemma LexLeTotalPreorder()
    ensures TotalPreorder(Strings.LexLe)
  {
    forall a: string, b: string ensures Strings.LexLe(a, b) || Strings.LexLe(b, a) {
      Strings.LexLeTotal(a, b);
    }
    forall a: string, b: string, c: string | Strings.LexLe(a, b) && Strings.LexLe(b, c)
      ensures Strings.LexLe(a, c)
    {
      Strings.LexLeTrans(a, b, c);
    }
  }

  predicate SortedBy<T>(s: seq<T>, le: (T, T) -> bool) {
    forall i, j :: 0 <= i < j < |s| ==> le(s[i], s[j])
  }

  function Insert<T>(x: T, s: seq<T>, le: (T, T) -> bool): (r: seq<T>)
    ensures |r| == |s| + 1
    ensures multiset(r) == multiset{x} + multiset(s)
  {
    if |s| == 0 then [x]
    else if le(x, s[0]) then [x] + s
    else
      assert s == [s[0]] + s[1..];
      [s[0]] + Insert(x, s[1..], le)
  }

  function SortBy<T>(s: seq<T>, le: (T, T) -> bool): (r: seq<T>)
    ensures |r| == |s|
    ensures multiset(r) == multiset(s)
  {
    if |s| == 0 then []
    else
      assert s == [s[0]] + s[1..];
      Insert(s[0], SortBy(s[1..], le), le)
  }

  lemma {:induction false} InsertSorted<T(!new)>(x: T, s: seq<T>, le: (T, T) -> bool)
    requires TotalPreorder(le)
    requires SortedBy(s, le)
    ensures SortedBy(Insert(x, s, le), le)
  {
    if |s| > 0 && !le(x, s[0]) {
      InsertSorted(x, s[1..], le);
      var r := Insert(x, s[1..], le);
      assert le(s[0], x);
      forall k | 0 <= k < |r|
        ensures le(s[0], r[k])
      {
        assert r[k] in multiset(r);
        assert r[k] == x || r[k] in multiset(s[1..]);
        if r[k] != x {
          var m :| 0 <= m < |s[1..]| && s[1..][m] == r[k];
          assert s[m + 1] == r[k];
        }
      }
    }
  }

  /** Under a valid comparator the result is ordered. */
  lemma {:induction false} SortBySorted<T(!new)>(s: seq<T>, le: (T, T) -> bool)
    requires TotalPreorder(le)
    ensures SortedBy(SortBy(s, le), le)
  {
    if |s| > 0 {
      SortBySorted(s[1..], le);
      InsertSorted(s[0], SortBy(s[1..], le), le);
    }
  }

  /** The elements that compare equal to `k`. */
  function SameAs<T>(k: T, le: (T, T) -> bool): T -> bool {
    (y: T) => le(y, k) && le(k, y)
  }

  /** Inserting an element that is not kept by the filter adds nothing to
      what the filter keeps. */
  lemma {:induction false} InsertFilterOther<T>(x: T, s: seq<T>, le: (T, T) -> bool, p: T -> bool)
    requires !p(x)
    ensures Lists.Filter(Insert(x, s, le), p) == Lists.Filter(s, p)
  {
    if |s| > 0 {
      if le(x, s[0]) {
        assert ([x] + s)[1..] == s;
      } else {
        InsertFilterOther(x, s[1..], le, p);
        assert ([s[0]] + Insert(x, s[1..], le))[1..] == Insert(x, s[1..], le);
      }
    }
  }

  /** An element inserted among the elements equal to it goes before all of
      them. */
  lemma {:induction false} InsertFilterSame<T(!new)>(x: T, s: seq<T>, le: (T, T) -> bool, k: T)
    requires TotalPreorder(le)
    requires SameAs(k, le)(x)
    ensures Lists.Filter(Insert(x, s, le), SameAs(k, le)) == [x] + Lists.Filter(s, SameAs(k, le))
  {
    if |s| > 0 {
      if le(x, s[0]) {
        assert ([x] + s)[1..] == s;
      } else {
        assert !SameAs(k, le)(s[0]);
        InsertFilterSame(x, s[1..], le, k);
        assert ([s[0]] + Insert(x, s[1..], le))[1..] == Insert(x, s[1..], le);
      }
    }
  }

  /** The sort is stable: the elements equal to any `k` come out in their
      original order. */
  lemma {:induction false} SortByStable<T(!new)>(s: seq<T>, le: (T, T) -> bool, k: T)
    requires TotalPreorder(le)
    ensures Lists.Filter(SortBy(s, le), SameAs(k, le)) == Lists.Filter(s, SameAs(k, le))
  {
    if |s| > 0 {
      SortByStable(s[1..], le, k);
      if SameAs(k, le)(s[0]) {
        InsertFilterSame(s[0], SortBy(s[1..], le), le, k);
      } else {
        InsertFilterOther(s[0], SortBy(s[1..], le), le, SameAs(k, le));
      }
    }
  }

  /** Sorting an already ordered sequence leaves it as it is. */
  lemma {:induction false} SortBySortedNoop<T>(s: seq<T>, le: (T, T) -> bool)
    requires SortedBy(s, le)
    ensures SortBy(s, le) == s
  {
    if |s| > 0 {
      assert SortedBy(s[1..], le);
      SortBySortedNoop(s[1..], le);
      if |s| > 1 {
        assert le(s[0], s[1]);
      }
    }
  }

  /** Filtering an ordered sequence keeps it ordered. */
  lemma {:induction false} FilterSorted<T>(s: seq<T>, p: T -> bool, le: (T, T) -> bool)
    requires SortedBy(s, le)
    ensures SortedBy(Lists.Filter(s, p), le)
  {
    if |s| > 0 {
      assert SortedBy(s[1..], le);
      FilterSorted(s[1..], p, le);
      var rest := Lists.Filter(s[1..], p);
      forall k | 0 <= k < |rest|
        ensures le(s[0], rest[k])
      {
        var m :| 0 <= m < |s[1..]| && s[1..][m] == rest[k];
        assert s[m + 1] == rest[k];
      }
    }
  }
}
