/** The array methods the controllers chain: `filter`, `map` followed by
    `filter(Boolean)` (an element mapped to `null` is dropped), and `some`. */
module Lists {
  import opened Common

  /** `s.filter(p)`: the elements satisfying `p`, in their order. */
  function Filter<T>(s: seq<T>, p: T -> bool): (r: seq<T>)
    ensures |r| <= |s|
    ensures forall k :: 0 <= k < |r| ==> p(r[k]) && r[k] in s
    ensures forall x :: x in s && p(x) ==> x in r
  {
    if |s| == 0 then []
    else if p(s[0]) then [s[0]] + Filter(s[1..], p)
    else Filter(s[1..], p)
  }

  /** Filtering drops something exactly when some element fails the test. */
  lemma {:induction false} FilterKeepsAll<T>(s: seq<T>, p: T -> bool)
    ensures |Filter(s, p)| == |s| <==> forall k :: 0 <= k < |s| ==> p(s[k])
  {
    if |s| > 0 {
      FilterKeepsAll(s[1..], p);
      if p(s[0]) {
        assert forall k :: 1 <= k < |s| ==> s[k] == s[1..][k - 1];
      } else {
        assert |Filter(s, p)| <= |s| - 1;
      }
    }
  }

  /** Keeping nothing returns the empty list. */
  lemma {:induction false} FilterNone<T>(s: seq<T>, p: T -> bool)
    requires forall k :: 0 <= k < |s| ==> !p(s[k])
    ensures Filter(s, p) == []
  {
    if |s| > 0 {
      FilterNone(s[1..], p);
    }
  }

  /** Keeping everything returns the list itself. */
  lemma {:induction false} FilterAll<T>(s: seq<T>, p: T -> bool)
    requires forall k :: 0 <= k < |s| ==> p(s[k])
    ensures Filter(s, p) == s
  {
    if |s| > 0 {
      assert forall k :: 0 <= k < |s[1..]| ==> p(s[1..][k]);
      FilterAll(s[1..], p);
    }
  }

  /** Filtering distributes over concatenation. */
  lemma {:induction false} FilterConcat<T>(a: seq<T>, b: seq<T>, p: T -> bool)
    ensures Filter(a + b, p) == Filter(a, p) + Filter(b, p)
  {
    if |a| > 0 {
      assert (a + b)[1..] == a[1..] + b;
      FilterConcat(a[1..], b, p);
    } else {
      assert a + b == b;
    }
  }

  /** Filtering keeps every occurrence of an element that passes the test
      and none of one that fails it. */
  lemma {:induction false} FilterCount<T>(s: seq<T>, p: T -> bool, x: T)
    ensures multiset(Filter(s, p))[x] == if p(x) then multiset(s)[x] else 0
  {
    if |s| > 0 {
      assert s == [s[0]] + s[1..];
      FilterCount(s[1..], p, x);
    }
  }

  /** Filtering two arrangements of the same elements keeps the same
      elements. */
  lemma FilterPermutation<T>(a: seq<T>, b: seq<T>, p: T -> bool)
    requires multiset(a) == multiset(b)
    ensures multiset(Filter(a, p)) == multiset(Filter(b, p))
  {
    forall x ensures multiset(Filter(a, p))[x] == multiset(Filter(b, p))[x] {
      FilterCount(a, p, x);
      FilterCount(b, p, x);
    }
  }

  /** No element occurs twice, as in the keys of a `Map` or the names of a
      `Set`. */
  predicate NoRepeats<T(==)>(s: seq<T>) {
    forall i, j :: 0 <= i < j < |s| ==> s[i] != s[j]
  }

  /** Occurring at most once, counted by the multiset of the elements. */
  lemma {:induction false} NoRepeatsCounts<T>(s: seq<T>)
    ensures NoRepeats(s) <==> forall x :: multiset(s)[x] <= 1
  {
    if |s| > 0 {
      var rest := s[1..];
      assert s == [s[0]] + rest;
      NoRepeatsCounts(rest);
      assert multiset(s) == multiset{s[0]} + multiset(rest);
      if NoRepeats(s) {
        assert NoRepeats(rest) by {
          forall i, j | 0 <= i < j < |rest| ensures rest[i] != rest[j] {
            assert rest[i] == s[i + 1] && rest[j] == s[j + 1];
          }
        }
        assert s[0] !in rest by {
          forall k | 0 <= k < |rest| ensures rest[k] != s[0] {
            assert rest[k] == s[k + 1];
          }
        }
      }
      if forall x :: multiset(s)[x] <= 1 {
        assert forall x :: multiset(rest)[x] <= multiset(s)[x];
        assert multiset(rest)[s[0]] == 0;
        forall i, j | 0 <= i < j < |s| ensures s[i] != s[j] {
          assert s[j] == rest[j - 1];
          if i > 0 {
            assert s[i] == rest[i - 1];
          }
        }
      }
    }
  }

  /** Reordering keeps the elements distinct. */
  lemma NoRepeatsPermutation<T>(a: seq<T>, b: seq<T>)
    requires multiset(a) == multiset(b) && NoRepeats(a)
    ensures NoRepeats(b)
  {
    NoRepeatsCounts(a);
    NoRepeatsCounts(b);
  }

  /** Filtering keeps the elements distinct. */
  lemma {:induction false} FilterNoRepeats<T>(s: seq<T>, p: T -> bool)
    requires NoRepeats(s)
    ensures NoRepeats(Filter(s, p))
  {
    if |s| > 0 {
      var rest := s[1..];
      assert NoRepeats(rest) by {
        forall i, j | 0 <= i < j < |rest| ensures rest[i] != rest[j] {
          assert rest[i] == s[i + 1] && rest[j] == s[j + 1];
        }
      }
      FilterNoRepeats(rest, p);
      if p(s[0]) {
        var r := Filter(s, p);
        var fr := Filter(rest, p);
        assert r == [s[0]] + fr;
        assert s[0] !in rest by {
          forall k | 0 <= k < |rest| ensures rest[k] != s[0] {
            assert rest[k] == s[k + 1];
          }
        }
        forall i, j | 0 <= i < j < |r| ensures r[i] != r[j] {
          assert r[j] == fr[j - 1] && fr[j - 1] in rest;
          if i > 0 {
            assert r[i] == fr[i - 1];
          }
        }
      }
    }
  }

  /** `s.map((x, i) => f(i, x)).filter(Boolean)` from position `i` on, where
      `f` answers None for the elements it maps to `null`. */
  function FilterMapFrom<A, B>(s: seq<A>, f: (nat, A) -> Option<B>, i: nat): (r: seq<B>)
    requires i <= |s|
    ensures |r| <= |s| - i
    decreases |s| - i
  {
    if i == |s| then []
    else
      var rest := FilterMapFrom(s, f, i + 1);
      match f(i, s[i])
      case None => rest
      case Some(b) => [b] + rest
  }

  function FilterMap<A, B>(s: seq<A>, f: (nat, A) -> Option<B>): (r: seq<B>)
    ensures |r| <= |s|
  {
    FilterMapFrom(s, f, 0)
  }

  /** Every value in the result is what `f` made of some element. */
  lemma {:induction false} FilterMapSources<A, B>(s: seq<A>, f: (nat, A) -> Option<B>, i: nat)
    requires i <= |s|
    ensures forall k :: 0 <= k < |FilterMapFrom(s, f, i)| ==> exists j :: i <= j < |s| && f(j, s[j]) == Some(FilterMapFrom(s, f, i)[k])
    decreases |s| - i
  {
    if i < |s| {
      FilterMapSources(s, f, i + 1);
      var r := FilterMapFrom(s, f, i);
      var rest := FilterMapFrom(s, f, i + 1);
      forall k | 0 <= k < |r| ensures exists j :: i <= j < |s| && f(j, s[j]) == Some(r[k]) {
        match f(i, s[i])
        case None =>
          assert r[k] == rest[k];
        case Some(b) =>
          if k == 0 {
            assert f(i, s[i]) == Some(r[k]);
          } else {
            assert r[k] == rest[k - 1];
          }
      }
    } else {
      assert FilterMapFrom(s, f, i) == [];
    }
  }

  /** An element mapped to a value is kept: the value is in the result. */
  lemma {:induction false} FilterMapKeeps<A, B>(s: seq<A>, f: (nat, A) -> Option<B>, i: nat, j: nat)
    requires i <= j < |s| && f(j, s[j]).Some?
    ensures f(j, s[j]).value in FilterMapFrom(s, f, i)
    decreases j - i
  {
    if i < j {
      FilterMapKeeps(s, f, i + 1, j);
    }
  }

  /** When no element is dropped, the result has one value per element, in
      order. */
  lemma {:induction false} FilterMapTotal<A, B>(s: seq<A>, f: (nat, A) -> Option<B>, i: nat)
    requires i <= |s|
    requires forall j :: i <= j < |s| ==> f(j, s[j]).Some?
    ensures |FilterMapFrom(s, f, i)| == |s| - i
    ensures forall k :: 0 <= k < |s| - i ==> FilterMapFrom(s, f, i)[k] == f(i + k, s[i + k]).value
    decreases |s| - i
  {
    if i < |s| {
      FilterMapTotal(s, f, i + 1);
    }
  }

  /** One position of `FilterMapTotal`, with the function application left
      as it is. */
  lemma FilterMapTotalAt<A, B>(s: seq<A>, f: (nat, A) -> Option<B>, k: nat)
    requires k < |s|
    requires forall j :: 0 <= j < |s| ==> f(j, s[j]).Some?
    ensures f(k, s[k]).Some? && k < |FilterMap(s, f)| && FilterMap(s, f)[k] == f(k, s[k]).value
  {
    FilterMapTotal(s, f, 0);
  }

  /** When every element is dropped, nothing is left. */
  lemma {:induction false} FilterMapNone<A, B>(s: seq<A>, f: (nat, A) -> Option<B>, i: nat)
    requires i <= |s|
    requires forall j :: i <= j < |s| ==> f(j, s[j]).None?
    ensures FilterMapFrom(s, f, i) == []
    decreases |s| - i
  {
    if i < |s| {
      FilterMapNone(s, f, i + 1);
    }
  }

  /** `s.flatMap(f)`. */
  function FlatMap<A, B>(s: seq<A>, f: A -> seq<B>): seq<B> {
    if |s| == 0 then [] else f(s[0]) + FlatMap(s[1..], f)
  }

  /** Flat-mapping a joined list joins the results. */
  lemma {:induction false} FlatMapConcat<A, B>(a: seq<A>, b: seq<A>, f: A -> seq<B>)
    ensures FlatMap(a + b, f) == FlatMap(a, f) + FlatMap(b, f)
  {
    if |a| > 0 {
      FlatMapConcat(a[1..], b, f);
      assert (a + b)[1..] == a[1..] + b;
    } else {
      assert a + b == b;
    }
  }

  /** Every result comes from one element. */
  lemma {:induction false} FlatMapMembers<A, B>(s: seq<A>, f: A -> seq<B>, y: B)
    ensures y in FlatMap(s, f) <==> exists i :: 0 <= i < |s| && y in f(s[i])
  {
    if |s| > 0 {
      FlatMapMembers(s[1..], f, y);
      if y in FlatMap(s[1..], f) {
        var i :| 0 <= i < |s[1..]| && y in f(s[1..][i]);
        assert y in f(s[i + 1]);
      }
      if exists i :: 0 <= i < |s| && y in f(s[i]) {
        var i :| 0 <= i < |s| && y in f(s[i]);
        if i > 0 {
          assert s[1..][i - 1] == s[i];
        }
      }
    }
  }
}
