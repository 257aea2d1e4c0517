/** Sequence helpers that JavaScript's array methods stand for in the model:
    `Array.prototype.filter`, dropping the `null` slots of a `Promise.all`
    result, and the de-duplication done by `[...new Set(xs)]`. */
module Seqs {
  import opened Wrappers

  /** `s.filter(p)`: the elements satisfying `p`, in their original order. */
  function Filter<T>(s: seq<T>, p: T -> bool): (r: seq<T>)
    ensures |r| <= |s|
    ensures forall i :: 0 <= i < |r| ==> p(r[i]) && r[i] in s
    ensures multiset(r) <= multiset(s)
  {
    if |s| == 0 then []
    else
      assert s == [s[0]] + s[1..];
      (if p(s[0]) then [s[0]] else []) + Filter(s[1..], p)
  }

  lemma {:induction false} FilterMembership<T>(s: seq<T>, p: T -> bool, x: T)
    ensures x in Filter(s, p) <==> x in s && p(x)
  {
    if |s| > 0 {
      FilterMembership(s[1..], p, x);
      assert s == [s[0]] + s[1..];
    }
  }

  /** The elements of a filter are exactly the accepted elements of the input. */
  lemma FilterExactly<T>(s: seq<T>, p: T -> bool)
    ensures forall x :: x in Filter(s, p) <==> x in s && p(x)
  {
    forall x ensures x in Filter(s, p) <==> x in s && p(x) {
      FilterMembership(s, p, x);
    }
  }

  /** A filter keeps every occurrence of an element it accepts and none of one it rejects. */
  lemma {:induction false} FilterMultiplicity<T>(s: seq<T>, p: T -> bool, x: T)
    ensures multiset(Filter(s, p))[x] == if p(x) then multiset(s)[x] else 0
  {
    if |s| > 0 {
      FilterMultiplicity(s[1..], p, x);
      assert s == [s[0]] + s[1..];
    }
  }

  lemma {:induction false} FilterKeepsAll<T>(s: seq<T>, p: T -> bool)
    requires forall i :: 0 <= i < |s| ==> p(s[i])
    ensures Filter(s, p) == s
  {
    if |s| > 0 {
      FilterKeepsAll(s[1..], p);
    }
  }

  lemma {:induction false} FilterConcat<T>(a: seq<T>, b: seq<T>, p: T -> bool)
    ensures Filter(a + b, p) == Filter(a, p) + Filter(b, p)
  {
    if |a| == 0 {
      assert a + b == b;
    } else {
      assert (a + b)[1..] == a[1..] + b;
      FilterConcat(a[1..], b, p);
    }
  }

  /** Two predicates that agree on the elements of `s` filter it alike. */
  lemma {:induction false} FilterSamePredicate<T>(s: seq<T>, p: T -> bool, q: T -> bool)
    requires forall i :: 0 <= i < |s| ==> p(s[i]) == q(s[i])
    ensures Filter(s, p) == Filter(s, q)
  {
    if |s| > 0 {
      FilterSamePredicate(s[1..], p, q);
    }
  }

  /** Filtering twice is filtering once by the conjunction. */
  lemma {:induction false} FilterFilter<T>(s: seq<T>, p: T -> bool, q: T -> bool, pq: T -> bool)
    requires forall i :: 0 <= i < |s| ==> pq(s[i]) == (p(s[i]) && q(s[i]))
    ensures Filter(Filter(s, p), q) == Filter(s, pq)
  {
    if |s| > 0 {
      FilterFilter(s[1..], p, q, pq);
      var rest := Filter(s[1..], p);
      if p(s[0]) {
        assert Filter(s, p) == [s[0]] + rest;
        FilterConcat([s[0]], rest, q);
        assert Filter([s[0]], q) == (if q(s[0]) then [s[0]] else []) + Filter([], q);
      } else {
        assert Filter(s, p) == [] + rest == rest;
        assert !pq(s[0]);
        assert Filter(s, pq) == [] + Filter(s[1..], pq) == Filter(s[1..], pq);
      }
    }
  }

  /** Every element of `s` except the occurrences of `x`, in order: `s.filter(y => y !== x)`. */
  function RemoveAll<T(==)>(s: seq<T>, x: T): (r: seq<T>)
    ensures |r| <= |s|
    ensures x !in r
    ensures forall i :: 0 <= i < |r| ==> r[i] in s
    ensures forall y :: y in s && y != x ==> y in r
    ensures forall y :: y in s && y != x ==> multiset(r)[y] == multiset(s)[y]
  {
    if |s| == 0 then []
    else
      assert s == [s[0]] + s[1..];
      (if s[0] == x then [] else [s[0]]) + RemoveAll(s[1..], x)
  }

  lemma {:induction false} RemoveAllAbsent<T>(s: seq<T>, x: T)
    requires x !in s
    ensures RemoveAll(s, x) == s
  {
    if |s| > 0 {
      RemoveAllAbsent(s[1..], x);
    }
  }

  lemma {:induction false} RemoveAllConcat<T>(a: seq<T>, b: seq<T>, x: T)
    ensures RemoveAll(a + b, x) == RemoveAll(a, x) + RemoveAll(b, x)
  {
    if |a| == 0 {
      assert a + b == b;
    } else {
      assert (a + b)[0] == a[0];
      assert (a + b)[1..] == a[1..] + b;
      RemoveAllConcat(a[1..], b, x);
      var head := if a[0] == x then [] else [a[0]];
      calc {
        RemoveAll(a + b, x);
        head + RemoveAll(a[1..] + b, x);
        head + (RemoveAll(a[1..], x) + RemoveAll(b, x));
        (head + RemoveAll(a[1..], x)) + RemoveAll(b, x);
      }
    }
  }

  /** Removing an element that was just appended to a sequence without it gives the sequence back. */
  lemma RemoveAllSnocAbsent<T>(s: seq<T>, x: T)
    requires x !in s
    ensures RemoveAll(s + [x], x) == s
  {
    RemoveAllConcat(s, [x], x);
    RemoveAllAbsent(s, x);
  }

  /** No element occurs twice. */
  predicate NoDup<T(==)>(s: seq<T>) {
    forall i, j :: 0 <= i < j < |s| ==> s[i] != s[j]
  }

  lemma {:induction false} RemoveAllNoDup<T>(s: seq<T>, x: T)
    requires NoDup(s)
    ensures NoDup(RemoveAll(s, x))
  {
    if |s| > 0 {
      RemoveAllNoDup(s[1..], x);
      assert s[0] !in s[1..];
    }
  }

  lemma {:induction false} NoDupMultiplicity<T>(s: seq<T>, x: T)
    requires NoDup(s)
    ensures multiset(s)[x] <= 1
  {
    if |s| > 0 {
      assert s == [s[0]] + s[1..];
      NoDupMultiplicity(s[1..], x);
      assert s[0] !in s[1..];
    }
  }

  /** `[...new Set(s)]`: the first occurrence of each element, in order of first appearance. */
  function Dedup<T(==)>(s: seq<T>): (r: seq<T>)
    ensures NoDup(r)
    ensures forall x :: x in r ==> x in s
    ensures forall x :: x in s ==> x in r
  {
    if |s| == 0 then []
    else
      var d := Dedup(s[..|s| - 1]);
      assert s == s[..|s| - 1] + [s[|s| - 1]];
      if s[|s| - 1] in d then d else d + [s[|s| - 1]]
  }

  lemma {:induction false} DedupOfNoDup<T>(s: seq<T>)
    requires NoDup(s)
    ensures Dedup(s) == s
  {
    if |s| > 0 {
      DedupOfNoDup(s[..|s| - 1]);
    }
  }

  /** Appending one element to a duplicate-free sequence and de-duplicating
      appends it exactly when it is new. */
  lemma DedupSnoc<T>(s: seq<T>, x: T)
    requires NoDup(s)
    ensures Dedup(s + [x]) == if x in s then s else s + [x]
  {
    assert (s + [x])[..|s + [x]| - 1] == s;
    DedupOfNoDup(s);
  }

  /** The payloads of the `Some` slots, in order: `results.filter(p => p !== null)`. */
  function Somes<T>(s: seq<Option<T>>): (r: seq<T>)
    ensures |r| + NoneCount(s) == |s|
  {
    if |s| == 0 then []
    else (if s[0].Some? then [s[0].value] else []) + Somes(s[1..])
  }

  function NoneCount<T>(s: seq<Option<T>>): nat {
    if |s| == 0 then 0 else (if s[0].None? then 1 else 0) + NoneCount(s[1..])
  }

  lemma {:induction false} SomesMembership<T>(s: seq<Option<T>>, x: T)
    ensures x in Somes(s) <==> Some(x) in s
  {
    if |s| > 0 {
      SomesMembership(s[1..], x);
      assert s == [s[0]] + s[1..];
    }
  }

  lemma {:induction false} SomesConcat<T>(a: seq<Option<T>>, b: seq<Option<T>>)
    ensures Somes(a + b) == Somes(a) + Somes(b)
  {
    if |a| == 0 {
      assert a + b == b;
    } else {
      assert (a + b)[1..] == a[1..] + b;
      SomesConcat(a[1..], b);
    }
  }

  /** With no failed slot nothing is dropped and positions line up. */
  lemma {:induction false} SomesAllPresent<T>(s: seq<Option<T>>)
    requires forall i :: 0 <= i < |s| ==> s[i].Some?
    ensures |Somes(s)| == |s|
    ensures forall i :: 0 <= i < |s| ==> Somes(s)[i] == s[i].value
  {
    if |s| > 0 {
      SomesAllPresent(s[1..]);
    }
  }
}
