/** The list operations of Kotlin's standard library that the core relies on. */
module Sequences {

  /** Regrouping a list with three elements in the middle. */
  lemma SplicePair<T>(pre: seq<T>, a: T, b: T, c: T, post: seq<T>)
    ensures pre + [a, b] + [c] + post == pre + [a, b, c] + post
  {
    assert [a, b] + [c] == [a, b, c];
  }

  /** One more element of `b` appended behind `a`. */
  lemma AppendPrefixStep<T>(a: seq<T>, b: seq<T>, j: nat)
    requires j < |b|
    ensures a + b[..j + 1] == (a + b[..j]) + [b[j]]
  {
    assert b[..j + 1] == b[..j] + [b[j]];
  }

  lemma MultisetSnoc<T>(s: seq<T>)
    requires s != []
    ensures multiset(s) == multiset(s[..|s| - 1]) + multiset{s[|s| - 1]}
  {
    assert s == s[..|s| - 1] + [s[|s| - 1]];
  }

  /** `s.filter(p)`: the elements of `s` that satisfy `p`, in their order. */
  function Filter<T>(s: seq<T>, p: T -> bool): (r: seq<T>)
    ensures |r| <= |s|
    ensures forall i :: 0 <= i < |r| ==> r[i] in s && p(r[i])
    ensures forall i :: 0 <= i < |s| && p(s[i]) ==> s[i] in r
    ensures (forall i :: 0 <= i < |s| ==> p(s[i])) ==> r == s
  {
    if s == [] then []
    else if p(s[0]) then [s[0]] + Filter(s[1..], p)
    else Filter(s[1..], p)
  }

  /** `a` is obtained from `b` by deleting elements, without reordering. */
  predicate IsSubsequence<T(==)>(a: seq<T>, b: seq<T>)
    decreases |b|
  {
    a == [] ||
    (b != [] && ((a[0] == b[0] && IsSubsequence(a[1..], b[1..])) || IsSubsequence(a, b[1..])))
  }

  lemma {:induction false} SubsequenceReflexive<T>(s: seq<T>)
    ensures IsSubsequence(s, s)
  {
    if s != [] {
      SubsequenceReflexive(s[1..]);
    }
  }

  /** An element in front of the longer sequence only can be skipped. */
  lemma SubsequenceSkip<T>(x: T, a: seq<T>, b: seq<T>)
    requires IsSubsequence(a, b)
    ensures IsSubsequence(a, [x] + b)
  {
    assert ([x] + b)[1..] == b;
  }

  /** A common element in front of both sequences can be kept. */
  lemma SubsequenceKeep<T>(x: T, a: seq<T>, b: seq<T>)
    requires IsSubsequence(a, b)
    ensures IsSubsequence([x] + a, [x] + b)
  {
    assert ([x] + a)[1..] == a && ([x] + b)[1..] == b;
  }

  /** Filtering keeps the survivors in their order. */
  lemma {:induction false} FilterSubsequence<T>(s: seq<T>, p: T -> bool)
    ensures IsSubsequence(Filter(s, p), s)
  {
    if s != [] {
      FilterSubsequence(s[1..], p);
      assert [s[0]] + s[1..] == s;
      if p(s[0]) {
        SubsequenceKeep(s[0], Filter(s[1..], p), s[1..]);
      } else {
        SubsequenceSkip(s[0], Filter(s[1..], p), s[1..]);
      }
    }
  }

  lemma {:induction false} FilterAppend<T>(a: seq<T>, b: seq<T>, p: T -> bool)
    ensures Filter(a + b, p) == Filter(a, p) + Filter(b, p)
  {
    if a == [] {
      assert a + b == b;
    } else {
      assert (a + b)[1..] == a[1..] + b;
      FilterAppend(a[1..], b, p);
    }
  }

  /** Nothing passes a filter that no element satisfies. */
  lemma FilterNone<T>(s: seq<T>, p: T -> bool)
    requires forall i :: 0 <= i < |s| ==> !p(s[i])
    ensures Filter(s, p) == []
  {
  }

  lemma FilterSingle<T>(x: T, p: T -> bool)
    ensures Filter([x], p) == if p(x) then [x] else []
  {
    assert [x][1..] == [];
  }

  lemma FilterCons<T>(h: T, t: seq<T>, p: T -> bool)
    ensures Filter([h] + t, p) == if p(h) then [h] + Filter(t, p) else Filter(t, p)
  {
    assert ([h] + t)[0] == h && ([h] + t)[1..] == t;
  }

  /** A common head passes or fails the filter the same way in front of both lists. */
  lemma FilterConsAppend<T>(h: T, a: seq<T>, b: seq<T>, e: seq<T>, p: T -> bool)
    requires Filter(a, p) == Filter(b, p) + e
    ensures Filter([h] + a, p) == Filter([h] + b, p) + e
  {
    FilterCons(h, a, p);
    FilterCons(h, b, p);
    if p(h) {
      ConsAppend(h, Filter(b, p), e);
    }
  }

  lemma HeadTail<T>(s: seq<T>)
    requires s != []
    ensures [s[0]] + s[1..] == s
  {
  }

  lemma ConsAppend<T>(h: T, a: seq<T>, b: seq<T>)
    ensures [h] + (a + b) == ([h] + a) + b
  {
  }

  /** Filtering by `p` and then by `q` is filtering once by their conjunction `pq`. */
  lemma {:induction false} FilterFilter<T>(s: seq<T>, p: T -> bool, q: T -> bool, pq: T -> bool)
    requires forall x :: pq(x) == (p(x) && q(x))
    ensures Filter(Filter(s, p), q) == Filter(s, pq)
  {
    if s != [] {
      FilterFilter(s[1..], p, q, pq);
    }
  }

  /** Filters by predicates that agree on every element give the same result. */
  lemma {:induction false} FilterExtensional<T>(s: seq<T>, p: T -> bool, q: T -> bool)
    requires forall x :: p(x) == q(x)
    ensures Filter(s, p) == Filter(s, q)
  {
    if s != [] {
      FilterExtensional(s[1..], p, q);
    }
  }

  /** Filtering twice by the same predicate is filtering once. */
  lemma FilterIdempotent<T>(s: seq<T>, p: T -> bool)
    ensures Filter(Filter(s, p), p) == Filter(s, p)
  {
  }

  /** `s.take(n)`: the first `n` elements, or all of them when there are fewer. */
  function Take<T>(s: seq<T>, n: nat): (r: seq<T>)
    ensures |r| == if |s| <= n then |s| else n
    ensures r == s[..|r|]
  {
    if |s| <= n then s else s[..n]
  }

  /** A prefix of a subsequence is a subsequence. */
  lemma {:induction false} SubsequencePrefix<T>(a: seq<T>, b: seq<T>, n: nat)
    requires IsSubsequence(a, b) && n <= |a|
    ensures IsSubsequence(a[..n], b)
    decreases |b|
  {
    if n > 0 {
      if a[0] == b[0] && IsSubsequence(a[1..], b[1..]) {
        SubsequencePrefix(a[1..], b[1..], n - 1);
        assert a[..n][1..] == a[1..][..n - 1];
      } else {
        SubsequencePrefix(a, b[1..], n);
      }
    }
  }

  /** `s.distinct()`: the first occurrence of every element, in order of first occurrence. */
  function Distinct<T(==)>(s: seq<T>): (r: seq<T>)
    ensures forall i :: 0 <= i < |r| ==> r[i] in s
    ensures forall i :: 0 <= i < |s| ==> s[i] in r
    ensures NoDuplicates(r)
  {
    DistinctAfter(s, [])
  }

  /** Appends to `seen` the elements of `s` that are not yet in it (a `LinkedHashSet` being filled). */
  function DistinctAfter<T(==)>(s: seq<T>, seen: seq<T>): (r: seq<T>)
    requires NoDuplicates(seen)
    ensures forall i :: 0 <= i < |r| ==> r[i] in s || r[i] in seen
    ensures forall i :: 0 <= i < |s| ==> s[i] in r
    ensures forall i :: 0 <= i < |seen| ==> seen[i] in r
    ensures NoDuplicates(r)
    ensures |seen| <= |r| && r[..|seen|] == seen
  {
    if s == [] then seen
    else if s[0] in seen then DistinctAfter(s[1..], seen)
    else
      var seen' := seen + [s[0]];
      var r := DistinctAfter(s[1..], seen');
      assert forall i :: 0 <= i < |seen'| ==> seen'[i] in r;
      assert seen'[|seen|] == s[0];
      assert forall i :: 0 <= i < |seen| ==> seen[i] == seen'[i];
      r
  }

  lemma DistinctMembers<T>(s: seq<T>, x: T)
    ensures x in Distinct(s) <==> x in s
  {
    var r := Distinct(s);
    if x in r {
      var i :| 0 <= i < |r| && r[i] == x;
    }
    if x in s {
      var i :| 0 <= i < |s| && s[i] == x;
    }
  }

  /** Appending an element adds it to the distinct elements exactly when it is new. */
  lemma DistinctSnoc<T>(s: seq<T>, x: T)
    ensures Distinct(s + [x]) == if x in s then Distinct(s) else Distinct(s) + [x]
  {
    DistinctAfterSnoc(s, [], x);
  }

  lemma {:induction false} DistinctAfterSnoc<T>(s: seq<T>, seen: seq<T>, x: T)
    requires NoDuplicates(seen)
    ensures DistinctAfter(s + [x], seen) ==
      if x in s || x in seen then DistinctAfter(s, seen) else DistinctAfter(s, seen) + [x]
  {
    if s == [] {
      assert [] + [x] == [x];
      assert [x][1..] == [];
    } else {
      assert (s + [x])[1..] == s[1..] + [x];
      if s[0] in seen {
        DistinctAfterSnoc(s[1..], seen, x);
      } else {
        var seen' := seen + [s[0]];
        assert forall i :: 0 <= i < |seen| ==> seen[i] == seen'[i];
        DistinctAfterSnoc(s[1..], seen', x);
      }
    }
  }

  /** `distinct()` of an element followed by two different ones. */
  lemma DistinctOfThree<T>(a: T, b: T, c: T)
    requires b != c
    ensures Distinct([a, b, c]) == [a] + (if a == b then [c] else if a == c then [b] else [b, c])
  {
    assert [a, b, c][1..] == [b, c] && [] + [a] == [a];
    assert Distinct([a, b, c]) == DistinctAfter([b, c], [a]);
    if a == b {
      DistinctOfTwoAfter(a, b, c);
    } else {
      DistinctOfTwoAfterNew(a, b, c);
    }
  }

  lemma DistinctOfTwoAfter<T>(a: T, b: T, c: T)
    requires a == b && b != c
    ensures DistinctAfter([b, c], [a]) == [a, c]
  {
    assert [b, c][1..] == [c] && [c][1..] == [];
    assert DistinctAfter([b, c], [a]) == DistinctAfter([c], [a]);
    assert [a] + [c] == [a, c];
  }

  lemma DistinctOfTwoAfterNew<T>(a: T, b: T, c: T)
    requires a != b && b != c
    ensures DistinctAfter([b, c], [a]) == [a] + (if a == c then [b] else [b, c])
  {
    assert [b, c][1..] == [c] && [c][1..] == [];
    assert [a] + [b] == [a, b];
    assert DistinctAfter([b, c], [a]) == DistinctAfter([c], [a, b]);
    assert [a, b] + [c] == [a, b, c];
  }

  predicate NoDuplicates<T(==)>(s: seq<T>) {
    forall i, j :: 0 <= i < j < |s| ==> s[i] != s[j]
  }

  /** An element occurs at most once in a sequence without duplicates. */
  lemma {:induction false} NoDuplicatesMultiplicity<T>(s: seq<T>, x: T)
    requires NoDuplicates(s)
    ensures multiset(s)[x] <= 1
  {
    if s != [] {
      assert s == [s[0]] + s[1..];
      NoDuplicatesMultiplicity(s[1..], x);
      if s[0] == x {
        forall j | 0 <= j < |s| - 1 ensures s[1..][j] != x {
          assert s[1..][j] == s[j + 1];
        }
      }
    }
  }

  /** A permutation of a sequence without duplicates has none either. */
  lemma PermutationNoDuplicates<T>(a: seq<T>, b: seq<T>)
    requires multiset(a) == multiset(b) && NoDuplicates(b)
    ensures NoDuplicates(a)
  {
    forall i, j | 0 <= i < j < |a| ensures a[i] != a[j] {
      NoDuplicatesMultiplicity(b, a[i]);
      assert a == a[..j] + [a[j]] + a[j + 1..];
      assert a[i] in a[..j];
      assert multiset(a)[a[i]] >= multiset(a[..j])[a[i]] + multiset([a[j]])[a[i]];
    }
  }

  /** How many times `x` occurs in `s`. */
  function Count<T(==)>(s: seq<T>, x: T): (n: nat)
    ensures n > 0 <==> x in s
    ensures n <= |s|
  {
    if s == [] then 0 else (if s[0] == x then 1 else 0) + Count(s[1..], x)
  }

  lemma {:induction false} CountAppend<T>(a: seq<T>, b: seq<T>, x: T)
    ensures Count(a + b, x) == Count(a, x) + Count(b, x)
  {
    if a == [] {
      assert a + b == b;
    } else {
      assert (a + b)[1..] == a[1..] + b;
      CountAppend(a[1..], b, x);
    }
  }
}
