/** The array operations the fleet code leans on (`filter`, `find`,
    `findIndex`, `reduce` with `+`, `[...new Set(...)]`), written once as
    functions over sequences, with the facts the rest of the model uses. */
module Seqs {
  import opened Wrappers

  /** `a` can be obtained from `b` by deleting elements: an order-preserving
      subsequence. */
  predicate IsSubsequence<T(==)>(a: seq<T>, b: seq<T>)
    decreases |b|
  {
    a == [] || (b != [] && if a[0] == b[0] then IsSubsequence(a[1..], b[1..]) else IsSubsequence(a, b[1..]))
  }

  /** `Array.prototype.filter`. */
  function Filter<T(==)>(s: seq<T>, p: T -> bool): (r: seq<T>)
    ensures |r| <= |s|
    ensures forall i :: 0 <= i < |r| ==> r[i] in s && p(r[i])
    ensures forall i :: 0 <= i < |s| && p(s[i]) ==> s[i] in r
    ensures IsSubsequence(r, s)
  {
    if s == [] then []
    else
      assert s == [s[0]] + s[1..];
      if p(s[0]) then [s[0]] + Filter(s[1..], p)
      else Filter(s[1..], p)
  }

  /** Filtering keeps every passing element as often as it occurs and
      drops every other one. */
  lemma {:induction false} FilterMultiplicity<T>(s: seq<T>, p: T -> bool)
    ensures forall x :: x in s ==> multiset(Filter(s, p))[x] == if p(x) then multiset(s)[x] else 0
  {
    if s != [] {
      FilterMultiplicity(s[1..], p);
      assert s == [s[0]] + s[1..];
      assert multiset(s) == multiset{s[0]} + multiset(s[1..]);
      forall x | x in s
        ensures multiset(Filter(s, p))[x] == if p(x) then multiset(s)[x] else 0
      {
        if x !in s[1..] {
          assert multiset(s[1..])[x] == 0;
          assert multiset(Filter(s[1..], p))[x] == 0;
        }
      }
    }
  }

  /** The positions of `s` whose element satisfies `p`. */
  function PositionsWhere<T>(s: seq<T>, p: T -> bool): set<int>
  {
    set i | 0 <= i < |s| && p(s[i])
  }

  /** How many positions of `s` hold an element satisfying `p`: the count
      `filter(p).length` is meant to give, defined without `Filter`. */
  function Count<T>(s: seq<T>, p: T -> bool): nat
  {
    |PositionsWhere(s, p)|
  }

  /** Extending `s` by one element adds at most its own position. */
  lemma PositionsStep<T>(s: seq<T>, p: T -> bool)
    requires s != []
    ensures |s| - 1 !in PositionsWhere(s[..|s| - 1], p)
    ensures PositionsWhere(s, p) ==
      PositionsWhere(s[..|s| - 1], p) + (if p(s[|s| - 1]) then {|s| - 1} else {})
  {
    var n := |s| - 1;
    var before, after := PositionsWhere(s[..n], p), PositionsWhere(s, p);
    forall i
      ensures i in after <==> i in before || (i == n && p(s[n]))
    {
      if 0 <= i < n {
        assert s[..n][i] == s[i];
      }
    }
  }

  lemma {:induction false} FilterLast<T>(s: seq<T>, p: T -> bool)
    requires s != []
    ensures Filter(s, p) == Filter(s[..|s| - 1], p) + (if p(s[|s| - 1]) then [s[|s| - 1]] else [])
  {
    var n := |s| - 1;
    assert s == s[..n] + [s[n]];
    FilterAppend(s[..n], [s[n]], p);
    assert Filter([s[n]], p) == if p(s[n]) then [s[n]] else [] by {
      assert [s[n]][0] == s[n] && [s[n]][1..] == [];
    }
  }

  /** `filter(p).length` counts the positions whose element satisfies `p`. */
  lemma {:induction false} FilterCount<T>(s: seq<T>, p: T -> bool)
    ensures |Filter(s, p)| == Count(s, p)
  {
    if s != [] {
      FilterCount(s[..|s| - 1], p);
      FilterLast(s, p);
      PositionsStep(s, p);
    }
  }

  lemma {:induction false} FilterAppend<T>(a: seq<T>, b: seq<T>, p: T -> bool)
    ensures Filter(a + b, p) == Filter(a, p) + Filter(b, p)
  {
    if a != [] {
      assert (a + b)[0] == a[0] && (a + b)[1..] == a[1..] + b;
      FilterAppend(a[1..], b, p);
      if p(a[0]) {
        assert Filter(a + b, p) == [a[0]] + (Filter(a[1..], p) + Filter(b, p));
      }
    } else {
      assert a + b == b;
    }
  }

  /** Filtering keeps everything exactly when every element passes. */
  lemma {:induction false} FilterKeepsAll<T>(s: seq<T>, p: T -> bool)
    ensures |Filter(s, p)| == |s| <==> forall x :: x in s ==> p(x)
    ensures (forall x :: x in s ==> p(x)) ==> Filter(s, p) == s
  {
    if s != [] {
      FilterKeepsAll(s[1..], p);
      if !p(s[0]) {
        assert |Filter(s, p)| < |s|;
      }
    }
  }

  /** Two predicates that no element satisfies together select at most
      `|s|` elements between them. */
  lemma {:induction false} FilterDisjoint<T>(s: seq<T>, p: T -> bool, q: T -> bool)
    requires forall x :: x in s ==> !(p(x) && q(x))
    ensures |Filter(s, p)| + |Filter(s, q)| <= |s|
  {
    if s != [] {
      FilterDisjoint(s[1..], p, q);
    }
  }

  /** Three predicates of which every element satisfies exactly one split
      the sequence: their counts add up to its length. */
  lemma {:induction false} FilterPartition3<T>(s: seq<T>, p: T -> bool, q: T -> bool, o: T -> bool)
    requires forall x :: x in s ==> (p(x) && !q(x) && !o(x)) || (!p(x) && q(x) && !o(x)) || (!p(x) && !q(x) && o(x))
    ensures |Filter(s, p)| + |Filter(s, q)| + |Filter(s, o)| == |s|
  {
    if s != [] {
      FilterPartition3(s[1..], p, q, o);
    }
  }

  /** `Array.prototype.findIndex`, with `None` for its `-1`. */
  function FirstIndex<T>(s: seq<T>, p: T -> bool): (r: Option<nat>)
    ensures r.None? <==> forall i :: 0 <= i < |s| ==> !p(s[i])
    ensures r.Some? ==> r.value < |s| && p(s[r.value]) && forall j :: 0 <= j < r.value ==> !p(s[j])
  {
    if s == [] then None
    else if p(s[0]) then Some(0)
    else match FirstIndex(s[1..], p)
      case None => None
      case Some(i) => Some(i + 1)
  }

  /** `Array.prototype.find`, with `None` for `undefined`. */
  function Find<T>(s: seq<T>, p: T -> bool): (r: Option<T>)
    ensures r.None? <==> forall i :: 0 <= i < |s| ==> !p(s[i])
    ensures r.Some? ==> exists i :: 0 <= i < |s| && s[i] == r.value && p(s[i]) && forall j :: 0 <= j < i ==> !p(s[j])
  {
    match FirstIndex(s, p)
    case None => None
    case Some(i) => Some(s[i])
  }

  /** `reduce((sum, x) => sum + f(x), 0)`. */
  function Sum<T>(s: seq<T>, f: T -> real): real
  {
    if s == [] then 0.0 else f(s[0]) + Sum(s[1..], f)
  }

  lemma {:induction false} SumBounds<T>(s: seq<T>, f: T -> real, lo: real, hi: real)
    requires forall i :: 0 <= i < |s| ==> lo <= f(s[i]) <= hi
    ensures lo * |s| as real <= Sum(s, f) <= hi * |s| as real
  {
    if s != [] {
      SumBounds(s[1..], f, lo, hi);
      assert lo <= f(s[0]) <= hi;
    }
  }

  /** Position of the first occurrence of `x` in `s`. */
  function IndexOf<T(==)>(s: seq<T>, x: T): (i: nat)
    requires x in s
    ensures i < |s| && s[i] == x && x !in s[..i]
  {
    if s[0] == x then 0 else 1 + IndexOf(s[1..], x)
  }

  /** `[...new Set(s)]`: every element once, in order of first occurrence. */
  function Distinct<T(==)>(s: seq<T>): (r: seq<T>)
    ensures forall i :: 0 <= i < |r| ==> r[i] in s
    ensures forall i :: 0 <= i < |s| ==> s[i] in r
    ensures forall i, j :: 0 <= i < j < |r| ==> r[i] != r[j]
  {
    if s == [] then []
    else
      var prefix := Distinct(s[..|s| - 1]);
      if s[|s| - 1] in prefix then prefix else prefix + [s[|s| - 1]]
  }

  lemma IndexOfPrefix<T>(s: seq<T>, n: nat, x: T)
    requires n <= |s| && x in s[..n]
    ensures IndexOf(s, x) == IndexOf(s[..n], x)
  {
    var i := IndexOf(s[..n], x);
    assert s[..n][..i] == s[..i];
  }

  /** The elements of `Distinct(s)` are ordered by where they first occur
      in `s`. */
  lemma {:induction false} DistinctKeepsFirstOccurrenceOrder<T>(s: seq<T>)
    ensures forall i, j :: 0 <= i < j < |Distinct(s)| ==> IndexOf(s, Distinct(s)[i]) < IndexOf(s, Distinct(s)[j])
  {
    if s != [] {
      var init := s[..|s| - 1];
      var last := s[|s| - 1];
      DistinctKeepsFirstOccurrenceOrder(init);
      var prefix := Distinct(init);
      forall x | x in init
        ensures IndexOf(s, x) == IndexOf(init, x) && IndexOf(init, x) < |init|
      {
        IndexOfPrefix(s, |s| - 1, x);
      }
      if last !in prefix {
        assert last !in init;
        assert IndexOf(s, last) == |s| - 1 by {
          assert s[..|s| - 1] == init;
        }
      }
    }
  }

  /** A non-empty sequence is its prefix followed by its last element. */
  lemma SplitLast<T>(s: seq<T>)
    requires s != []
    ensures s == s[..|s| - 1] + [s[|s| - 1]]
    ensures forall x :: x in s <==> x in s[..|s| - 1] || x == s[|s| - 1]
  {
    assert s == s[..|s| - 1] + [s[|s| - 1]];
  }

  lemma AppendAssoc<T>(a: seq<T>, b: seq<T>, c: seq<T>)
    ensures (a + b) + c == a + (b + c)
  {
  }

  /** Extending a prefix by one element. */
  lemma PrefixStep<T>(s: seq<T>, n: int)
    requires 0 <= n < |s|
    ensures s[..n + 1][..n] == s[..n] && s[..n + 1][n] == s[n]
  {
  }

  /** Filtering leaves nothing exactly when no element passes. */
  lemma {:induction false} FilterEmptyIff<T>(s: seq<T>, p: T -> bool)
    ensures Filter(s, p) == [] <==> forall x :: x in s ==> !p(x)
  {
    if s != [] {
      FilterEmptyIff(s[1..], p);
      assert forall x :: x in s <==> x == s[0] || x in s[1..];
    }
  }
}
