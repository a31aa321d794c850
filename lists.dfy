// The two list operations the screens use: `Array.prototype.filter`, which
// keeps the elements a predicate accepts in their original order, and
// `Array.prototype.find`, which returns the first element a predicate accepts.

module Lists {
  import opened Types

  /** `r` can be obtained from `s` by deleting elements (order is kept). */
  ghost predicate Subseq<T>(r: seq<T>, s: seq<T>)
    decreases |s|
  {
    r == [] || (s != [] && ((r[0] == s[0] && Subseq(r[1..], s[1..])) || Subseq(r, s[1..])))
  }

  /**
   * `r` is what a filter by `p` must return from `s`: a subsequence of `s`
   * holding every element that satisfies `p` exactly as often as `s` does,
   * and nothing else.
   */
  ghost predicate IsFilterOf<T(!new)>(r: seq<T>, s: seq<T>, p: T -> bool)
  {
    && Subseq(r, s)
    && forall x :: multiset(r)[x] == if p(x) then multiset(s)[x] else 0
  }

  /** The elements of `s` that satisfy `p`, in order. */
  function Filter<T(!new)>(s: seq<T>, p: T -> bool): (r: seq<T>)
    ensures |r| <= |s|
    ensures forall x :: x in r <==> x in s && p(x)
    decreases |s|
  {
    if s == [] then [] else (if p(s[0]) then [s[0]] else []) + Filter(s[1..], p)
  }

  /**
   * A filter keeps every element that satisfies `p` exactly as often as it
   * occurs in the input, and no other element.
   */
  lemma {:induction false} FilterMultiplicity<T(!new)>(s: seq<T>, p: T -> bool)
    ensures forall x :: multiset(Filter(s, p))[x] == if p(x) then multiset(s)[x] else 0
    decreases |s|
  {
    if s != [] {
      FilterMultiplicity(s[1..], p);
      assert s == [s[0]] + s[1..];
    }
  }

  /** Deleting an element in front of a subsequence's source keeps it a subsequence. */
  lemma {:induction false} SubseqSkip<T>(r: seq<T>, x: T, s: seq<T>)
    requires Subseq(r, s)
    ensures Subseq(r, [x] + s)
  {
    assert ([x] + s)[1..] == s;
  }

  /**
   * Filtering by a weaker predicate never drops an element: the result for
   * `p` is a subsequence of the result for `q` whenever `p` implies `q`.
   */
  lemma {:induction false} FilterMonotone<T(!new)>(s: seq<T>, p: T -> bool, q: T -> bool)
    requires forall x :: p(x) ==> q(x)
    ensures Subseq(Filter(s, p), Filter(s, q))
    decreases |s|
  {
    if s != [] {
      FilterMonotone(s[1..], p, q);
      var rp, rq := Filter(s[1..], p), Filter(s[1..], q);
      if p(s[0]) {
        assert Filter(s, p) == [s[0]] + rp && Filter(s, q) == [s[0]] + rq;
        assert ([s[0]] + rp)[1..] == rp && ([s[0]] + rq)[1..] == rq;
      } else if q(s[0]) {
        assert Filter(s, p) == rp && Filter(s, q) == [s[0]] + rq;
        SubseqSkip(rp, s[0], rq);
      } else {
        assert Filter(s, p) == rp && Filter(s, q) == rq;
      }
    }
  }

  /** A filter whose predicate holds of every element returns the list unchanged. */
  lemma {:induction false} FilterKeepsAll<T(!new)>(s: seq<T>, p: T -> bool)
    requires forall x :: x in s ==> p(x)
    ensures Filter(s, p) == s
    decreases |s|
  {
    if s != [] {
      FilterKeepsAll(s[1..], p);
      assert s == [s[0]] + s[1..];
    }
  }

  /** A filter whose predicate holds of no element returns the empty list. */
  lemma FilterKeepsNone<T(!new)>(s: seq<T>, p: T -> bool)
    requires forall x :: x in s ==> !p(x)
    ensures Filter(s, p) == []
  {
    if Filter(s, p) != [] {
      assert Filter(s, p)[0] in Filter(s, p);
    }
  }

  /** Every filter is a subsequence of its input. */
  lemma FilterIsSubseq<T(!new)>(s: seq<T>, p: T -> bool)
    ensures Subseq(Filter(s, p), s)
  {
    var all := (x: T) => true;
    FilterMonotone(s, p, all);
    FilterKeepsAll(s, all);
  }

  /** The result of `Filter` is exactly what a filter must return. */
  lemma FilterSpec<T(!new)>(s: seq<T>, p: T -> bool)
    ensures IsFilterOf(Filter(s, p), s, p)
  {
    FilterIsSubseq(s, p);
    FilterMultiplicity(s, p);
  }

  /**
   * Counting by a predicate that splits into two exclusive cases is the sum
   * of the counts of the two cases.
   */
  lemma {:induction false} FilterCountSplit<T(!new)>(s: seq<T>, p: T -> bool, q: T -> bool, r: T -> bool)
    requires forall x :: p(x) <==> q(x) || r(x)
    requires forall x :: !(q(x) && r(x))
    ensures |Filter(s, p)| == |Filter(s, q)| + |Filter(s, r)|
    decreases |s|
  {
    if s != [] {
      FilterCountSplit(s[1..], p, q, r);
    }
  }
  /** A subsequence never holds an element more often than its source. */
  lemma {:induction false} SubseqMultiset<T>(r: seq<T>, s: seq<T>)
    requires Subseq(r, s)
    ensures multiset(r) <= multiset(s)
    decreases |s|
  {
    if r != [] {
      assert s == [s[0]] + s[1..];
      if Subseq(r, s[1..]) {
        SubseqMultiset(r, s[1..]);
      } else {
        SubseqMultiset(r[1..], s[1..]);
        assert r == [r[0]] + r[1..];
      }
    }
  }

  /**
   * `IsFilterOf` leaves no freedom: the only list it admits is the one
   * `Filter` computes.
   */
  lemma {:induction false} FilterSpecUnique<T(!new)>(r: seq<T>, s: seq<T>, p: T -> bool)
    requires IsFilterOf(r, s, p)
    ensures r == Filter(s, p)
    decreases |s|
  {
    if s != [] {
      var x, t := s[0], s[1..];
      assert s == [x] + t;
      if r != [] && r[0] == x && Subseq(r[1..], t) {
        assert r == [x] + r[1..];
        FilterSpecUnique(r[1..], t, p);
      } else {
        assert Subseq(r, t);
        SubseqMultiset(r, t);
        FilterSpecUnique(r, t, p);
      }
    }
  }
  /** Filtering a concatenation filters each part and concatenates the results. */
  lemma {:induction false} FilterAppend<T(!new)>(a: seq<T>, b: seq<T>, p: T -> bool)
    ensures Filter(a + b, p) == Filter(a, p) + Filter(b, p)
    decreases |a|
  {
    if a != [] {
      FilterAppend(a[1..], b, p);
      assert (a + b)[1..] == a[1..] + b;
    } else {
      assert a + b == b;
    }
  }
  /** A subsequence is no longer than its source. */
  lemma {:induction false} SubseqLength<T>(r: seq<T>, s: seq<T>)
    requires Subseq(r, s)
    ensures |r| <= |s|
    decreases |s|
  {
    if r != [] {
      if Subseq(r, s[1..]) {
        SubseqLength(r, s[1..]);
      } else {
        SubseqLength(r[1..], s[1..]);
      }
    }
  }

  /** A subsequence holds no more elements satisfying `p` than its source. */
  lemma {:induction false} SubseqFilterCount<T(!new)>(r: seq<T>, s: seq<T>, p: T -> bool)
    requires Subseq(r, s)
    ensures |Filter(r, p)| <= |Filter(s, p)|
    decreases |s|
  {
    if r != [] {
      if Subseq(r, s[1..]) {
        SubseqFilterCount(r, s[1..], p);
      } else {
        SubseqFilterCount(r[1..], s[1..], p);
      }
    }
  }

  /** No element before position `k` satisfies `p`. */
  predicate NoneBefore<T>(s: seq<T>, p: T -> bool, k: int)
  {
    forall j :: 0 <= j < k && j < |s| ==> !p(s[j])
  }

  /** The first element of `s` that satisfies `p`, or `None` when no element does. */
  function FindFirst<T(==, !new)>(s: seq<T>, p: T -> bool): (r: Option<T>)
    ensures r.Some? ==> r.value in s && p(r.value)
    ensures r.None? <==> forall x :: x in s ==> !p(x)
    ensures s != [] && p(s[0]) ==> r == Some(s[0])
    ensures r.Some? ==> exists k :: 0 <= k < |s| && s[k] == r.value && NoneBefore(s, p, k)
    decreases |s|
  {
    if s == [] then None
    else if p(s[0]) then Some(s[0])
    else
      var r := FindFirst(s[1..], p);
      if r.Some? then
        var k :| 0 <= k < |s[1..]| && s[1..][k] == r.value && NoneBefore(s[1..], p, k);
        assert s[k + 1] == r.value && NoneBefore(s, p, k + 1);
        r
      else r
  }

  /** At most one position holds an element that satisfies `p` with none before it. */
  lemma FirstIndexUnique<T>(s: seq<T>, p: T -> bool, k: int, k': int)
    requires 0 <= k < |s| && p(s[k]) && NoneBefore(s, p, k)
    requires 0 <= k' < |s| && p(s[k']) && NoneBefore(s, p, k')
    ensures k == k'
  {
  }
}
