/** Boolean-mask selection, `df[mask]`, over a sequence of rows. */
module Seqs {

  /** The elements of `s` that satisfy `p`, in their original order. */
  function Filter<T>(s: seq<T>, p: T -> bool): (r: seq<T>)
    ensures |r| <= |s|
    ensures forall i :: 0 <= i < |r| ==> r[i] in s && p(r[i])
    ensures forall i :: 0 <= i < |s| && p(s[i]) ==> s[i] in r
  {
    if |s| == 0 then []
    else (if p(s[0]) then [s[0]] else []) + Filter(s[1..], p)
  }

  /**
   * Every element equal to `a` replaced by `b`: `str.replace` for single
   * characters, `df.rename(columns={a: b})` for column labels.
   */
  function Replace<T(==)>(s: seq<T>, a: T, b: T): (r: seq<T>)
    ensures |r| == |s|
    ensures forall i :: 0 <= i < |s| ==> r[i] == (if s[i] == a then b else s[i])
  {
    seq(|s|, i requires 0 <= i < |s| => if s[i] == a then b else s[i])
  }

  /** `a` is `b` with some elements left out and the rest in their order. */
  ghost predicate IsSubsequence<T>(a: seq<T>, b: seq<T>)
    decreases |b|
  {
    |a| <= |b| &&
    (|a| == 0 || (a[0] == b[0] && IsSubsequence(a[1..], b[1..])) || (|b| > 0 && IsSubsequence(a, b[1..])))
  }

  /** Unfolds one step of `Filter` on a non-empty sequence. */
  lemma FilterCons<T>(s: seq<T>, p: T -> bool)
    requires |s| > 0
    ensures p(s[0]) ==> Filter(s, p) == [s[0]] + Filter(s[1..], p)
    ensures !p(s[0]) ==> Filter(s, p) == Filter(s[1..], p)
  {
  }

  lemma {:induction false} FilterIsSubsequence<T>(s: seq<T>, p: T -> bool)
    ensures IsSubsequence(Filter(s, p), s)
  {
    if |s| > 0 {
      FilterIsSubsequence(s[1..], p);
      FilterCons(s, p);
      var f := Filter(s, p);
      if p(s[0]) {
        assert f[0] == s[0] && f[1..] == Filter(s[1..], p);
      }
    }
  }

  /** Selecting twice with the same mask selects nothing more. */
  lemma {:induction false} FilterIdempotent<T>(s: seq<T>, p: T -> bool)
    ensures Filter(Filter(s, p), p) == Filter(s, p)
  {
    if |s| > 0 {
      FilterIdempotent(s[1..], p);
      FilterCons(s, p);
      var f := Filter(s, p);
      if p(s[0]) {
        assert f[0] == s[0] && f[1..] == Filter(s[1..], p);
        FilterCons(f, p);
      }
    }
  }

  /** Masks that agree on every element select the same elements. */
  lemma {:induction false} FilterExt<T>(s: seq<T>, p: T -> bool, q: T -> bool)
    requires forall x :: p(x) == q(x)
    ensures Filter(s, p) == Filter(s, q)
  {
    if |s| > 0 {
      FilterExt(s[1..], p, q);
    }
  }

  /** Two selections in a row are one selection by a mask that holds where both do. */
  lemma {:induction false} FilterFilter<T>(s: seq<T>, p: T -> bool, q: T -> bool, pq: T -> bool)
    requires forall x :: pq(x) == (p(x) && q(x))
    ensures Filter(Filter(s, p), q) == Filter(s, pq)
  {
    if |s| > 0 {
      FilterFilter(s[1..], p, q, pq);
      FilterCons(s, p);
      FilterCons(s, pq);
      var f := Filter(s, p);
      if p(s[0]) {
        assert f[0] == s[0] && f[1..] == Filter(s[1..], p);
        FilterCons(f, q);
      }
    }
  }

  /** A mask that holds only where another does selects the same rows after it. */
  lemma {:induction false} FilterAbsorbs<T>(s: seq<T>, p: T -> bool, q: T -> bool)
    requires forall x :: q(x) ==> p(x)
    ensures Filter(Filter(s, p), q) == Filter(s, q)
  {
    if |s| > 0 {
      FilterAbsorbs(s[1..], p, q);
      FilterCons(s, p);
      FilterCons(s, q);
      var f := Filter(s, p);
      if p(s[0]) {
        assert f[0] == s[0] && f[1..] == Filter(s[1..], p);
        FilterCons(f, q);
      }
    }
  }

  /** A mask and its negation split a sequence between them. */
  lemma {:induction false} FilterPartition<T>(s: seq<T>, p: T -> bool, q: T -> bool)
    requires forall x :: q(x) == !p(x)
    ensures |Filter(s, p)| + |Filter(s, q)| == |s|
  {
    if |s| > 0 {
      FilterPartition(s[1..], p, q);
    }
  }

  /** A mask that holds everywhere on `s` keeps all of it. */
  lemma {:induction false} FilterAll<T>(s: seq<T>, p: T -> bool)
    requires forall i :: 0 <= i < |s| ==> p(s[i])
    ensures Filter(s, p) == s
  {
    if |s| > 0 {
      FilterAll(s[1..], p);
    }
  }

  lemma {:induction false} FilterAppend<T>(a: seq<T>, b: seq<T>, p: T -> bool)
    ensures Filter(a + b, p) == Filter(a, p) + Filter(b, p)
  {
    if |a| == 0 {
      assert a + b == b;
    } else {
      assert (a + b)[1..] == a[1..] + b;
      FilterAppend(a[1..], b, p);
    }
  }

  /**
   * Two sequences that agree on `f` and on the mask, element by element,
   * select sequences that agree on `f` element by element.
   */
  lemma {:induction false} FilterAlike<T, U>(a: seq<T>, b: seq<T>, f: T -> U, p: T -> bool)
    requires |a| == |b|
    requires forall i :: 0 <= i < |a| ==> f(a[i]) == f(b[i]) && p(a[i]) == p(b[i])
    ensures |Filter(a, p)| == |Filter(b, p)|
    ensures forall i :: 0 <= i < |Filter(a, p)| ==> f(Filter(a, p)[i]) == f(Filter(b, p)[i])
  {
    if |a| > 0 {
      var a', b' := a[1..], b[1..];
      assert forall i :: 0 <= i < |a'| ==> a'[i] == a[i + 1] && b'[i] == b[i + 1];
      FilterAlike(a', b', f, p);
      FilterCons(a, p);
      FilterCons(b, p);
      var ra, rb := Filter(a', p), Filter(b', p);
      if p(a[0]) {
        forall i | 0 <= i < |Filter(a, p)| ensures f(Filter(a, p)[i]) == f(Filter(b, p)[i]) {
          if i > 0 {
            assert Filter(a, p)[i] == ra[i - 1] && Filter(b, p)[i] == rb[i - 1];
          }
        }
      }
    }
  }

  /**
   * Two sequences whose elements are related pairwise, and agree on the
   * mask, select sequences whose elements are related pairwise.
   */
  lemma {:induction false} FilterRelated<T>(a: seq<T>, b: seq<T>, rel: (T, T) -> bool, p: T -> bool)
    requires |a| == |b|
    requires forall i :: 0 <= i < |a| ==> rel(a[i], b[i]) && p(a[i]) == p(b[i])
    ensures |Filter(a, p)| == |Filter(b, p)|
    ensures forall i :: 0 <= i < |Filter(a, p)| ==> rel(Filter(a, p)[i], Filter(b, p)[i])
  {
    if |a| > 0 {
      var a', b' := a[1..], b[1..];
      assert forall i :: 0 <= i < |a'| ==> a'[i] == a[i + 1] && b'[i] == b[i + 1];
      FilterRelated(a', b', rel, p);
      FilterCons(a, p);
      FilterCons(b, p);
      var ra, rb := Filter(a', p), Filter(b', p);
      if p(a[0]) {
        forall i | 0 <= i < |Filter(a, p)| ensures rel(Filter(a, p)[i], Filter(b, p)[i]) {
          if i > 0 {
            assert Filter(a, p)[i] == ra[i - 1] && Filter(b, p)[i] == rb[i - 1];
          }
        }
      }
    }
  }

  /** A selection from a sequence whose keys rise strictly has keys that rise strictly. */
  lemma {:induction false} FilterKeepsIncreasing<T>(s: seq<T>, key: T -> int, p: T -> bool)
    requires forall i, j :: 0 <= i < j < |s| ==> key(s[i]) < key(s[j])
    ensures forall i, j :: 0 <= i < j < |Filter(s, p)| ==> key(Filter(s, p)[i]) < key(Filter(s, p)[j])
  {
    if |s| > 0 {
      FilterKeepsIncreasing(s[1..], key, p);
      FilterCons(s, p);
      var rest := Filter(s[1..], p);
      forall k | 0 <= k < |rest| ensures key(s[0]) < key(rest[k]) {
        var j :| 0 <= j < |s[1..]| && s[1..][j] == rest[k];
        assert s[j + 1] == rest[k];
      }
    }
  }

  /** Every element a selection holds sits at some position of the input. */
  lemma FilterFrom<T>(s: seq<T>, p: T -> bool, i: nat)
    requires i < |Filter(s, p)|
    ensures exists j :: 0 <= j < |s| && s[j] == Filter(s, p)[i] && p(s[j])
  {
    assert Filter(s, p)[i] in s;
  }

  // ------------------------------------------------------------ duplicates

  /** No element occurs twice. */
  predicate Distinct<T(==)>(s: seq<T>)
  {
    forall i, j :: 0 <= i < j < |s| ==> s[i] != s[j]
  }

  /** `drop_duplicates()`: the first occurrence of each distinct element, in order. */
  function Dedup<T(==)>(s: seq<T>): (r: seq<T>)
    ensures |r| <= |s|
    ensures forall i :: 0 <= i < |s| ==> s[i] in r
    ensures forall i :: 0 <= i < |r| ==> r[i] in s
    ensures Distinct(r)
  {
    if |s| == 0 then []
    else
      var init, last := s[..|s| - 1], s[|s| - 1];
      var d := Dedup(init);
      assert forall i :: 0 <= i < |init| ==> init[i] == s[i];
      if last in init then d else d + [last]
  }

  /** The position of the first occurrence of `x` in `s`. */
  function FirstIndex<T(==)>(s: seq<T>, x: T): (k: nat)
    requires x in s
    ensures k < |s| && s[k] == x && x !in s[..k]
  {
    if s[0] == x then 0
    else
      var k := FirstIndex(s[1..], x);
      assert s[..k + 1] == [s[0]] + s[1..][..k];
      k + 1
  }

  /**
   * `drop_duplicates()` keeps the first occurrence of each element and the
   * order of those first occurrences: an element stands before another in
   * the result exactly when it first occurs before it in the input.
   */
  lemma {:induction false} DedupOrder<T>(s: seq<T>)
    ensures forall i, j :: 0 <= i < j < |Dedup(s)| ==> FirstIndex(s, Dedup(s)[i]) < FirstIndex(s, Dedup(s)[j])
  {
    if |s| > 0 {
      var init, last := s[..|s| - 1], s[|s| - 1];
      DedupOrder(init);
      var d := Dedup(init);
      assert init + [last] == s;
      forall x | x in init ensures FirstIndex(s, x) == FirstIndex(init, x) {
        var k := FirstIndex(init, x);
        assert s[..k] == init[..k];
      }
      if last !in init {
        assert FirstIndex(s, last) == |s| - 1;
      }
    }
  }

  /** A sequence without duplicates is left as it is. */
  lemma {:induction false} DedupDistinct<T>(s: seq<T>)
    requires Distinct(s)
    ensures Dedup(s) == s
  {
    if |s| > 0 {
      var init := s[..|s| - 1];
      DedupDistinct(init);
      assert s[|s| - 1] !in init;
      assert init + [s[|s| - 1]] == s;
    }
  }

  /** Dropping duplicates twice drops nothing more. */
  lemma DedupIdempotent<T>(s: seq<T>)
    ensures Dedup(Dedup(s)) == Dedup(s)
  {
    DedupDistinct(Dedup(s));
  }
}
