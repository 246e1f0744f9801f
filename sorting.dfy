/**
 * The orderings the dashboard's tables come out in: pandas' `sort_values`,
 * `nlargest` and `nsmallest` (keep='first') over a numeric column.
 *
 * The sort is an insertion sort that places each element after every
 * element whose key is at least as large, so equal keys keep their input
 * order; `nlargest(n)` is then its first n elements.
 */
module Sorting {

  predicate SortedDesc<T>(s: seq<T>, key: T -> real)
  {
    forall i, j :: 0 <= i < j < |s| ==> key(s[i]) >= key(s[j])
  }

  function InsertDesc<T(==)>(s: seq<T>, x: T, key: T -> real): (r: seq<T>)
    requires SortedDesc(s, key)
    ensures SortedDesc(r, key)
    ensures multiset(r) == multiset(s) + multiset{x}
    ensures forall y :: y in r ==> y in s || y == x
  {
    if |s| == 0 then [x]
    else if key(s[0]) >= key(x) then
      var rest := InsertDesc(s[1..], x, key);
      PrependDesc(s, x, rest, key);
      assert s == [s[0]] + s[1..];
      [s[0]] + rest
    else
      [x] + s
  }

  lemma PrependDesc<T>(s: seq<T>, x: T, rest: seq<T>, key: T -> real)
    requires |s| > 0 && SortedDesc(s, key) && SortedDesc(rest, key) && key(s[0]) >= key(x)
    requires forall y :: y in rest ==> y in s[1..] || y == x
    ensures SortedDesc([s[0]] + rest, key)
  {
    forall k | 0 <= k < |rest| ensures key(s[0]) >= key(rest[k]) {
      assert rest[k] in rest;
      if rest[k] != x {
        assert rest[k] in s[1..];
        var j :| 0 <= j < |s[1..]| && s[1..][j] == rest[k];
        assert s[j + 1] == rest[k];
      }
    }
  }

  /** A stable sort, largest key first. */
  function SortDesc<T(==)>(s: seq<T>, key: T -> real): (r: seq<T>)
    ensures SortedDesc(r, key)
    ensures multiset(r) == multiset(s)
    ensures |r| == |s|
  {
    if |s| == 0 then []
    else
      var init, last := s[..|s| - 1], s[|s| - 1];
      assert s == init + [last];
      assert multiset(s) == multiset(init) + multiset{last};
      InsertDesc(SortDesc(init, key), last, key)
  }

  /** `head(n)` */
  function Take<T>(s: seq<T>, n: nat): (r: seq<T>)
    ensures |r| == if n < |s| then n else |s|
    ensures r == s[..|r|]
  {
    if n < |s| then s[..n] else s
  }

  /** `head(n)` of a descending sequence: still descending, and nothing after it ranks higher. */
  lemma TakeOfSorted<T>(s: seq<T>, n: nat, key: T -> real)
    requires SortedDesc(s, key)
    ensures SortedDesc(Take(s, n), key)
    ensures forall i, j :: 0 <= i < |Take(s, n)| <= j < |s| ==> key(Take(s, n)[i]) >= key(s[j])
  {
  }

  /** `head(n)` gives the first min(n, |s|) elements. */
  lemma TakeIsPrefix<T>(s: seq<T>, n: nat)
    ensures |Take(s, n)| == (if n < |s| then n else |s|)
    ensures forall i :: 0 <= i < |Take(s, n)| ==> Take(s, n)[i] == s[i]
  {
  }

  /** `nlargest(n, key)`: the first n elements of the descending sort. */
  function Largest<T(==)>(s: seq<T>, n: nat, key: T -> real): seq<T>
  {
    Take(SortDesc(s, key), n)
  }

  /**
   * What `nlargest` promises: at most n elements, largest first, drawn from
   * the input, and nothing left out has a larger key than anything kept.
   */
  lemma {:induction false} LargestIsTop<T>(s: seq<T>, n: nat, key: T -> real)
    ensures |Largest(s, n, key)| == if n < |s| then n else |s|
    ensures SortedDesc(Largest(s, n, key), key)
    ensures multiset(Largest(s, n, key)) <= multiset(s)
    ensures forall y, i :: y in multiset(s) - multiset(Largest(s, n, key)) && 0 <= i < |Largest(s, n, key)|
              ==> key(Largest(s, n, key)[i]) >= key(y)
  {
    var sorted := SortDesc(s, key);
    var r := Largest(s, n, key);
    var rest := sorted[|r|..];
    assert sorted == r + rest;
    assert multiset(sorted) == multiset(r) + multiset(rest);
    RestRanksLower(sorted, |r|, key);
  }

  lemma RestRanksLower<T>(sorted: seq<T>, k: nat, key: T -> real)
    requires SortedDesc(sorted, key) && k <= |sorted|
    ensures forall y, i :: y in multiset(sorted[k..]) && 0 <= i < k ==> key(sorted[i]) >= key(y)
  {
    forall y, i | y in multiset(sorted[k..]) && 0 <= i < k
      ensures key(sorted[i]) >= key(y)
    {
      var j :| 0 <= j < |sorted[k..]| && sorted[k..][j] == y;
      assert sorted[k + j] == y;
    }
  }

  /** Everything `nlargest` returns is drawn from the input. */
  lemma LargestMembers<T>(s: seq<T>, n: nat, key: T -> real)
    ensures forall y :: y in Largest(s, n, key) ==> y in s
  {
    var r := Largest(s, n, key);
    LargestIsTop(s, n, key);
    forall y | y in r ensures y in s {
      assert y in multiset(r);
      assert y in multiset(s);
    }
  }

  /** Sorting keeps exactly the same elements. */
  lemma SortDescMembers<T>(s: seq<T>, key: T -> real)
    ensures forall x :: x in SortDesc(s, key) <==> x in s
  {
    var r := SortDesc(s, key);
    forall x ensures x in r <==> x in s {
      assert x in r <==> x in multiset(r);
      assert x in s <==> x in multiset(s);
    }
  }

  /** `idxmax()`: the first position holding the largest value. */
  function ArgMax(xs: seq<real>): (i: nat)
    requires |xs| > 0
    ensures i < |xs|
    ensures forall j :: 0 <= j < |xs| ==> xs[j] <= xs[i]
    ensures forall j :: 0 <= j < i ==> xs[j] < xs[i]
  {
    if |xs| == 1 then 0
    else
      var k := ArgMax(xs[..|xs| - 1]);
      assert forall j :: 0 <= j < |xs| - 1 ==> xs[..|xs| - 1][j] == xs[j];
      if xs[|xs| - 1] > xs[k] then |xs| - 1 else k
  }

  // ------------------------------------------------------------ quantiles

  function Negated(x: real): real
  {
    -x
  }

  predicate Ascending(s: seq<real>)
  {
    forall i, j :: 0 <= i <= j < |s| ==> s[i] <= s[j]
  }

  /** Sorting by the negated value sorts ascending. */
  lemma SortAscending(xs: seq<real>)
    ensures Ascending(SortDesc(xs, Negated))
  {
    var s := SortDesc(xs, Negated);
    assert SortedDesc(s, Negated);
    forall i, j | 0 <= i <= j < |s| ensures s[i] <= s[j] {
      if i < j {
        assert Negated(s[i]) >= Negated(s[j]);
      }
    }
    assert Ascending(s);
  }

  /** The fractional position `(n - 1) * q` lands on a valid index. */
  lemma ScaledIndex(n: nat, q: real)
    requires 0.0 <= q <= 1.0
    ensures 0.0 <= n as real * q <= n as real
  {
    MulNonNegative(n as real, q);
    MulNonNegative(n as real, 1.0 - q);
  }

  /** The point at fraction t of the way from a to b. */
  function Lerp(a: real, b: real, t: real): real
  {
    a + t * (b - a)
  }

  /** Interpolating at a fraction in [0, 1) between a and b stays between them. */
  lemma Between(a: real, b: real, t: real)
    requires a <= b && 0.0 <= t < 1.0
    ensures a <= Lerp(a, b, t) <= b
  {
    MulNonNegative(1.0 - t, b - a);
    MulNonNegative(t, b - a);
  }

  lemma MulNonNegative(x: real, y: real)
    requires x >= 0.0 && y >= 0.0
    ensures x * y >= 0.0
  {
  }

  /** The value at fractional position h of the ascending values s, interpolated linearly. */
  function Interpolate(s: seq<real>, h: real): real
    requires 0.0 <= h <= (|s| - 1) as real
  {
    var lo := h.Floor;
    if lo + 1 < |s| then Lerp(s[lo], s[lo + 1], h - lo as real) else s[lo]
  }

  /** Between the values at the two positions around h. */
  lemma InterpolateNeighbours(s: seq<real>, h: real)
    requires 0.0 <= h <= (|s| - 1) as real
    requires Ascending(s)
    ensures s[h.Floor] <= Interpolate(s, h)
    ensures h.Floor + 1 < |s| ==> Interpolate(s, h) <= s[h.Floor + 1]
    ensures h.Floor + 1 == |s| ==> Interpolate(s, h) == s[h.Floor]
  {
    var lo := h.Floor;
    if lo + 1 < |s| {
      assert s[lo] <= s[lo + 1];
      Between(s[lo], s[lo + 1], h - lo as real);
    }
  }

  /** Between the first and the last of ascending values. */
  lemma InterpolateBounds(s: seq<real>, h: real)
    requires 0.0 <= h <= (|s| - 1) as real
    requires Ascending(s)
    ensures s[0] <= Interpolate(s, h) <= s[|s| - 1]
  {
    var lo := h.Floor;
    InterpolateNeighbours(s, h);
    assert s[0] <= s[lo];
    if lo + 1 < |s| {
      assert s[lo + 1] <= s[|s| - 1];
    }
  }

  /** `sort_values()` on numbers: ascending, the same values, so it starts and ends with input values. */
  function SortAsc(xs: seq<real>): (s: seq<real>)
    ensures |s| == |xs| && Ascending(s) && multiset(s) == multiset(xs)
    ensures |xs| > 0 ==> s[0] in xs && s[|xs| - 1] in xs
  {
    SortAscending(xs);
    var s := SortDesc(xs, Negated);
    assert |xs| > 0 ==> s[0] in multiset(xs) && s[|xs| - 1] in multiset(xs);
    s
  }

  /** The fractional position `n * q` of the q-quantile among n + 1 sorted values. */
  function Scaled(n: nat, q: real): (h: real)
    requires 0.0 <= q <= 1.0
    ensures 0.0 <= h <= n as real
  {
    ScaledIndex(n, q);
    n as real * q
  }

  /** The whole part of the fractional position: a position in [0, n]. */
  function Position(n: nat, q: real): (k: nat)
    requires 0.0 <= q <= 1.0
    ensures k <= n
  {
    Scaled(n, q).Floor
  }

  /**
   * `s.quantile(q)` with linear interpolation between the sorted values: it
   * lies between the sorted values at positions ⌊h⌋ and ⌊h⌋ + 1, where
   * h = (n - 1) q, equals the value at ⌊h⌋ when that is the last position,
   * and so lies between the smallest and the largest value.
   */
  function Quantile(xs: seq<real>, q: real): (r: real)
    requires |xs| > 0 && 0.0 <= q <= 1.0
    ensures var s := SortAsc(xs);
            var lo := Position(|xs| - 1, q);
            s[lo] <= r &&
            (lo + 1 < |xs| ==> r <= s[lo + 1]) &&
            (lo + 1 == |xs| ==> r == s[lo])
    ensures exists x :: x in xs && x >= r
    ensures exists x :: x in xs && x <= r
  {
    QuantileNeighbours(xs, q);
    QuantileRange(xs, q);
    Interpolate(SortAsc(xs), Scaled(|xs| - 1, q))
  }

  lemma QuantileNeighbours(xs: seq<real>, q: real)
    requires |xs| > 0 && 0.0 <= q <= 1.0
    ensures var s := SortAsc(xs);
            var r := Interpolate(s, Scaled(|xs| - 1, q));
            var lo := Position(|xs| - 1, q);
            s[lo] <= r &&
            (lo + 1 < |xs| ==> r <= s[lo + 1]) &&
            (lo + 1 == |xs| ==> r == s[lo])
  {
    InterpolateNeighbours(SortAsc(xs), Scaled(|xs| - 1, q));
  }

  lemma QuantileRange(xs: seq<real>, q: real)
    requires |xs| > 0 && 0.0 <= q <= 1.0
    ensures var s := SortAsc(xs);
            var r := Interpolate(s, Scaled(|xs| - 1, q));
            s[0] <= r <= s[|xs| - 1]
  {
    InterpolateBounds(SortAsc(xs), Scaled(|xs| - 1, q));
  }
}
