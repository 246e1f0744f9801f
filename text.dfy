/**
 * Python's ordering of `str` values (lexicographic by code point), which
 * pandas' `groupby` uses to order its group keys, and the sorted key lists
 * built from it.
 */
module Text {

  /** `a < b` on Python strings. */
  predicate Less(a: string, b: string)
  {
    if |b| == 0 then false
    else if |a| == 0 then true
    else if a[0] != b[0] then a[0] < b[0]
    else Less(a[1..], b[1..])
  }

  lemma {:induction false} LessIrreflexive(a: string)
    ensures !Less(a, a)
  {
    if |a| > 0 {
      LessIrreflexive(a[1..]);
    }
  }

  lemma {:induction false} LessAsymmetric(a: string, b: string)
    requires Less(a, b)
    ensures !Less(b, a)
  {
    if |a| > 0 && |b| > 0 && a[0] == b[0] {
      LessAsymmetric(a[1..], b[1..]);
    }
  }

  lemma {:induction false} LessTotal(a: string, b: string)
    ensures a == b || Less(a, b) || Less(b, a)
  {
    if |a| > 0 && |b| > 0 && a[0] == b[0] {
      LessTotal(a[1..], b[1..]);
      if a[1..] == b[1..] {
        assert a == [a[0]] + a[1..] && b == [b[0]] + b[1..];
      }
    }
  }

  lemma {:induction false} LessTransitive(a: string, b: string, c: string)
    requires Less(a, b) && Less(b, c)
    ensures Less(a, c)
  {
    if |a| > 0 && a[0] == b[0] && b[0] == c[0] {
      LessTransitive(a[1..], b[1..], c[1..]);
    }
  }

  /** `s.startswith(prefix)` */
  predicate StartsWith(s: string, prefix: string)
  {
    |prefix| <= |s| && s[..|prefix|] == prefix
  }

  /** Group keys in the order pandas reports them: ascending, each once. */
  predicate StrictlySorted(ks: seq<string>)
  {
    forall i, j :: 0 <= i < j < |ks| ==> Less(ks[i], ks[j])
  }

  /** Add a key to a sorted key list, keeping it sorted and free of repeats. */
  function Insert(ks: seq<string>, k: string): (r: seq<string>)
    requires StrictlySorted(ks)
    ensures StrictlySorted(r)
    ensures forall x :: x in r <==> x in ks || x == k
    ensures |r| <= |ks| + 1
  {
    if |ks| == 0 then [k]
    else if k == ks[0] then ks
    else if Less(k, ks[0]) then
      assert forall j :: 0 <= j < |ks| ==> Less(k, ks[j]) by {
        forall j | 0 <= j < |ks| ensures Less(k, ks[j]) {
          if j > 0 { LessTransitive(k, ks[0], ks[j]); }
        }
      }
      [k] + ks
    else
      LessTotal(k, ks[0]);
      var rest := Insert(ks[1..], k);
      assert forall x :: x in rest ==> Less(ks[0], x);
      [ks[0]] + rest
  }

  lemma {:induction false} StrictlySortedDistinct(ks: seq<string>, i: nat, j: nat)
    requires StrictlySorted(ks) && i < |ks| && j < |ks| && i != j
    ensures ks[i] != ks[j]
  {
    if i < j { LessIrreflexive(ks[i]); } else { LessIrreflexive(ks[j]); }
  }
}
