/**
 * The groups `groupby` forms: one per distinct key, listed in sorted key
 * order, with rows whose key is missing left out (`dropna=True`).
 */
module Groups {
  import opened Wrappers
  import Text

  /** The distinct text keys of `s`, in sorted order. */
  function Keys<T>(s: seq<T>, key: T -> Option<string>): (ks: seq<string>)
    ensures Text.StrictlySorted(ks)
    ensures forall k :: k in ks <==> exists i :: 0 <= i < |s| && key(s[i]) == Some(k)
  {
    if |s| == 0 then []
    else
      var init := s[..|s| - 1];
      var ks := Keys(init, key);
      var last := key(s[|s| - 1]);
      var r := if last.Some? then Text.Insert(ks, last.value) else ks;
      assert forall k :: k in r <==> exists i :: 0 <= i < |s| && key(s[i]) == Some(k) by {
        forall k ensures k in r <==> exists i :: 0 <= i < |s| && key(s[i]) == Some(k) {
          if k in r && k in ks {
            var i :| 0 <= i < |init| && key(init[i]) == Some(k);
            assert s[i] == init[i];
          }
          if exists i :: 0 <= i < |s| && key(s[i]) == Some(k) {
            var i :| 0 <= i < |s| && key(s[i]) == Some(k);
            if i < |init| {
              assert init[i] == s[i];
            }
          }
        }
      }
      r
  }

  /** Day numbers in strictly increasing order. */
  predicate Increasing(ks: seq<int>)
  {
    forall i, j :: 0 <= i < j < |ks| ==> ks[i] < ks[j]
  }

  function InsertDay(ks: seq<int>, k: int): (r: seq<int>)
    requires Increasing(ks)
    ensures Increasing(r)
    ensures forall x :: x in r <==> x in ks || x == k
  {
    if |ks| == 0 then [k]
    else if k == ks[0] then ks
    else if k < ks[0] then [k] + ks
    else
      var rest := InsertDay(ks[1..], k);
      forall i | 0 <= i < |rest| ensures ks[0] < rest[i] {
        assert rest[i] in rest;
        if rest[i] != k {
          assert rest[i] in ks[1..];
          var j :| 0 <= j < |ks[1..]| && ks[1..][j] == rest[i];
          assert ks[j + 1] == rest[i];
        }
      }
      var r := [ks[0]] + rest;
      assert forall i :: 0 < i < |r| ==> r[i] == rest[i - 1];
      r
  }

  /** The distinct day keys of `s`, in increasing order. */
  function DayKeys<T>(s: seq<T>, key: T -> Option<int>): (ks: seq<int>)
    ensures Increasing(ks)
    ensures forall k :: k in ks <==> exists i :: 0 <= i < |s| && key(s[i]) == Some(k)
  {
    if |s| == 0 then []
    else
      var init := s[..|s| - 1];
      var ks := DayKeys(init, key);
      var last := key(s[|s| - 1]);
      var r := if last.Some? then InsertDay(ks, last.value) else ks;
      assert forall k :: k in r <==> exists i :: 0 <= i < |s| && key(s[i]) == Some(k) by {
        forall k ensures k in r <==> exists i :: 0 <= i < |s| && key(s[i]) == Some(k) {
          if k in r && k in ks {
            var i :| 0 <= i < |init| && key(init[i]) == Some(k);
            assert s[i] == init[i];
          }
          if exists i :: 0 <= i < |s| && key(s[i]) == Some(k) {
            var i :| 0 <= i < |s| && key(s[i]) == Some(k);
            if i < |init| {
              assert init[i] == s[i];
            }
          }
        }
      }
      r
  }
}
