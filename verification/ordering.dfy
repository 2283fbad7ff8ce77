/**
  Sorting by an integer key, newest first, as the document store does for
  `.sort({ field: -1 })`, and the reversal the history route applies after it.
*/
module Ordering {

  predicate SortedDesc<T>(s: seq<T>, key: T -> int) {
    forall i, j :: 0 <= i < j < |s| ==> key(s[i]) >= key(s[j])
  }

  predicate SortedAsc<T>(s: seq<T>, key: T -> int) {
    forall i, j :: 0 <= i < j < |s| ==> key(s[i]) <= key(s[j])
  }

  function InsertDesc<T>(x: T, s: seq<T>, key: T -> int): (r: seq<T>)
    requires SortedDesc(s, key)
    ensures |r| == |s| + 1 && multiset(r) == multiset(s) + multiset{x}
    ensures SortedDesc(r, key)
    ensures r[0] == x || (|s| > 0 && r[0] == s[0])
  {
    if |s| == 0 then [x]
    else if key(x) >= key(s[0]) then [x] + s
    else
      var tail := InsertDesc(x, s[1..], key);
      assert s == [s[0]] + s[1..];
      assert key(s[0]) >= key(tail[0]);
      [s[0]] + tail
  }

  /** Insertion sort, newest (largest key) first. */
  function SortDesc<T>(s: seq<T>, key: T -> int): (r: seq<T>)
    ensures |r| == |s| && multiset(r) == multiset(s)
    ensures SortedDesc(r, key)
  {
    if |s| == 0 then []
    else
      assert s == [s[0]] + s[1..];
      InsertDesc(s[0], SortDesc(s[1..], key), key)
  }

  function Reverse<T>(s: seq<T>): (r: seq<T>)
    ensures |r| == |s| && forall i :: 0 <= i < |s| ==> r[i] == s[|s| - 1 - i]
  {
    if |s| == 0 then [] else Reverse(s[1..]) + [s[0]]
  }

  lemma ReverseMultiset<T>(s: seq<T>)
    ensures multiset(Reverse(s)) == multiset(s)
  {
    if |s| > 0 {
      ReverseMultiset(s[1..]);
      assert s == [s[0]] + s[1..];
    }
  }

  /** Reversing a newest-first sequence gives an oldest-first one. */
  lemma ReverseSortedDesc<T>(s: seq<T>, key: T -> int)
    requires SortedDesc(s, key)
    ensures SortedAsc(Reverse(s), key)
  {
  }

  lemma LeftOverIsInSuffix<T>(s: seq<T>, k: nat, x: T)
    requires k <= |s| && x in multiset(s) - multiset(s[..k])
    ensures x in s[k..]
  {
    assert s == s[..k] + s[k..];
    assert multiset(s) == multiset(s[..k]) + multiset(s[k..]);
    assert x in multiset(s[k..]);
  }

  /** Cutting a newest-first sequence keeps the newest: nothing cut off is newer than anything kept. */
  lemma PrefixKeepsLargest<T>(s: seq<T>, key: T -> int, k: nat)
    requires SortedDesc(s, key) && k <= |s|
    ensures forall x, y :: x in multiset(s) - multiset(s[..k]) && y in s[..k] ==> key(x) <= key(y)
  {
    forall x, y | x in multiset(s) - multiset(s[..k]) && y in s[..k]
      ensures key(x) <= key(y)
    {
      LeftOverIsInSuffix(s, k, x);
      var j :| 0 <= j < |s[k..]| && s[k..][j] == x;
      var i :| 0 <= i < k && s[..k][i] == y;
      assert s[i] == y && s[k + j] == x;
    }
  }
}
