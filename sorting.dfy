/** `ORDER BY key DESC` over a sequence of rows, as the listing and
    popular-items queries use it.  SQL fixes no order among equal keys, so the
    contract is "a permutation, sorted by the key, largest first". */
module Sorting {

  predicate SortedDesc<T>(s: seq<T>, key: T -> int) {
    forall i, j :: 0 <= i < j < |s| ==> key(s[i]) >= key(s[j])
  }

  /** Insertion of one row in front of the first row with a key not above its own. */
  function InsertDesc<T>(x: T, s: seq<T>, key: T -> int): (r: seq<T>)
    ensures multiset(r) == multiset(s) + multiset{x}
    ensures |r| == |s| + 1
  {
    if s == [] then
      [x]
    else if key(x) >= key(s[0]) then
      [x] + s
    else
      assert s == [s[0]] + s[1..];
      [s[0]] + InsertDesc(x, s[1..], key)
  }

  /** Insertion keeps a sequence sorted. */
  lemma {:induction false} InsertDescSorted<T>(x: T, s: seq<T>, key: T -> int)
    requires SortedDesc(s, key)
    ensures SortedDesc(InsertDesc(x, s, key), key)
  {
    if s != [] && key(x) < key(s[0]) {
      var tail := InsertDesc(x, s[1..], key);
      InsertDescSorted(x, s[1..], key);
      var r := [s[0]] + tail;
      assert InsertDesc(x, s, key) == r;
      forall j | 0 < j < |r| ensures key(r[0]) >= key(r[j]) {
        assert r[j] == tail[j - 1];
        assert r[j] in multiset(tail);
        if r[j] != x {
          assert r[j] in multiset(s[1..]);
          var k :| 0 <= k < |s[1..]| && s[1..][k] == r[j];
          assert s[k + 1] == r[j];
        }
      }
    }
  }

  /** Insertion sort: the rows of `s` rearranged, largest key first. */
  function SortDesc<T>(s: seq<T>, key: T -> int): (r: seq<T>)
    ensures multiset(r) == multiset(s)
    ensures |r| == |s|
    ensures SortedDesc(r, key)
  {
    if s == [] then
      []
    else
      assert s == [s[0]] + s[1..];
      var sortedTail := SortDesc(s[1..], key);
      InsertDescSorted(s[0], sortedTail, key);
      InsertDesc(s[0], sortedTail, key)
  }
}
