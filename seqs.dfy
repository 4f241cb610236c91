/** Sequence helpers for the in-memory tables of the store: first-match lookup,
    removal at an index, and uniqueness of a key column. */
module Seqs {

  datatype Option<+T> = None | Some(value: T)

  /** Index of the first element satisfying `p`, as a store query that returns a
      list yields when the caller keeps only its head (`const [x] = ...`). */
  function FirstIndex<T>(s: seq<T>, p: T -> bool): (r: Option<nat>)
    ensures r.Some? ==> r.value < |s| && p(s[r.value])
    ensures r.Some? ==> forall j :: 0 <= j < r.value ==> !p(s[j])
    ensures r.None? ==> forall j :: 0 <= j < |s| ==> !p(s[j])
  {
    if |s| == 0 then None
    else if p(s[0]) then Some(0)
    else
      match FirstIndex(s[1..], p)
      case None => None
      case Some(k) => Some(k + 1)
  }

  /** The table without the row at index `k`. */
  function Remove<T>(s: seq<T>, k: nat): (r: seq<T>)
    requires k < |s|
    ensures |r| == |s| - 1
    ensures forall j :: 0 <= j < k ==> r[j] == s[j]
    ensures forall j :: k <= j < |r| ==> r[j] == s[j + 1]
  {
    s[..k] + s[k + 1..]
  }

  /** No two rows share a value in the column `key`. */
  ghost predicate DistinctKeys<T, K>(s: seq<T>, key: T -> K) {
    forall i, j :: 0 <= i < j < |s| ==> key(s[i]) != key(s[j])
  }

  /** With a unique key, at most one row carries a given key value. */
  lemma KeyDeterminesIndex<T, K>(s: seq<T>, key: T -> K, i: nat, j: nat)
    requires DistinctKeys(s, key) && i < |s| && j < |s|
    requires key(s[i]) == key(s[j])
    ensures i == j
  {
  }

  /** Deleting the row at `k` from a table with a unique key keeps the key unique
      and deletes exactly the rows with that row's key: every other row stays. */
  lemma RemoveByKey<T, K>(s: seq<T>, key: T -> K, k: nat)
    requires k < |s| && DistinctKeys(s, key)
    ensures DistinctKeys(Remove(s, k), key)
    ensures forall x :: x in Remove(s, k) <==> x in s && key(x) != key(s[k])
  {
    var r := Remove(s, k);
    forall i, j | 0 <= i < j < |r| ensures key(r[i]) != key(r[j]) {
      var i' := if i < k then i else i + 1;
      var j' := if j < k then j else j + 1;
      assert r[i] == s[i'] && r[j] == s[j'] && i' < j';
    }
    forall x ensures x in r <==> x in s && key(x) != key(s[k]) {
      if x in r {
        var j :| 0 <= j < |r| && r[j] == x;
        var j' := if j < k then j else j + 1;
        assert s[j'] == x && j' != k;
        if key(x) == key(s[k]) {
          KeyDeterminesIndex(s, key, j', k);
        }
      }
      if x in s && key(x) != key(s[k]) {
        var j :| 0 <= j < |s| && s[j] == x;
        assert j != k;
        if j < k {
          assert r[j] == x;
        } else {
          assert r[j - 1] == x;
        }
      }
    }
  }

  /** Replacing a row by one with the same key keeps the key unique. */
  lemma UpdateByKey<T, K>(s: seq<T>, key: T -> K, k: nat, x: T)
    requires k < |s| && DistinctKeys(s, key) && key(x) == key(s[k])
    ensures DistinctKeys(s[k := x], key)
  {
    var r := s[k := x];
    forall i, j | 0 <= i < j < |r| ensures key(r[i]) != key(r[j]) {
      assert key(r[i]) == key(s[i]) && key(r[j]) == key(s[j]);
    }
  }

  /** Appending a row whose key no row carries keeps the key unique. */
  lemma AppendFreshKey<T, K>(s: seq<T>, key: T -> K, x: T)
    requires DistinctKeys(s, key)
    requires forall j :: 0 <= j < |s| ==> key(s[j]) != key(x)
    ensures DistinctKeys(s + [x], key)
  {
    var r := s + [x];
    forall i, j | 0 <= i < j < |r| ensures key(r[i]) != key(r[j]) {
      assert r[i] == s[i];
      if j < |s| {
        assert r[j] == s[j];
      }
    }
  }
}
