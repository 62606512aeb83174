/**
 * Python's `dict` as this program uses it: keys are unique and iteration
 * follows insertion order. Assigning to a key that is already present keeps
 * its position; deleting a key closes the gap.
 */
module Dict {
  import opened Maybe

  datatype Pair<K, V> = Pair(key: K, val: V)

  /** No key occurs twice. */
  predicate DistinctKeys<K(==), V>(s: seq<Pair<K, V>>) {
    forall i, j :: 0 <= i < j < |s| ==> s[i].key != s[j].key
  }

  /** An insertion-ordered dictionary. */
  type Dict<K(==), V> = s: seq<Pair<K, V>> | DistinctKeys(s) witness []

  /** The keys in iteration order (`list(d.keys())`). */
  function Keys<K(==), V>(s: seq<Pair<K, V>>): (ks: seq<K>)
    ensures |ks| == |s|
    ensures forall i :: 0 <= i < |s| ==> ks[i] == s[i].key
  {
    seq(|s|, i requires 0 <= i < |s| => s[i].key)
  }

  function KeySet<K(==), V>(s: seq<Pair<K, V>>): set<K> {
    set i | 0 <= i < |s| :: s[i].key
  }

  /** Position of `k`, or `|s|` when `k` is not a key. */
  function IndexOf<K(==), V>(s: seq<Pair<K, V>>, k: K): (i: nat)
    ensures i <= |s|
    ensures i < |s| ==> s[i].key == k
    ensures forall j :: 0 <= j < i ==> s[j].key != k
    ensures i == |s| <==> k !in KeySet(s)
  {
    if s == [] then 0
    else if s[0].key == k then 0
    else
      var i := 1 + IndexOf(s[1..], k);
      assert k in KeySet(s) ==> k in KeySet(s[1..]) by {
        if k in KeySet(s) {
          var j :| 0 <= j < |s| && s[j].key == k;
          assert s[1..][j - 1].key == k;
        }
      }
      i
  }

  /** `d.get(k)`. */
  function Get<K(==), V>(d: Dict<K, V>, k: K): (r: Option<V>)
    ensures r.Some? <==> k in KeySet(d)
    ensures r.Some? ==> Pair(k, r.value) in d
  {
    var i := IndexOf(d, k);
    if i < |d| then Some(d[i].val) else None
  }

  /** In a dictionary a key has at most one entry, so `Get` is decided by membership. */
  lemma GetIsMembership<K, V>(d: Dict<K, V>, k: K, v: V)
    ensures Get(d, k) == Some(v) <==> Pair(k, v) in d
  {
    if Pair(k, v) in d {
      var j :| 0 <= j < |d| && d[j] == Pair(k, v);
      assert k in KeySet(d);
      var i :| 0 <= i < |d| && d[i] == Pair(k, Get(d, k).value);
      assert i == j;
    }
  }

  /** Two dictionaries holding the same entries for `k` agree on `Get(_, k)`. */
  lemma GetBySameEntries<K, V>(d: Dict<K, V>, r: Dict<K, V>, k: K)
    requires forall v :: Pair(k, v) in d <==> Pair(k, v) in r
    ensures Get(r, k) == Get(d, k)
  {
    if Get(d, k).Some? {
      GetIsMembership(d, k, Get(d, k).value);
      GetIsMembership(r, k, Get(d, k).value);
    } else if Get(r, k).Some? {
      GetIsMembership(r, k, Get(r, k).value);
      GetIsMembership(d, k, Get(r, k).value);
    }
  }

  /** `d[k] = v`: overwrites in place when `k` is present, appends otherwise. */
  function Put<K(==,!new), V>(d: Dict<K, V>, k: K, v: V): (r: Dict<K, V>)
    ensures KeySet(r) == KeySet(d) + {k}
    ensures Get(r, k) == Some(v)
    ensures forall k' :: k' != k ==> Get(r, k') == Get(d, k')
    ensures k in KeySet(d) ==> Keys(r) == Keys(d)
    ensures k !in KeySet(d) ==> r == d + [Pair(k, v)]
  {
    var i := IndexOf(d, k);
    var r: seq<Pair<K, V>> := if i < |d| then d[i := Pair(k, v)] else d + [Pair(k, v)];
    assert forall j :: 0 <= j < |d| && j != i ==> r[j] == d[j];
    assert r[i] == Pair(k, v);
    assert forall j :: 0 <= j < |r| ==> j == i || r[j] == d[j];
    assert DistinctKeys(r);
    assert KeySet(r) == KeySet(d) + {k} by {
      forall x | x in KeySet(d) ensures x in KeySet(r) {
        var j :| 0 <= j < |d| && d[j].key == x;
        assert r[j].key == x;
      }
    }
    assert i < |d| ==> Keys(r) == Keys(d);
    GetIsMembership(r, k, v);
    forall k' | k' != k ensures Get(r, k') == Get(d, k') {
      forall w ensures Pair(k', w) in d <==> Pair(k', w) in r {
        if Pair(k', w) in d {
          var j :| 0 <= j < |d| && d[j] == Pair(k', w);
          assert r[j] == d[j];
        }
      }
      GetBySameEntries(d, r, k');
    }
    r
  }

  /** `del d[k]` when `k` is a key; `d` itself otherwise. */
  function Delete<K(==,!new), V>(d: Dict<K, V>, k: K): (r: Dict<K, V>)
    ensures KeySet(r) == KeySet(d) - {k}
    ensures Get(r, k) == None
    ensures forall k' :: k' != k ==> Get(r, k') == Get(d, k')
    ensures var i := IndexOf(d, k); r == d[..i] + if i < |d| then d[i + 1..] else []
  {
    var i := IndexOf(d, k);
    if i == |d| then d
    else
      var r := d[..i] + d[i + 1..];
      assert forall j :: 0 <= j < i ==> r[j] == d[j];
      assert forall j :: i <= j < |r| ==> r[j] == d[j + 1];
      assert DistinctKeys(r);
      assert KeySet(r) == KeySet(d) - {k} by {
        forall x | x in KeySet(d) - {k} ensures x in KeySet(r) {
          var j :| 0 <= j < |d| && d[j].key == x;
          if j < i { assert r[j].key == x; } else { assert r[j - 1].key == x; }
        }
      }
      forall k' | k' != k ensures Get(r, k') == Get(d, k') {
        forall w ensures Pair(k', w) in d <==> Pair(k', w) in r {
          if Pair(k', w) in d {
            var j :| 0 <= j < |d| && d[j] == Pair(k', w);
            if j < i { assert r[j] == d[j]; } else { assert r[j - 1] == d[j]; }
          }
        }
        GetBySameEntries(d, r, k');
      }
      r
  }

  /** The entries after `d[k] = v`: the new entry for `k`, and every old entry for another key. */
  lemma PutEntries<K(!new), V>(d: Dict<K, V>, k: K, v: V)
    ensures forall p :: p in Put(d, k, v) <==> p == Pair(k, v) || (p in d && p.key != k)
  {
    var r := Put(d, k, v);
    forall p ensures p in r <==> p == Pair(k, v) || (p in d && p.key != k) {
      GetIsMembership(r, p.key, p.val);
      GetIsMembership(d, p.key, p.val);
    }
  }

  /** The entries after `del d[k]`: every old entry for another key. */
  lemma DeleteEntries<K(!new), V>(d: Dict<K, V>, k: K)
    ensures forall p :: p in Delete(d, k) <==> p in d && p.key != k
  {
    var r := Delete(d, k);
    forall p ensures p in r <==> p in d && p.key != k {
      GetIsMembership(r, p.key, p.val);
      GetIsMembership(d, p.key, p.val);
    }
  }
}
