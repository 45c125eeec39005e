/**
 * Python dictionaries whose iteration order is observable: key/value pairs
 * kept in insertion order, with distinct keys. Assigning to a key that is
 * already present overwrites its value where it stands; a new key goes last.
 */
module Dict {
  import opened Wrappers

  type Dict<K, V> = seq<(K, V)>

  function Keys<K, V>(d: Dict<K, V>): (ks: seq<K>)
    ensures |ks| == |d|
    ensures forall i :: 0 <= i < |d| ==> ks[i] == d[i].0
  {
    if d == [] then [] else [d[0].0] + Keys(d[1..])
  }

  predicate DistinctKeys<K(==), V>(d: Dict<K, V>) {
    forall i, j :: 0 <= i < j < |d| ==> d[i].0 != d[j].0
  }

  /** `d[k]`, defined when `k` is a key. */
  function Get<K(==), V>(d: Dict<K, V>, k: K): V
    requires k in Keys(d)
  {
    if d[0].0 == k then d[0].1 else Get(d[1..], k)
  }

  /** `d.get(k, default)`. */
  function GetOr<K(==), V>(d: Dict<K, V>, k: K, default: V): V {
    if k in Keys(d) then Get(d, k) else default
  }

  /** With distinct keys, the value stored at a position is the value of its key. */
  lemma {:induction false} GetAt<K, V>(d: Dict<K, V>, i: nat)
    requires DistinctKeys(d) && i < |d|
    ensures d[i].0 in Keys(d) && Get(d, d[i].0) == d[i].1
  {
    assert Keys(d)[i] == d[i].0;
    if i > 0 {
      assert d[0].0 != d[i].0;
      GetAt(d[1..], i - 1);
    }
  }

  /** `d[k] = v`. */
  function Put<K(==), V>(d: Dict<K, V>, k: K, v: V): (r: Dict<K, V>)
    ensures k in Keys(d) ==> Keys(r) == Keys(d)
    ensures k !in Keys(d) ==> r == d + [(k, v)]
    ensures forall i :: 0 <= i < |d| && d[i].0 != k ==> r[i] == d[i]
    ensures k in Keys(r) && Get(r, k) == v
  {
    if d == [] then [(k, v)]
    else if d[0].0 == k then [(k, v)] + d[1..]
    else
      [d[0]] + Put(d[1..], k, v)
  }

  /** `d[k] = v` adds no pair other than (k, v). */
  lemma {:induction false} PutMember<K, V>(d: Dict<K, V>, k: K, v: V, p: (K, V))
    requires p in Put(d, k, v)
    ensures p in d || p == (k, v)
  {
    if d != [] && d[0].0 != k && p != d[0] {
      assert p in Put(d[1..], k, v);
      PutMember(d[1..], k, v, p);
    }
  }

  /** `d[k] = v` keeps the keys distinct. */
  lemma PutDistinct<K, V>(d: Dict<K, V>, k: K, v: V)
    requires DistinctKeys(d)
    ensures DistinctKeys(Put(d, k, v))
  {
    var r := Put(d, k, v);
    if k in Keys(d) {
      forall i, j | 0 <= i < j < |r| ensures r[i].0 != r[j].0 {
        assert r[i].0 == Keys(r)[i] == Keys(d)[i] == d[i].0;
        assert r[j].0 == Keys(r)[j] == Keys(d)[j] == d[j].0;
      }
    } else {
      forall i, j | 0 <= i < j < |r| ensures r[i].0 != r[j].0 {
        if j == |d| {
          assert Keys(d)[i] == d[i].0;
        }
      }
    }
  }

  /** `d[k] = v` leaves every other key and its value as they were. */
  lemma {:induction false} PutOther<K, V>(d: Dict<K, V>, k: K, v: V, k': K)
    requires k' != k
    ensures k' in Keys(Put(d, k, v)) <==> k' in Keys(d)
    ensures k' in Keys(d) ==> Get(Put(d, k, v), k') == Get(d, k')
  {
    if d != [] && d[0].0 != k && d[0].0 != k' {
      PutOther(d[1..], k, v, k');
    }
  }
}
