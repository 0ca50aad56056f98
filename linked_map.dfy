/**
 * An insertion-ordered map, as Kotlin's `mutableMapOf` (a `LinkedHashMap`)
 * behaves: a sequence of key/value entries in insertion order.  `Put` on a
 * present key replaces its value in place, on an absent key appends an entry;
 * `Remove` drops the entry and keeps the order of the others.
 */
module LinkedMap {
  import opened Wrappers

  datatype Entry<K, V> = Entry(key: K, value: V)

  /** The keys, in insertion order (`keys`). */
  function Keys<K, V>(m: seq<Entry<K, V>>): (ks: seq<K>)
    ensures |ks| == |m|
    ensures forall i :: 0 <= i < |m| ==> ks[i] == m[i].key
  {
    seq(|m|, i requires 0 <= i < |m| => m[i].key)
  }

  /** No key occurs twice: what a map guarantees. */
  predicate DistinctKeys<K(==), V>(m: seq<Entry<K, V>>) {
    forall i, j :: 0 <= i < j < |m| ==> m[i].key != m[j].key
  }

  /** The position of the entry for `k`, if any. */
  function IndexOf<K(==), V>(m: seq<Entry<K, V>>, k: K): (r: Option<nat>)
    ensures r.Some? ==> r.value < |m| && m[r.value].key == k
    ensures r.Some? ==> forall i :: 0 <= i < r.value ==> m[i].key != k
    ensures r.None? ==> forall i :: 0 <= i < |m| ==> m[i].key != k
  {
    if m == [] then None
    else if m[0].key == k then Some(0)
    else
      match IndexOf(m[1..], k)
      case None => None
      case Some(i) => Some(i + 1)
  }

  /** `m[k]`: the value stored under `k`, or nothing. */
  function Get<K(==), V>(m: seq<Entry<K, V>>, k: K): (r: Option<V>)
    ensures r.None? <==> k !in Keys(m)
    ensures r.Some? ==> Entry(k, r.value) in m
  {
    match IndexOf(m, k)
    case None => None
    case Some(i) => Some(m[i].value)
  }

  /** `m.remove(k)`: the entry for `k` is dropped, the others keep their order. */
  function Remove<K(==, !new), V>(m: seq<Entry<K, V>>, k: K): (r: seq<Entry<K, V>>)
    ensures k !in Keys(m) ==> r == m
    ensures DistinctKeys(m) ==> DistinctKeys(r) && k !in Keys(r)
    ensures forall k' :: k' != k ==> Get(r, k') == Get(m, k')
    ensures k in Keys(m) ==> exists i :: 0 <= i < |m| && m[i].key == k && r == m[..i] + m[i + 1..]
  {
    match IndexOf(m, k)
    case None => m
    case Some(i) =>
      DeleteAt(m, i);
      m[..i] + m[i + 1..]
  }

  /** Deleting the first entry for a key keeps every other lookup, and distinct keys stay distinct without it. */
  lemma DeleteAt<K(!new), V>(m: seq<Entry<K, V>>, i: nat)
    requires i < |m| && forall j :: 0 <= j < i ==> m[j].key != m[i].key
    ensures forall k' :: k' != m[i].key ==> Get(m[..i] + m[i + 1..], k') == Get(m, k')
    ensures DistinctKeys(m) ==> DistinctKeys(m[..i] + m[i + 1..]) && m[i].key !in Keys(m[..i] + m[i + 1..])
  {
    var r := m[..i] + m[i + 1..];
    assert forall j :: 0 <= j < |r| ==> r[j] == (if j < i then m[j] else m[j + 1]);
    forall k' | k' != m[i].key ensures Get(r, k') == Get(m, k') {
      GetAfterDeletion(m, i, k');
    }
  }

  /** Removing a key other than the first keeps the first entry first. */
  lemma RemoveKeepsFirst<K(!new), V>(m: seq<Entry<K, V>>, k: K)
    requires |m| > 0 && m[0].key != k
    ensures |Remove(m, k)| > 0 && Remove(m, k)[0] == m[0]
  {
    match IndexOf(m, k)
    case None =>
    case Some(i) =>
      assert i > 0;
      assert (m[..i] + m[i + 1..])[0] == m[0];
  }

  /** In a map with distinct keys, every entry is what `Get` finds under its key. */
  lemma GetMember<K, V>(m: seq<Entry<K, V>>, i: nat)
    requires DistinctKeys(m) && i < |m|
    ensures Get(m, m[i].key) == Some(m[i].value)
  {
    var j := IndexOf(m, m[i].key).value;
    assert j == i;
  }

  lemma GetAfterDeletion<K, V>(m: seq<Entry<K, V>>, i: nat, k: K)
    requires i < |m| && m[i].key != k
    ensures Get(m[..i] + m[i + 1..], k) == Get(m, k)
  {
    var r := m[..i] + m[i + 1..];
    assert forall j :: 0 <= j < |r| ==> r[j] == (if j < i then m[j] else m[j + 1]);
    match IndexOf(m, k)
    case None =>
      assert forall j :: 0 <= j < |r| ==> r[j].key != k;
    case Some(p) =>
      var q := if p < i then p else p - 1;
      assert r[q] == m[p];
      assert forall j :: 0 <= j < q ==> r[j].key != k;
      assert IndexOf(r, k) == Some(q);
  }

  /** `m.put(k, v)`: a present key keeps its place, an absent one goes last. */
  function Put<K(==, !new), V>(m: seq<Entry<K, V>>, k: K, v: V): (r: seq<Entry<K, V>>)
    ensures Get(r, k) == Some(v)
    ensures forall k' :: k' != k ==> Get(r, k') == Get(m, k')
    ensures Keys(r) == if k in Keys(m) then Keys(m) else Keys(m) + [k]
    ensures DistinctKeys(m) ==> DistinctKeys(r)
    ensures k !in Keys(m) ==> r == m + [Entry(k, v)]
  {
    match IndexOf(m, k)
    case None =>
      var r := m + [Entry(k, v)];
      GetAppend(m, Entry(k, v), k);
      forall k' | k' != k ensures Get(r, k') == Get(m, k') {
        GetAppend(m, Entry(k, v), k');
      }
      r
    case Some(i) =>
      var r := m[i := Entry(k, v)];
      assert Keys(r) == Keys(m);
      forall k' | k' != k ensures Get(r, k') == Get(m, k') {
        GetAfterReplace(m, i, Entry(k, v), k');
      }
      GetAfterReplace(m, i, Entry(k, v), k);
      r
  }

  lemma {:induction false} GetAppend<K, V>(m: seq<Entry<K, V>>, e: Entry<K, V>, k: K)
    ensures Get(m + [e], k) == if k in Keys(m) then Get(m, k) else if e.key == k then Some(e.value) else None
  {
    if m != [] {
      assert (m + [e])[1..] == m[1..] + [e];
      GetAppend(m[1..], e, k);
    }
  }

  lemma {:induction false} GetAfterReplace<K, V>(m: seq<Entry<K, V>>, i: nat, e: Entry<K, V>, k: K)
    requires i < |m| && m[i].key == e.key
    requires forall j :: 0 <= j < i ==> m[j].key != e.key
    ensures Get(m[i := e], k) == if k == e.key then Some(e.value) else Get(m, k)
  {
    var r := m[i := e];
    if i == 0 {
      assert r[1..] == m[1..];
    } else {
      assert r[0] == m[0];
      assert r[1..] == m[1..][i - 1 := e];
      GetAfterReplace(m[1..], i - 1, e, k);
    }
  }

  /** `Remove` only drops entries. */
  lemma RemoveEntries<K(!new), V>(m: seq<Entry<K, V>>, k: K)
    ensures forall e :: e in Remove(m, k) ==> e in m
  {
    match IndexOf(m, k)
    case None =>
    case Some(i) =>
      assert forall e :: e in m[..i] + m[i + 1..] ==> e in m[..i] || e in m[i + 1..];
  }

  /** `Put` adds no entry but the new one. */
  lemma PutEntries<K(!new), V>(m: seq<Entry<K, V>>, k: K, v: V)
    ensures forall e :: e in Put(m, k, v) ==> e in m || e == Entry(k, v)
  {
  }
}
