/**
 * A map column stored the way the configuration database stores it: a key array and a
 * value array of the same length, read by a linear scan and only ever written by
 * replacing the whole column. Here the two arrays are one sequence of pairs, so they
 * cannot disagree in length.
 */
module Association {
  import opened Wrappers

  datatype Pair<K, V> = Pair(key: K, value: V)

  type Assoc<K, V> = seq<Pair<K, V>>

  function Keys<K, V>(a: Assoc<K, V>): (ks: seq<K>)
    ensures |ks| == |a|
    ensures forall i :: 0 <= i < |a| ==> ks[i] == a[i].key
  {
    seq(|a|, i requires 0 <= i < |a| => a[i].key)
  }

  function Values<K, V>(a: Assoc<K, V>): (vs: seq<V>)
    ensures |vs| == |a|
    ensures forall i :: 0 <= i < |a| ==> vs[i] == a[i].value
  {
    seq(|a|, i requires 0 <= i < |a| => a[i].value)
  }

  /** No key occurs in two pairs. */
  predicate NoDuplicateKeys<K(==), V>(a: Assoc<K, V>) {
    forall i, j :: 0 <= i < j < |a| ==> a[i].key != a[j].key
  }

  /** Position of the first pair with key k at or after position i. */
  function IndexFrom<K(==), V>(a: Assoc<K, V>, k: K, i: nat): (r: Option<nat>)
    requires i <= |a|
    ensures r.Some? ==> i <= r.value < |a| && a[r.value].key == k
    ensures r.Some? ==> forall j :: i <= j < r.value ==> a[j].key != k
    ensures r.None? <==> forall j :: i <= j < |a| ==> a[j].key != k
    decreases |a| - i
  {
    if i == |a| then None
    else if a[i].key == k then Some(i)
    else IndexFrom(a, k, i + 1)
  }

  /** Position of the first pair with key k, scanning from the front. */
  function IndexOf<K(==), V>(a: Assoc<K, V>, k: K): (r: Option<nat>)
    ensures r.Some? ==> r.value < |a| && a[r.value].key == k
    ensures r.Some? ==> forall j :: 0 <= j < r.value ==> a[j].key != k
    ensures r.None? <==> k !in Keys(a)
  {
    IndexFrom(a, k, 0)
  }

  /** The value stored under k, or None when no pair has key k. */
  function Get<K(==), V>(a: Assoc<K, V>, k: K): (r: Option<V>)
    ensures r.None? <==> k !in Keys(a)
    ensures r.Some? ==> Pair(k, r.value) in a
  {
    match IndexOf(a, k)
    case None => None
    case Some(i) => Some(a[i].value)
  }

  /** Any pair whose key has not occurred before it is what the scan finds. */
  lemma IndexOfFirst<K, V>(a: Assoc<K, V>, k: K, i: nat)
    requires i < |a| && a[i].key == k
    requires forall j :: 0 <= j < i ==> a[j].key != k
    ensures IndexOf(a, k) == Some(i)
  {
  }

  /** With unique keys, every pair is found by its key. */
  lemma GetUnique<K, V>(a: Assoc<K, V>, i: nat)
    requires NoDuplicateKeys(a)
    requires i < |a|
    ensures Get(a, a[i].key) == Some(a[i].value)
  {
    IndexOfFirst(a, a[i].key, i);
  }

  /**
   * Appending a pair never changes what an existing key maps to, and makes a new key
   * map to the appended value.
   */
  lemma GetAppend<K, V>(a: Assoc<K, V>, k: K, v: V, k': K)
    ensures Get(a + [Pair(k, v)], k') ==
      if k' in Keys(a) then Get(a, k') else if k' == k then Some(v) else None
  {
    var b := a + [Pair(k, v)];
    assert Keys(b) == Keys(a) + [k];
    if k' in Keys(a) {
      var i := IndexOf(a, k').value;
      IndexOfFirst(b, k', i);
    } else if k' == k {
      IndexOfFirst(b, k', |a|);
    }
  }

  /** Appending a key that is not yet present keeps the keys unique. */
  lemma AppendNoDuplicateKeys<K, V>(a: Assoc<K, V>, k: K, v: V)
    requires NoDuplicateKeys(a)
    requires k !in Keys(a)
    ensures NoDuplicateKeys(a + [Pair(k, v)])
  {
    var b := a + [Pair(k, v)];
    forall i, j | 0 <= i < j < |b|
      ensures b[i].key != b[j].key
    {
      if j == |a| {
        assert Keys(a)[i] == a[i].key;
      }
    }
  }

  /** Pairs appended after a key's first occurrence do not change what it maps to. */
  lemma GetExtend<K, V>(a: Assoc<K, V>, b: Assoc<K, V>, k: K)
    requires k in Keys(a)
    ensures Get(a + b, k) == Get(a, k)
  {
    var i := IndexOf(a, k).value;
    IndexOfFirst(a + b, k, i);
  }

  /** The value of any pair of a is one of a's values. */
  lemma PairValue<K, V>(a: Assoc<K, V>, k: K, v: V)
    requires Pair(k, v) in a
    ensures v in Values(a)
  {
    var i :| 0 <= i < |a| && a[i] == Pair(k, v);
    assert Values(a)[i] == v;
  }
}
