/** The key-preserving map transformers `transformMap` and `transform2DMap`:
    each builds a fresh tree map that holds f of every value of its input,
    under the same key or key pair. */
module KeyedMaps {
  import opened Results
  import opened Orders

  /** A java.util.Map as this code sees it: its entries, and the order in
      which its key set iterates. */
  datatype MapData<K(!new), V> = MapData(order: seq<K>, entries: map<K, V>) {
    /** The iteration order names every key of the map, and each key once. */
    ghost predicate Enumerates() {
      && (forall i, j :: 0 <= i < j < |order| ==> order[i] != order[j])
      && (forall k :: k in order <==> k in entries)
    }
  }

  type JavaMap<K(!new), V> = m: MapData<K, V> | m.Enumerates() witness MapData([], map[])

  /** A map whose key set iterates in the order `less`, as a TreeMap does. */
  ghost predicate IsTreeMap<K(!new), V>(less: (K, K) -> bool, m: JavaMap<K, V>) {
    StrictlySorted(less, m.order)
  }

  /** A new, empty TreeMap. */
  function EmptyTreeMap<K(!new), V>(): (r: JavaMap<K, V>)
    ensures r.entries == map[] && r.order == []
  {
    MapData([], map[])
  }

  /** Where TreeMap.put places key k in the sorted key sequence s: in front of
      the first key that k precedes; a key equal to k keeps its place. */
  function InsertSorted<K>(less: (K, K) -> bool, s: seq<K>, k: K): seq<K> {
    if s == [] then [k]
    else if less(k, s[0]) then [k] + s
    else if less(s[0], k) then [s[0]] + InsertSorted(less, s[1..], k)
    else s
  }

  lemma {:induction false} InsertSortedSorted<K(!new)>(less: (K, K) -> bool, s: seq<K>, k: K)
    requires StrictTotalOrder(less) && StrictlySorted(less, s)
    ensures StrictlySorted(less, InsertSorted(less, s, k))
    ensures forall x :: x in InsertSorted(less, s, k) <==> x in s || x == k
  {
    if s != [] && !less(k, s[0]) && less(s[0], k) {
      InsertSortedSorted(less, s[1..], k);
      var t := InsertSorted(less, s[1..], k);
      SortedHead(less, s);
      forall x | x in t ensures less(s[0], x) {}
      assert InsertSorted(less, s, k) == [s[0]] + t;
    }
  }

  /** TreeMap.put: k now maps to v, every other key keeps its value, and the
      keys stay sorted. */
  function Put<K(!new), V>(less: (K, K) -> bool, m: JavaMap<K, V>, k: K, v: V): (r: JavaMap<K, V>)
    requires StrictTotalOrder(less) && IsTreeMap(less, m)
    ensures IsTreeMap(less, r)
    ensures r.entries == m.entries[k := v]
  {
    InsertSortedSorted(less, m.order, k);
    var order := InsertSorted(less, m.order, k);
    SortedDistinct(less, order);
    MapData(order, m.entries[k := v])
  }

  /** Puts f(entries[k]) into acc for every k of keys in turn; the first
      failing f aborts with its error. */
  function PutAll<K(!new), V, V2>(less: (K, K) -> bool, acc: JavaMap<K, V2>, keys: seq<K>,
                                  entries: map<K, V>, f: V -> Result<V2>): (r: Result<JavaMap<K, V2>>)
    requires StrictTotalOrder(less) && IsTreeMap(less, acc)
    requires forall k :: k in keys ==> k in entries
    ensures r.Ok? <==> forall i :: 0 <= i < |keys| ==> f(entries[keys[i]]).Ok?
    ensures r.Ok? ==> IsTreeMap(less, r.value)
    ensures r.Ok? ==> forall k :: k in r.value.entries <==> k in acc.entries || k in keys
    ensures r.Ok? ==> forall k :: k in keys ==> r.value.entries[k] == f(entries[k]).value
    ensures r.Ok? ==> forall k :: k in acc.entries && k !in keys ==> r.value.entries[k] == acc.entries[k]
    ensures r.Err? ==> exists i :: 0 <= i < |keys| && f(entries[keys[i]]) == Err(r.error) &&
                                   forall j :: 0 <= j < i ==> f(entries[keys[j]]).Ok?
    decreases |keys|, 1
  {
    if keys == [] then Ok(acc) else PutFirst(less, acc, keys, entries, f)
  }

  /** PutAll once keys is not empty: its first key, then the others. */
  function PutFirst<K(!new), V, V2>(less: (K, K) -> bool, acc: JavaMap<K, V2>, keys: seq<K>,
                                    entries: map<K, V>, f: V -> Result<V2>): (r: Result<JavaMap<K, V2>>)
    requires StrictTotalOrder(less) && IsTreeMap(less, acc)
    requires forall k :: k in keys ==> k in entries
    requires keys != []
    ensures r.Ok? <==> forall i :: 0 <= i < |keys| ==> f(entries[keys[i]]).Ok?
    ensures r.Ok? ==> IsTreeMap(less, r.value)
    ensures r.Ok? ==> forall k :: k in r.value.entries <==> k in acc.entries || k in keys
    ensures r.Ok? ==> forall k :: k in keys ==> r.value.entries[k] == f(entries[k]).value
    ensures r.Ok? ==> forall k :: k in acc.entries && k !in keys ==> r.value.entries[k] == acc.entries[k]
    ensures r.Err? ==> exists i :: 0 <= i < |keys| && f(entries[keys[i]]) == Err(r.error) &&
                                   forall j :: 0 <= j < i ==> f(entries[keys[j]]).Ok?
    decreases |keys|, 0
  {
    var k := keys[0];
    match f(entries[k])
    case Err(e) => Err(e)
    case Ok(v) =>
      var rest := PutAll(less, Put(less, acc, k, v), keys[1..], entries, f);
      assert forall i :: 1 <= i < |keys| ==> keys[i] == keys[1..][i - 1];
      assert forall x :: x in keys <==> x == k || x in keys[1..];
      rest
  }

  /** The map transformMap and transform2DMap build from `source`: a fresh tree
      map holding f of every value under its key, or the error of the first
      key, in iteration order, whose value f rejects. */
  function Transformed<K(!new), V, V2>(less: (K, K) -> bool, source: JavaMap<K, V>, f: V -> Result<V2>)
    : (r: Result<JavaMap<K, V2>>)
    requires StrictTotalOrder(less)
    ensures r.Ok? <==> forall k :: k in source.entries ==> f(source.entries[k]).Ok?
    ensures r.Ok? ==> IsTreeMap(less, r.value)
    ensures r.Ok? ==> r.value.entries.Keys == source.entries.Keys
    ensures r.Ok? ==> forall k :: k in source.entries ==> r.value.entries[k] == f(source.entries[k]).value
    ensures r.Err? ==> exists i :: 0 <= i < |source.order| && f(source.entries[source.order[i]]) == Err(r.error) &&
                                   forall j :: 0 <= j < i ==> f(source.entries[source.order[j]]).Ok?
  {
    var r := PutAll(less, EmptyTreeMap(), source.order, source.entries, f);
    assert r.Ok? <== forall k :: k in source.entries ==> f(source.entries[k]).Ok? by {
      if forall k :: k in source.entries ==> f(source.entries[k]).Ok? {
        assert forall i :: 0 <= i < |source.order| ==> source.order[i] in source.entries;
      }
    }
    r
  }

  /** The converter's value-preserving wrapper for a conversion that cannot fail. */
  function Total<V, V2>(g: V -> V2): V -> Result<V2> {
    v => Ok(g(v))
  }

  /** transform2DMap: TwoDimensionalMap.treeMap() filled by addAll with f
      applied to every value. The key pairs are those of `source`, and they iterate
      by first key, then second key. */
  function Transform2DMap<V, V2>(source: JavaMap<(Key, Key), V>, f: V -> Result<V2>)
    : (r: Result<JavaMap<(Key, Key), V2>>)
    ensures r.Ok? <==> forall k :: k in source.entries ==> f(source.entries[k]).Ok?
    ensures r.Ok? ==> IsTreeMap(PairLess, r.value)
    ensures r.Ok? ==> r.value.entries.Keys == source.entries.Keys
    ensures r.Ok? ==> forall k :: k in source.entries ==> r.value.entries[k] == f(source.entries[k]).value
    ensures r.Err? ==> exists i :: 0 <= i < |source.order| && f(source.entries[source.order[i]]) == Err(r.error) &&
                                   forall j :: 0 <= j < i ==> f(source.entries[source.order[j]]).Ok?
  {
    PairOrder();
    Transformed(PairLess, source, f)
  }

  /** The map transformMap builds: Transformed under String.compareTo. */
  function TransformedMap<V, V2>(source: JavaMap<Key, V>, f: V -> Result<V2>): (r: Result<JavaMap<Key, V2>>)
    ensures r.Ok? <==> forall k :: k in source.entries ==> f(source.entries[k]).Ok?
    ensures r.Ok? ==> IsTreeMap(StringLess, r.value)
    ensures r.Ok? ==> r.value.entries.Keys == source.entries.Keys
    ensures r.Ok? ==> forall k :: k in source.entries ==> r.value.entries[k] == f(source.entries[k]).value
    ensures r.Err? ==> exists i :: 0 <= i < |source.order| && f(source.entries[source.order[i]]) == Err(r.error) &&
                                   forall j :: 0 <= j < i ==> f(source.entries[source.order[j]]).Ok?
  {
    StringOrder();
    Transformed(StringLess, source, f)
  }

  /** TreeMap<String, _>.put. */
  function PutKey<V>(m: JavaMap<Key, V>, k: Key, v: V): (r: JavaMap<Key, V>)
    requires IsTreeMap(StringLess, m)
    ensures IsTreeMap(StringLess, r)
    ensures r.entries == m.entries[k := v]
  {
    StringOrder();
    Put(StringLess, m, k, v)
  }

  /** PutAll into a TreeMap<String, _>. */
  function PutAllKeys<V, V2>(acc: JavaMap<Key, V2>, keys: seq<Key>, entries: map<Key, V>, f: V -> Result<V2>)
    : Result<JavaMap<Key, V2>>
    requires IsTreeMap(StringLess, acc)
    requires forall k :: k in keys ==> k in entries
  {
    StringOrder();
    PutAll(StringLess, acc, keys, entries, f)
  }

  /** One step of PutAllKeys: the first key's value converted and put, or
      its error. */
  lemma PutAllKeysStep<V, V2>(acc: JavaMap<Key, V2>, keys: seq<Key>, entries: map<Key, V>, f: V -> Result<V2>)
    requires IsTreeMap(StringLess, acc)
    requires forall k :: k in keys ==> k in entries
    requires keys != []
    ensures f(entries[keys[0]]).Err? ==> PutAllKeys(acc, keys, entries, f) == Err(f(entries[keys[0]]).error)
    ensures f(entries[keys[0]]).Ok? ==>
              PutAllKeys(acc, keys, entries, f)
              == PutAllKeys(PutKey(acc, keys[0], f(entries[keys[0]]).value), keys[1..], entries, f)
  {
    StringOrder();
    assert PutAll(StringLess, acc, keys, entries, f) == PutFirst(StringLess, acc, keys, entries, f);
  }

  /** Before the loop: putting every key of `source` into a new TreeMap is
      the map transformMap builds. */
  lemma PutAllKeysStart<V, V2>(source: JavaMap<Key, V>, f: V -> Result<V2>)
    ensures PutAllKeys(EmptyTreeMap(), source.order, source.entries, f) == TransformedMap(source, f)
  {
    StringOrder();
  }

  /** After the loop: no keys are left to put. */
  lemma PutAllKeysDone<V, V2>(acc: JavaMap<Key, V2>, entries: map<Key, V>, f: V -> Result<V2>)
    requires IsTreeMap(StringLess, acc)
    ensures PutAllKeys(acc, [], entries, f) == Ok(acc)
  {
    StringOrder();
  }

  /** transformMap: walks the key set of `source` and puts f of each value
      into a fresh TreeMap; the first value f rejects aborts it. */
  method TransformMap<V, V2>(source: JavaMap<Key, V>, f: V -> Result<V2>) returns (r: Result<JavaMap<Key, V2>>)
    ensures r == TransformedMap(source, f)
  {
    var transformed: JavaMap<Key, V2> := EmptyTreeMap();
    var keys := source.order;
    ghost var target := PutAllKeys(transformed, keys, source.entries, f);
    PutAllKeysStart(source, f);
    var i := 0;
    while i < |keys|
      invariant 0 <= i <= |keys|
      invariant IsTreeMap(StringLess, transformed)
      invariant PutAllKeys(transformed, keys[i..], source.entries, f) == target
    {
      var k := keys[i];
      var v := f(source.entries[k]);
      PutAllKeysStep(transformed, keys[i..], source.entries, f);
      if v.Err? {
        return Err(v.error);
      }
      assert keys[i..][1..] == keys[i + 1..];
      transformed := PutKey(transformed, k, v.value);
      i := i + 1;
    }
    assert keys[i..] == [];
    PutAllKeysDone(transformed, source.entries, f);
    return Ok(transformed);
  }

  // ---------------------------------------------------------------------------
  // Ordering and key preservation

  /** The transformed map depends on the entries of `source` only: two maps with
      the same entries, whatever their iteration orders, give the same tree
      map, key order included. */
  lemma TransformedDeterministic<K(!new), V, V2>(less: (K, K) -> bool, a: JavaMap<K, V>, b: JavaMap<K, V>,
                                                  f: V -> Result<V2>)
    requires StrictTotalOrder(less)
    requires a.entries == b.entries
    ensures Transformed(less, a, f).Ok? == Transformed(less, b, f).Ok?
    ensures Transformed(less, a, f).Ok? ==> Transformed(less, a, f) == Transformed(less, b, f)
  {
    var ra, rb := Transformed(less, a, f), Transformed(less, b, f);
    if ra.Ok? {
      assert ra.value.entries == rb.value.entries;
      SortedUnique(less, ra.value.order, rb.value.order);
    }
  }

  /** A tree map transformed keeps its key order: transforming twice gives
      the key set and the key order of the input. */
  lemma TransformKeepsTreeOrder<K(!new), V, V2>(less: (K, K) -> bool, source: JavaMap<K, V>, f: V -> Result<V2>)
    requires StrictTotalOrder(less) && IsTreeMap(less, source)
    requires Transformed(less, source, f).Ok?
    ensures Transformed(less, source, f).value.order == source.order
  {
    var r := Transformed(less, source, f).value;
    SortedUnique(less, r.order, source.order);
  }

  /** Transforming twice, with any two conversions, keeps the key set of the
      input and the key order of the first transform; a tree map keeps its
      own key order. */
  lemma TransformTwice<K(!new), V, V2, V3>(less: (K, K) -> bool, source: JavaMap<K, V>,
                                           f: V -> Result<V2>, g: V2 -> Result<V3>)
    requires StrictTotalOrder(less)
    requires Transformed(less, source, f).Ok?
    requires Transformed(less, Transformed(less, source, f).value, g).Ok?
    ensures Transformed(less, Transformed(less, source, f).value, g).value.entries.Keys == source.entries.Keys
    ensures Transformed(less, Transformed(less, source, f).value, g).value.order == Transformed(less, source, f).value.order
    ensures IsTreeMap(less, source) ==>
              Transformed(less, Transformed(less, source, f).value, g).value.order == source.order
  {
    var once := Transformed(less, source, f).value;
    TransformKeepsTreeOrder(less, once, g);
    if IsTreeMap(less, source) {
      TransformKeepsTreeOrder(less, source, f);
    }
  }

  /** Transforming back: when `p` holds a converted copy of every entry of
      `m` and converting an entry of `p` back either fails or restores the
      entry of `m`, the transform of `p` succeeds exactly when no conversion
      back fails, and then holds the entries of `m`; if `m` was a tree map,
      it is `m`. */
  lemma TransformBack<K(!new), V, W>(less: (K, K) -> bool, m: JavaMap<K, V>, p: JavaMap<K, W>, h: W -> Result<V>)
    requires StrictTotalOrder(less)
    requires p.entries.Keys == m.entries.Keys
    requires forall k :: k in m.entries && h(p.entries[k]).Ok? ==> h(p.entries[k]).value == m.entries[k]
    ensures Transformed(less, p, h).Ok? <==> forall k :: k in m.entries ==> h(p.entries[k]).Ok?
    ensures Transformed(less, p, h).Ok? ==> Transformed(less, p, h).value.entries == m.entries
    ensures Transformed(less, p, h).Ok? && IsTreeMap(less, m) ==> Transformed(less, p, h) == Ok(m)
  {
    var r := Transformed(less, p, h);
    if r.Ok? {
      assert r.value.entries == m.entries;
      if IsTreeMap(less, m) {
        SortedUnique(less, r.value.order, m.order);
      }
    }
  }

  /** A wrapped total conversion never fails a transform. */
  lemma TransformTotal<K(!new), V, V2>(less: (K, K) -> bool, source: JavaMap<K, V>, g: V -> V2)
    requires StrictTotalOrder(less)
    ensures Transformed(less, source, Total(g)).Ok?
    ensures forall k :: k in source.entries ==> Transformed(less, source, Total(g)).value.entries[k] == g(source.entries[k])
  {
    assert forall k :: k in source.entries ==> Total(g)(source.entries[k]).Ok?;
  }
}
