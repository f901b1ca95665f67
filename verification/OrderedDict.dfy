/**
  Python's OrderedDict, as a value: the keys in their order, beside the mapping
  itself.
 */
module OrderedDict {
  import opened Sequences

  /** Where `x` first stands in `s`. */
  function IndexOf<T(==)>(s: seq<T>, x: T): (p: nat)
    requires x in s
    ensures p < |s| && s[p] == x
  {
    if s[0] == x then 0 else 1 + IndexOf(s[1..], x)
  }

  /** The keys without `x`; the others keep their order. */
  function Without<T(==)>(s: seq<T>, x: T): (r: seq<T>)
    ensures |r| == |s| - (if x in s then 1 else 0)
    ensures forall i :: 0 <= i < |r| ==> r[i] in s
    ensures forall i :: 0 <= i < |s| && s[i] != x ==> s[i] in r
    ensures x !in s ==> r == s
    ensures Distinct(s) ==> Distinct(r) && x !in r
  {
    if x !in s then s
    else
      var p := IndexOf(s, x);
      var r := s[..p] + s[p + 1..];
      assert forall i :: 0 <= i < |s| && i != p ==> s[i] == r[if i < p then i else i - 1];
      r
  }

  /** Two survivors stand in `s` in the order in which they stand in the result. */
  lemma WithoutKeepsOrder<T>(s: seq<T>, x: T, i: nat, j: nat) returns (i': nat, j': nat)
    requires i < j < |Without(s, x)|
    ensures i' < j' < |s| && s[i'] == Without(s, x)[i] && s[j'] == Without(s, x)[j]
  {
    var p := if x in s then IndexOf(s, x) else |s|;
    i', j' := if i < p then i else i + 1, if j < p then j else j + 1;
  }

  lemma WithoutAt<T>(s: seq<T>, p: nat)
    requires p < |s| && Distinct(s)
    ensures Without(s, s[p]) == s[..p] + s[p + 1..]
  {
    assert IndexOf(s, s[p]) == p;
  }

  lemma WithoutLast<T>(s: seq<T>, x: T)
    requires x !in s
    ensures Without(s + [x], x) == s
  {
    var p := IndexOf(s + [x], x);
    assert p == |s|;
    assert (s + [x])[..p] + (s + [x])[p + 1..] == s;
  }

  datatype RawDict<K(==), V> = RawDict(keys: seq<K>, data: map<K, V>)

  ghost predicate Consistent<K, V>(d: RawDict<K, V>) {
    && Distinct(d.keys)
    && (forall i :: 0 <= i < |d.keys| ==> d.keys[i] in d.data)
    && (forall k :: k in d.data ==> k in d.keys)
  }

  type Dict<K(==), V> = d: RawDict<K, V> | Consistent(d) witness RawDict([], map[])

  function Empty<K, V>(): (d: Dict<K, V>) {
    RawDict([], map[])
  }

  /** `d[k] = v`: a new key goes last, an old key keeps its place. */
  function Put<K, V>(d: Dict<K, V>, k: K, v: V): (r: Dict<K, V>)
    ensures r.data == d.data[k := v]
    ensures r.keys == if k in d.data then d.keys else d.keys + [k]
  {
    RawDict(if k in d.data then d.keys else d.keys + [k], d.data[k := v])
  }

  /** `d.pop(k, None)`. */
  function Drop<K, V>(d: Dict<K, V>, k: K): (r: Dict<K, V>)
    ensures r.data == d.data - {k}
    ensures r.keys == Without(d.keys, k)
    ensures |r.keys| == |d.keys| - (if k in d.data then 1 else 0)
  {
    RawDict(Without(d.keys, k), d.data - {k})
  }

  /** `d.move_to_end(k)`. */
  function MoveToEnd<K, V>(d: Dict<K, V>, k: K): (r: Dict<K, V>)
    requires k in d.data
    ensures r.data == d.data && r.keys == Without(d.keys, k) + [k]
    ensures |r.keys| == |d.keys|
  {
    RawDict(Without(d.keys, k) + [k], d.data)
  }

  /** `d.popitem(last=False)`. */
  function PopFirst<K, V>(d: Dict<K, V>): (r: Dict<K, V>)
    requires d.keys != []
    ensures r.keys == d.keys[1..] && r.data == d.data - {d.keys[0]}
  {
    RawDict(d.keys[1..], d.data - {d.keys[0]})
  }

  lemma PutThenMove<K>(keys: seq<K>, k: K)
    ensures Without(if k in keys then keys else keys + [k], k) == Without(keys, k)
  {
    if k !in keys {
      WithoutLast(keys, k);
    }
  }

  /** `d[k] = v; d.move_to_end(k)`. */
  function Touch<K, V>(d: Dict<K, V>, k: K, v: V): (r: Dict<K, V>)
    ensures r.data == d.data[k := v] && r.keys == Without(d.keys, k) + [k]
  {
    PutThenMove(d.keys, k);
    MoveToEnd(Put(d, k, v), k)
  }
}
