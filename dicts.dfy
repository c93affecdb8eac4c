/**
 * Python's `dict`: a finite map whose keys remember the order in which they
 * were first inserted. Overwriting an existing key keeps its position.
 */
module Dicts {

  datatype RawDict<K(==), V> = RawDict(keys: seq<K>, entries: map<K, V>)

  /** The keys are distinct and are exactly the keys of the map. */
  ghost predicate WellFormed<K, V>(d: RawDict<K, V>) {
    && (forall i, j :: 0 <= i < j < |d.keys| ==> d.keys[i] != d.keys[j])
    && (forall k :: k in d.entries ==> k in d.keys)
    && (forall k :: k in d.keys ==> k in d.entries)
  }

  type Dict<K(==), V> = d: RawDict<K, V> | WellFormed(d) witness RawDict([], map[])

  function Empty<K(==), V>(): (r: Dict<K, V>)
    ensures r.keys == [] && r.entries == map[]
  {
    RawDict([], map[])
  }

  /** `d[k] = v`: a new key goes to the end, an existing key keeps its place. */
  function Set<K(==), V>(d: Dict<K, V>, k: K, v: V): (r: Dict<K, V>)
    ensures r.entries == d.entries[k := v]
    ensures k in d.entries ==> r.keys == d.keys
    ensures k !in d.entries ==> r.keys == d.keys + [k]
  {
    if k in d.entries then RawDict(d.keys, d.entries[k := v])
    else RawDict(d.keys + [k], d.entries[k := v])
  }

  /** `d.get(k, default)`. */
  function GetOr<K(==), V>(d: Dict<K, V>, k: K, default: V): V {
    if k in d.entries then d.entries[k] else default
  }

  lemma KeysInEntries<K, V>(d: Dict<K, V>, n: nat)
    requires n <= |d.keys|
    ensures forall k :: k in d.keys[..n] ==> k in d.entries
  {
  }

  /** The (k, v) items of an inner dict for the keys `ks`, in the order of `ks`. */
  function Row<K1(==), K2(==), V>(k: K1, inner: Dict<K2, V>, ks: seq<K2>): (r: seq<(K1, K2, V)>)
    requires forall m :: m in ks ==> m in inner.entries
    ensures |r| == |ks|
    ensures forall i :: 0 <= i < |r| ==> r[i] == (k, ks[i], inner.entries[ks[i]])
    decreases |ks|
  {
    if ks == [] then []
    else Row(k, inner, ks[..|ks| - 1]) + [(k, ks[|ks| - 1], inner.entries[ks[|ks| - 1]])]
  }

  /** The nested items of `d` for the outer keys `ks`, outer order first, inner order second. */
  function FlattenKeys<K1(==), K2(==), V>(d: Dict<K1, Dict<K2, V>>, ks: seq<K1>): seq<(K1, K2, V)>
    requires forall k :: k in ks ==> k in d.entries
    decreases |ks|
  {
    if ks == [] then []
    else
      var k := ks[|ks| - 1];
      FlattenKeys(d, ks[..|ks| - 1]) + Row(k, d.entries[k], d.entries[k].keys)
  }

  /** One more outer key appends that key's row. */
  lemma FlattenKeysSnoc<K1, K2, V>(d: Dict<K1, Dict<K2, V>>, ks: seq<K1>)
    requires |ks| > 0 && forall k :: k in ks ==> k in d.entries
    ensures var k := ks[|ks| - 1];
      FlattenKeys(d, ks) == FlattenKeys(d, ks[..|ks| - 1]) + Row(k, d.entries[k], d.entries[k].keys)
  {
  }

  /** The row for the first `j + 1` inner keys: the row for the first `j`, then key `j`. */
  lemma RowKeysStep<K1, K2, V>(k: K1, inner: Dict<K2, V>, j: nat)
    requires j < |inner.keys|
    ensures forall m :: m in inner.keys[..j + 1] ==> m in inner.entries
    ensures Row(k, inner, inner.keys[..j + 1]) == Row(k, inner, inner.keys[..j]) + [(k, inner.keys[j], inner.entries[inner.keys[j]])]
  {
    KeysInEntries(inner, j + 1);
    assert inner.keys[..j + 1][..j] == inner.keys[..j];
  }

  /** The flattening of the first `i + 1` outer keys: that of the first `i`, then the row of key `i`. */
  lemma FlattenKeysStep<K1, K2, V>(d: Dict<K1, Dict<K2, V>>, i: nat)
    requires i < |d.keys|
    ensures forall k :: k in d.keys[..i + 1] ==> k in d.entries
    ensures var k := d.keys[i];
      FlattenKeys(d, d.keys[..i + 1]) == FlattenKeys(d, d.keys[..i]) + Row(k, d.entries[k], d.entries[k].keys)
  {
    KeysInEntries(d, i + 1);
    assert d.keys[..i + 1][..i] == d.keys[..i];
    FlattenKeysSnoc(d, d.keys[..i + 1]);
  }

  /**
   * What `for k, inner in d.items(): for m, v in inner.items(): yield k, m, v`
   * produces.
   */
  function Flatten<K1(==), K2(==), V>(d: Dict<K1, Dict<K2, V>>): seq<(K1, K2, V)> {
    FlattenKeys(d, d.keys)
  }

  lemma {:induction false} FlattenKeysMember<K1, K2, V>(d: Dict<K1, Dict<K2, V>>, ks: seq<K1>, e: (K1, K2, V))
    requires forall k :: k in ks ==> k in d.entries
    ensures e in FlattenKeys(d, ks) <==>
      e.0 in ks && e.1 in d.entries[e.0].entries && e.2 == d.entries[e.0].entries[e.1]
    decreases |ks|
  {
    if ks != [] {
      var k := ks[|ks| - 1];
      var front := ks[..|ks| - 1];
      FlattenKeysMember(d, front, e);
      var row := Row(k, d.entries[k], d.entries[k].keys);
      assert e in row <==> e.0 == k && e.1 in d.entries[k].keys && e.2 == d.entries[k].entries[e.1] by {
        if e in row {
          var i :| 0 <= i < |row| && row[i] == e;
        }
        if e.0 == k && e.1 in d.entries[k].keys && e.2 == d.entries[k].entries[e.1] {
          var i :| 0 <= i < |d.entries[k].keys| && d.entries[k].keys[i] == e.1;
          assert row[i] == e;
        }
      }
      assert ks == front + [k];
    }
  }

  /** Every nested item of `d` occurs in `Flatten(d)`, and nothing else does. */
  lemma FlattenMember<K1, K2, V>(d: Dict<K1, Dict<K2, V>>, e: (K1, K2, V))
    ensures e in Flatten(d) <==>
      e.0 in d.entries && e.1 in d.entries[e.0].entries && e.2 == d.entries[e.0].entries[e.1]
  {
    FlattenKeysMember(d, d.keys, e);
  }

  /** Pairwise, two positions of a flattened sequence carry different (outer, inner) keys. */
  ghost predicate KeyPairsDistinct<K1, K2, V>(s: seq<(K1, K2, V)>) {
    forall i, j :: 0 <= i < j < |s| ==> (s[i].0, s[i].1) != (s[j].0, s[j].1)
  }

  lemma {:induction false} FlattenKeysDistinct<K1, K2, V>(d: Dict<K1, Dict<K2, V>>, ks: seq<K1>)
    requires forall k :: k in ks ==> k in d.entries
    requires forall i, j :: 0 <= i < j < |ks| ==> ks[i] != ks[j]
    ensures KeyPairsDistinct(FlattenKeys(d, ks))
    ensures forall e :: e in FlattenKeys(d, ks) ==> e.0 in ks
    decreases |ks|
  {
    if ks != [] {
      var k := ks[|ks| - 1];
      var front := ks[..|ks| - 1];
      FlattenKeysDistinct(d, front);
      var a := FlattenKeys(d, front);
      var row := Row(k, d.entries[k], d.entries[k].keys);
      assert forall e :: e in a ==> e.0 != k by {
        forall e | e in a ensures e.0 != k {
          assert e.0 in front;
          var i :| 0 <= i < |front| && front[i] == e.0;
          assert ks[i] == e.0 && ks[|ks| - 1] == k;
        }
      }
      var s := a + row;
      forall i, j | 0 <= i < j < |s| ensures (s[i].0, s[i].1) != (s[j].0, s[j].1) {
        if j < |a| {
          assert s[i] == a[i] && s[j] == a[j];
        } else if i < |a| {
          assert s[i] == a[i] && s[i] in a;
          assert s[j] == row[j - |a|];
        } else {
          assert s[i] == row[i - |a|] && s[j] == row[j - |a|];
        }
      }
      forall e | e in s ensures e.0 in ks {
        if e in a {
        } else {
          var i :| 0 <= i < |row| && row[i] == e;
        }
      }
    }
  }

  /** Each (outer, inner) key pair of `d` appears in `Flatten(d)` exactly once. */
  lemma FlattenDistinct<K1, K2, V>(d: Dict<K1, Dict<K2, V>>)
    ensures KeyPairsDistinct(Flatten(d))
  {
    FlattenKeysDistinct(d, d.keys);
  }

  /**
   * `if k1 not in d: d[k1] = {}` followed by `d[k1][k2] = v`: the entry for
   * (k1, k2) becomes v and every other (outer, inner) entry stays as it was.
   */
  function SetNested<K1(==), K2(==), V>(d: Dict<K1, Dict<K2, V>>, k1: K1, k2: K2, v: V): (r: Dict<K1, Dict<K2, V>>)
    ensures r.entries.Keys == d.entries.Keys + {k1}
    ensures k2 in r.entries[k1].entries && r.entries[k1].entries[k2] == v
    ensures forall a, b :: a in r.entries && b in r.entries[a].entries && (a != k1 || b != k2) ==>
      a in d.entries && b in d.entries[a].entries && r.entries[a].entries[b] == d.entries[a].entries[b]
    ensures forall a, b :: a in d.entries && b in d.entries[a].entries ==>
      a in r.entries && b in r.entries[a].entries
    ensures k1 in d.entries ==> r.keys == d.keys
    ensures k1 !in d.entries ==> r.keys == d.keys + [k1]
  {
    Set(d, k1, Set(GetOr(d, k1, Empty()), k2, v))
  }

  /** `SetNested` seen one outer entry at a time: only the entry `k1` changes, and within it only `k2`. */
  lemma SetNestedRow<K1, K2, V>(d: Dict<K1, Dict<K2, V>>, k1: K1, k2: K2, v: V)
    ensures var r := SetNested(d, k1, k2, v);
      && (forall a :: a in d.entries && a != k1 ==> r.entries[a] == d.entries[a])
      && r.entries[k1].entries == (if k1 in d.entries then d.entries[k1].entries else map[])[k2 := v]
      && r.entries[k1].keys ==
           if k1 !in d.entries then [k2]
           else if k2 in d.entries[k1].entries then d.entries[k1].keys
           else d.entries[k1].keys + [k2]
  {
  }
}
