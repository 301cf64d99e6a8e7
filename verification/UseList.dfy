/**
 A list of key and value pairs in order of use, and the same list kept as a list of keys
 beside a map from keys to values.
 */
module UseList {
  import opened Bytes

  type Pairs<K, V> = seq<(K, V)>

  function Without<K(==), V>(l: Pairs<K, V>, key: K): Pairs<K, V> {
    if l == [] then [] else Without(l[..|l| - 1], key) + if l[|l| - 1].0 == key then [] else [l[|l| - 1]]
  }

  function Find<K(==), V>(l: Pairs<K, V>, key: K): Option<V> {
    if l == [] then None else if l[0].0 == key then Some(l[0].1) else Find(l[1..], key)
  }

  ghost predicate Distinct<K, V>(l: Pairs<K, V>) {
    forall i, j :: 0 <= i < j < |l| ==> l[i].0 != l[j].0
  }

  lemma {:induction false} WithoutIs<K, V>(l: Pairs<K, V>, key: K)
    ensures |Without(l, key)| <= |l|
    ensures forall i :: 0 <= i < |Without(l, key)| ==> Without(l, key)[i] in l && Without(l, key)[i].0 != key
  {
    if l != [] {
      WithoutIs(l[..|l| - 1], key);
      assert l == l[..|l| - 1] + [l[|l| - 1]];
    }
  }

  lemma {:induction false} FindIs<K, V>(l: Pairs<K, V>, key: K)
    requires Distinct(l)
    ensures Find(l, key).Some? <==> exists i :: 0 <= i < |l| && l[i].0 == key
    ensures forall i :: 0 <= i < |l| && l[i].0 == key ==> Find(l, key) == Some(l[i].1)
  {
    if l != [] {
      FindIs(l[1..], key);
      assert forall i :: 1 <= i < |l| ==> l[i] == l[1..][i - 1];
    }
  }

  /** One pair stands before another. */
  ghost predicate Before<K, V>(l: Pairs<K, V>, p: (K, V), q: (K, V)) {
    exists m, n :: 0 <= m < n < |l| && l[m] == p && l[n] == q
  }

  /** Part of the list, in the same order. */
  ghost predicate PartOf<K, V>(a: Pairs<K, V>, l: Pairs<K, V>) {
    && |a| <= |l| && (forall i :: 0 <= i < |a| ==> a[i] in l)
    && forall i, j :: 0 <= i < j < |a| ==> Before(l, a[i], a[j])
  }

  lemma PartOfItself<K, V>(l: Pairs<K, V>)
    ensures PartOf(l, l)
  {
  }

  lemma {:induction false} WithoutIsPart<K, V>(l: Pairs<K, V>, key: K)
    ensures PartOf(Without(l, key), l) && forall i :: 0 <= i < |Without(l, key)| ==> Without(l, key)[i].0 != key
  {
    WithoutIs(l, key);
    var a := Without(l, key);
    if l != [] {
      var n := |l| - 1;
      var front := Without(l[..n], key);
      WithoutIsPart(l[..n], key);
      forall i, j | 0 <= i < j < |a| ensures Before(l, a[i], a[j]) {
        if j < |front| {
          assert Before(l[..n], front[i], front[j]);
          var m, k :| 0 <= m < k < n && l[..n][m] == front[i] && l[..n][k] == front[j];
          assert l[m] == a[i] && l[k] == a[j];
        } else {
          assert front[i] in l[..n];
          var m :| 0 <= m < n && l[..n][m] == front[i];
          assert l[m] == a[i] && l[n] == a[j];
        }
      }
    }
  }

  lemma PartTaken<K, V>(a: Pairs<K, V>, l: Pairs<K, V>, n: nat)
    requires PartOf(a, l) && n <= |a|
    ensures PartOf(a[..n], l)
  {
    var part := a[..n];
    forall i, j | 0 <= i < j < n ensures Before(l, part[i], part[j]) { assert Before(l, a[i], a[j]); }
  }

  /** Taking out a key that is there makes the list shorter. */
  lemma {:induction false} WithoutPresent<K, V>(l: Pairs<K, V>, key: K, i: nat)
    requires i < |l| && l[i].0 == key
    ensures |Without(l, key)| < |l|
  {
    var front := l[..|l| - 1];
    WithoutIs(front, key);
    if i < |front| { WithoutPresent(front, key, i); }
  }

  lemma {:induction false} WithoutAbsent<K, V>(l: Pairs<K, V>, key: K)
    requires forall i :: 0 <= i < |l| ==> l[i].0 != key
    ensures Without(l, key) == l
  {
    if l != [] { WithoutAbsent(l[..|l| - 1], key); }
  }

  // ---------- a list of keys beside a map ----------

  function KeysWithout<K(==)>(keys: seq<K>, key: K): seq<K> {
    if keys == [] then []
    else KeysWithout(keys[..|keys| - 1], key) + if keys[|keys| - 1] == key then [] else [keys[|keys| - 1]]
  }

  function PairsOf<K(==), V>(keys: seq<K>, entries: map<K, V>): (r: Pairs<K, V>)
    requires forall k :: k in keys ==> k in entries
    ensures |r| == |keys|
  {
    seq(|keys|, i requires 0 <= i < |keys| => (keys[i], entries[keys[i]]))
  }

  /** The map and the list hold the same keys, each once. */
  ghost predicate Agree<K, V>(keys: seq<K>, entries: map<K, V>) {
    && (forall k :: k in keys ==> k in entries) && (forall k :: k in entries ==> k in keys)
    && (forall i, j :: 0 <= i < j < |keys| ==> keys[i] != keys[j])
  }

  lemma {:induction false} KeysWithoutIs<K>(keys: seq<K>, key: K)
    ensures forall k :: k in KeysWithout(keys, key) <==> k in keys && k != key
  {
    if keys != [] {
      KeysWithoutIs(keys[..|keys| - 1], key);
      assert keys == keys[..|keys| - 1] + [keys[|keys| - 1]];
    }
  }

  lemma PairsLast<K, V>(keys: seq<K>, last: K, entries: map<K, V>)
    requires last in entries && forall k :: k in keys ==> k in entries
    ensures PairsOf(keys + [last], entries) == PairsOf(keys, entries) + [(last, entries[last])]
  {
  }

  lemma WithoutLast<K, V>(l: Pairs<K, V>, p: (K, V), key: K)
    ensures Without(l + [p], key) == Without(l, key) + if p.0 == key then [] else [p]
  {
    assert (l + [p])[..|l|] == l;
  }

  /** Taking a key out of list and map takes it out of the pairs. */
  lemma {:induction false} PairsWithout<K, V>(keys: seq<K>, entries: map<K, V>, key: K, other: map<K, V>)
    requires forall k :: k in keys ==> k in entries
    requires forall k :: k in keys && k != key ==> k in other && other[k] == entries[k]
    ensures forall k :: k in KeysWithout(keys, key) ==> k in other
    ensures PairsOf(KeysWithout(keys, key), other) == Without(PairsOf(keys, entries), key)
  {
    KeysWithoutIs(keys, key);
    if keys != [] {
      var front, last := keys[..|keys| - 1], keys[|keys| - 1];
      assert last in keys && forall k :: k in front ==> k in keys;
      hide PairsOf, Without;
      PairsWithout(front, entries, key, other);
      PairsLast(front, last, entries);
      assert front + [last] == keys;
      WithoutLast(PairsOf(front, entries), (last, entries[last]), key);
      var kept := KeysWithout(front, key);
      if last != key {
        PairsLast(kept, last, other);
        assert KeysWithout(keys, key) == kept + [last];
      } else {
        assert KeysWithout(keys, key) == kept;
      }
    }
  }

  lemma {:induction false} PairsFind<K, V>(keys: seq<K>, entries: map<K, V>, key: K)
    requires forall k :: k in keys ==> k in entries
    ensures Find(PairsOf(keys, entries), key) == if key in keys then Some(entries[key]) else None
  {
    if keys != [] {
      assert forall k :: k in keys[1..] ==> k in keys;
      PairsFind(keys[1..], entries, key);
      assert PairsOf(keys, entries)[1..] == PairsOf(keys[1..], entries);
      assert keys == [keys[0]] + keys[1..];
    }
  }

  lemma PairsFront<K, V>(keys: seq<K>, first: K, entries: map<K, V>)
    requires first in entries && forall k :: k in keys ==> k in entries
    ensures PairsOf([first] + keys, entries) == [(first, entries[first])] + PairsOf(keys, entries)
  {
  }

  lemma {:induction false} KeysWithoutDistinct<K>(keys: seq<K>, key: K)
    requires forall i, j :: 0 <= i < j < |keys| ==> keys[i] != keys[j]
    ensures var r := KeysWithout(keys, key);
            |r| == |keys| - (if key in keys then 1 else 0) && forall i, j :: 0 <= i < j < |r| ==> r[i] != r[j]
  {
    if keys != [] {
      var front := keys[..|keys| - 1];
      KeysWithoutDistinct(front, key);
      KeysWithoutIs(front, key);
      assert keys == front + [keys[|keys| - 1]];
      var r := KeysWithout(front, key);
      forall i | 0 <= i < |r| ensures r[i] != keys[|keys| - 1] { assert r[i] in r; }
    }
  }

  // ---------- the three changes ----------

  /** A key that is there is given a value and moved to the front. */
  lemma MovedToFront<K, V>(keys: seq<K>, entries: map<K, V>, key: K, e: V)
    requires Agree(keys, entries) && key in keys
    ensures var moved, changed := [key] + KeysWithout(keys, key), entries[key := e];
            && Agree(moved, changed) && PairsOf(moved, changed) == [(key, e)] + Without(PairsOf(keys, entries), key)
            && |moved| == |keys| && |Without(PairsOf(keys, entries), key)| < |keys|
  {
    hide Without, PairsOf;
    KeysWithoutDistinct(keys, key);
    KeysWithoutIs(keys, key);
    PairsWithout(keys, entries, key, entries[key := e]);
    PairsFront(KeysWithout(keys, key), key, entries[key := e]);
  }

  /** A key is taken out. */
  lemma Removed<K, V>(keys: seq<K>, entries: map<K, V>, key: K)
    requires Agree(keys, entries)
    ensures var kept := KeysWithout(keys, key);
            Agree(kept, entries - {key}) && PairsOf(kept, entries - {key}) == Without(PairsOf(keys, entries), key) &&
              |kept| <= |keys|
  {
    hide Without, PairsOf;
    KeysWithoutDistinct(keys, key);
    KeysWithoutIs(keys, key);
    PairsWithout(keys, entries, key, entries - {key});
  }

  /** The last key is taken out. */
  lemma Dropped<K, V>(keys: seq<K>, entries: map<K, V>)
    requires Agree(keys, entries) && keys != []
    ensures var n := |keys| - 1;
            Agree(keys[..n], entries - {keys[n]}) &&
              PairsOf(keys[..n], entries - {keys[n]}) == PairsOf(keys, entries)[..n]
  {
    var n := |keys| - 1;
    assert keys == keys[..n] + [keys[n]];
  }

  /** A key that is not there is put in front. */
  lemma Added<K, V>(keys: seq<K>, entries: map<K, V>, key: K, e: V)
    requires Agree(keys, entries) && key !in keys
    ensures Agree([key] + keys, entries[key := e]) &&
            PairsOf([key] + keys, entries[key := e]) == [(key, e)] + PairsOf(keys, entries)
  {
  }

  lemma AbsentKey<K, V>(keys: seq<K>, entries: map<K, V>, key: K)
    requires Agree(keys, entries) && key !in keys
    ensures Without(PairsOf(keys, entries), key) == PairsOf(keys, entries)
  {
    WithoutAbsent(PairsOf(keys, entries), key);
  }
}
