/**
 JavaScript's Map: iteration is in insertion order, and setting an existing key keeps its place.
 */
module InsertionMaps {

  predicate Differ<K(==)>(s: seq<K>, i: nat, j: nat)
    requires i < |s| && j < |s|
  {
    s[i] != s[j]
  }

  predicate Distinct<K(==)>(s: seq<K>) {
    forall i, j :: 0 <= i < j < |s| ==> Differ(s, i, j)
  }

  predicate Listed<K(==), V>(order: seq<K>, values: map<K, V>, k: K) {
    k in order <==> k in values
  }

  datatype InsertionMap<K(==, !new), V> = InsertionMap(order: seq<K>, values: map<K, V>) {
    ghost predicate Valid() {
      Distinct(order) && forall k :: Listed(order, values, k)
    }

    function Set(key: K, value: V): (m: InsertionMap<K, V>)
      requires Valid()
      ensures m.Valid() && m.values == values[key := value]
      ensures |m.order| == if key in values then |order| else |order| + 1
    {
      SetIsValid(key, value);
      if key in values then InsertionMap(order, values[key := value])
      else InsertionMap(order + [key], values[key := value])
    }

    lemma SetIsValid(key: K, value: V)
      requires Valid()
      ensures InsertionMap(if key in values then order else order + [key], values[key := value]).Valid()
    {
      assert Listed(order, values, key);
      var m := InsertionMap(if key in values then order else order + [key], values[key := value]);
      forall k ensures Listed(m.order, m.values, k) {
        assert Listed(order, values, k);
      }
      forall i, j | 0 <= i < j < |m.order| ensures Differ(m.order, i, j) {
        if j < |order| { assert Differ(order, i, j); }
      }
    }

    function Delete(key: K): (m: InsertionMap<K, V>)
      requires Valid()
      ensures m.Valid() && m.values == values - {key} && |m.order| <= |order|
    {
      WithoutIsDistinct(order, key);
      WithoutIsShorter(order, key);
      assert InsertionMap(Without(order, key), values - {key}).Valid() by {
        forall k ensures Listed(Without(order, key), values - {key}, k) {
          assert Listed(order, values, k);
          WithoutAt(order, key, k);
        }
      }
      InsertionMap(Without(order, key), values - {key})
    }

    /** Removes the oldest key: the first one in insertion order. */
    function DeleteOldest(): (m: InsertionMap<K, V>)
      requires Valid() && order != []
      ensures m.Valid() && m == InsertionMap(order[1..], values - {order[0]})
    {
      assert InsertionMap(order[1..], values - {order[0]}).Valid() by {
        TailIsDistinct(order);
        forall k ensures Listed(order[1..], values - {order[0]}, k) {
          assert Listed(order, values, k);
          assert order == [order[0]] + order[1..];
        }
      }
      InsertionMap(order[1..], values - {order[0]})
    }

    /** Deletes oldest keys until at most `max` are left. */
    function Evict(max: nat): (m: InsertionMap<K, V>)
      requires Valid()
      ensures m.Valid() && |m.order| == if |order| <= max then |order| else max
      decreases |order|
    {
      if |order| <= max then this else DeleteOldest().Evict(max)
    }
  }

  function Without<K(==)>(s: seq<K>, key: K): (r: seq<K>) {
    if s == [] then [] else if s[0] == key then s[1..] else [s[0]] + Without(s[1..], key)
  }

  lemma {:induction false} TailIsDistinct<K>(s: seq<K>)
    requires s != [] && Distinct(s)
    ensures Distinct(s[1..]) && s[0] !in s[1..]
  {
    forall i, j | 0 <= i < j < |s[1..]| ensures Differ(s[1..], i, j) {
      assert Differ(s, i + 1, j + 1);
    }
    forall j | 0 <= j < |s[1..]| ensures s[1..][j] != s[0] {
      assert Differ(s, 0, j + 1);
    }
  }

  lemma {:induction false} WithoutAt<K>(s: seq<K>, key: K, k: K)
    requires Distinct(s)
    ensures k in Without(s, key) <==> k in s && k != key
  {
    if s == [] {
    } else {
      assert s == [s[0]] + s[1..];
      TailIsDistinct(s);
      WithoutAt(s[1..], key, k);
    }
  }

  lemma {:induction false} WithoutIsShorter<K>(s: seq<K>, key: K)
    ensures |Without(s, key)| <= |s|
  {
    if s == [] {
    } else {
      WithoutIsShorter(s[1..], key);
    }
  }

  lemma {:induction false} WithoutIsDistinct<K>(s: seq<K>, key: K)
    requires Distinct(s)
    ensures Distinct(Without(s, key))
  {
    if s == [] {
    } else {
      TailIsDistinct(s);
      WithoutIsDistinct(s[1..], key);
      if s[0] != key {
        WithoutAt(s[1..], key, s[0]);
        ConsIsDistinct(s[0], Without(s[1..], key));
      }
    }
  }

  lemma ConsIsDistinct<K>(x: K, s: seq<K>)
    requires Distinct(s) && x !in s
    ensures Distinct([x] + s)
  {
    var t := [x] + s;
    forall i, j | 0 <= i < j < |t| ensures Differ(t, i, j) {
      if i > 0 { assert Differ(s, i - 1, j - 1); }
    }
  }

  /** Eviction removes entries, it changes none. */
  lemma {:induction false} EvictAt<K(!new), V>(m: InsertionMap<K, V>, max: nat, key: K)
    requires m.Valid()
    ensures var r := m.Evict(max); key in r.values ==> key in m.values && r.values[key] == m.values[key]
    decreases |m.order|
  {
    if |m.order| <= max {
    } else {
      EvictAt(m.DeleteOldest(), max, key);
    }
  }

  /** What eviction leaves is the newest end of the order. */
  lemma {:induction false} EvictKeepsNewest<K(!new), V>(m: InsertionMap<K, V>, max: nat)
    requires m.Valid()
    ensures var r := m.Evict(max).order; |r| <= |m.order| && r == m.order[|m.order| - |r|..]
    decreases |m.order|
  {
    if |m.order| <= max {
    } else {
      EvictKeepsNewest(m.DeleteOldest(), max);
    }
  }

  /** The key set last survives the eviction. */
  lemma LastSetSurvives<K(!new), V>(m: InsertionMap<K, V>, key: K, value: V, max: nat)
    requires m.Valid() && 0 < max && |m.order| <= max
    ensures var r := m.Set(key, value).Evict(max);
      r.Valid() && |r.order| <= max && key in r.values && r.values[key] == value
  {
    var s := m.Set(key, value);
    var r := s.Evict(max);
    if key !in m.values {
      EvictKeepsNewest(s, max);
      assert r.order[|r.order| - 1] == key;
      assert Listed(r.order, r.values, key);
    }
    EvictAt(s, max, key);
  }

  /** A key that is there keeps its place when it is set again; a new one comes last. */
  lemma SetKeepsPlace<K(!new), V>(m: InsertionMap<K, V>, key: K, value: V)
    requires m.Valid()
    ensures key in m.values ==> m.Set(key, value).order == m.order
    ensures key !in m.values ==> m.Set(key, value).order == m.order + [key]
  {
  }

  /** Deleting a key leaves the others in their order. */
  lemma {:induction false} WithoutSplit<K>(before: seq<K>, key: K, after: seq<K>)
    requires key !in before
    ensures Without(before + [key] + after, key) == before + after
  {
    var s := before + [key] + after;
    if before == [] {
      assert s[1..] == after && before + after == after;
    } else {
      assert s[1..] == before[1..] + [key] + after;
      WithoutSplit(before[1..], key, after);
      assert before + after == [before[0]] + (before[1..] + after);
    }
  }

  lemma DeleteKeepsOrder<K(!new), V>(m: InsertionMap<K, V>, before: seq<K>, key: K, after: seq<K>)
    requires m.Valid() && m.order == before + [key] + after
    ensures m.Delete(key).order == before + after && m.Delete(key).values == m.values - {key}
  {
    forall i | 0 <= i < |before| ensures before[i] != key { assert Differ(m.order, i, |before|); }
    WithoutSplit(before, key, after);
  }
}
