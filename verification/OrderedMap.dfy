// std::map with integer keys: the entries in the order in which the map is iterated.
module OrderedMap {
  import opened Common

  datatype Entry<+V> = Entry(key: int, value: V)

  ghost predicate Ascending<V(!new)>(m: seq<Entry<V>>) {
    |m| < 2 || (m[0].key < m[1].key && Ascending(m[1..]))
  }

  // find
  function Lookup<V>(m: seq<Entry<V>>, key: int): Option<V> {
    if m == [] then None
    else if m[0].key == key then Some(m[0].value)
    else Lookup(m[1..], key)
  }

  // m[key] = value
  function Assign<V>(m: seq<Entry<V>>, key: int, value: V): seq<Entry<V>> {
    if m == [] || key < m[0].key then [Entry(key, value)] + m
    else if key == m[0].key then [Entry(key, value)] + m[1..]
    else [m[0]] + Assign(m[1..], key, value)
  }

  // erase(key)
  function Remove<V>(m: seq<Entry<V>>, key: int): seq<Entry<V>> {
    if m == [] then []
    else if m[0].key == key then m[1..]
    else [m[0]] + Remove(m[1..], key)
  }

  lemma {:induction false} NotBefore<V(!new)>(m: seq<Entry<V>>, key: int)
    requires Ascending(m) && (m != [] ==> key < m[0].key)
    ensures Lookup(m, key) == None
  {
    if m != [] {
      NotBefore(m[1..], key);
    }
  }

  // An assignment keeps the order, changes one key and leaves every other one alone.
  lemma {:induction false} AssignSets<V(!new)>(m: seq<Entry<V>>, key: int, value: V, k: int)
    requires Ascending(m)
    ensures Ascending(Assign(m, key, value)) && Assign(m, key, value) != []
    ensures Assign(m, key, value)[0].key == if m == [] || key < m[0].key then key else m[0].key
    ensures Lookup(Assign(m, key, value), k) == if k == key then Some(value) else Lookup(m, k)
  {
    var r := Assign(m, key, value);
    if m == [] || key < m[0].key {
      assert r[1..] == m;
    } else if key == m[0].key {
      assert r[1..] == m[1..];
    } else {
      AssignSets(m[1..], key, value, k);
      assert r[1..] == Assign(m[1..], key, value);
    }
  }

  // An erased key is gone, and every other one is left alone.
  lemma {:induction false} RemoveClears<V(!new)>(m: seq<Entry<V>>, key: int, k: int)
    requires Ascending(m)
    ensures Ascending(Remove(m, key))
    ensures m != [] && Remove(m, key) != [] ==> m[0].key <= Remove(m, key)[0].key
    ensures Lookup(Remove(m, key), k) == if k == key then None else Lookup(m, k)
  {
    if m != [] {
      var r := Remove(m, key);
      if m[0].key == key {
        NotBefore(m[1..], key);
      } else {
        RemoveClears(m[1..], key, k);
        assert r[1..] == Remove(m[1..], key);
      }
    }
  }

  // Each entry is found under its key.
  lemma {:induction false} FoundEntry<V(!new)>(m: seq<Entry<V>>, i: nat)
    requires Ascending(m) && i < |m|
    ensures Lookup(m, m[i].key) == Some(m[i].value) && (i > 0 ==> m[0].key < m[i].key)
  {
    if i > 0 {
      FoundEntry(m[1..], i - 1);
    }
  }

  // The first key with a value, in the order of the keys.
  function FirstWith<V(==)>(m: seq<Entry<V>>, value: V): Option<int> {
    if m == [] then None
    else if m[0].value == value then Some(m[0].key)
    else FirstWith(m[1..], value)
  }

  lemma {:induction false} FirstWithIsThere<V(!new)>(m: seq<Entry<V>>, value: V, k: int)
    requires Ascending(m)
    ensures FirstWith(m, value) == None ==> Lookup(m, k) != Some(value)
    ensures FirstWith(m, value).Some? ==> Lookup(m, FirstWith(m, value).value) == Some(value)
    ensures FirstWith(m, value).Some? && Lookup(m, k) == Some(value) ==> FirstWith(m, value).value <= k
  {
    if m != [] {
      FirstWithIsThere(m[1..], value, k);
      if m[0].value != value && FirstWith(m[1..], value).Some? {
        NotBefore(m[1..], m[0].key);
      }
      if m[0].value == value && k < m[0].key {
        NotBefore(m, k);
      }
    }
  }
}
