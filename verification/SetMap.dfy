/** util/setmap.go: a map from keys to sets of values, and the many-to-many relation
    that keeps such a map together with its transpose. */
module SetMaps {

  /** The values filed under `k`; a key that is not in the map has none. */
  ghost function Row<K, V>(m: map<K, set<V>>, k: K): set<V> {
    if k in m then m[k] else {}
  }

  /** Whether the pair (k, v) is in the relation that `m` stands for. */
  ghost predicate Has<K, V>(m: map<K, set<V>>, k: K, v: V) {
    k in m && v in m[k]
  }

  /** No key is kept with an empty set, so that a relation has only one map. */
  ghost predicate NoEmptyRow<K, V>(m: map<K, set<V>>) {
    forall k | k in m :: m[k] != {}
  }

  ghost predicate Transposes<K(!new), V(!new)>(m: map<K, set<V>>, r: map<V, set<K>>) {
    forall k, v :: Has(m, k, v) <==> Has(r, v, k)
  }

  /** What the operations do to the relation. */
  ghost function WithPair<K, V>(m: map<K, set<V>>, k: K, v: V): map<K, set<V>> {
    m[k := Row(m, k) + {v}]
  }

  ghost function WithoutPair<K, V>(m: map<K, set<V>>, k: K, v: V): map<K, set<V>> {
    if Row(m, k) - {v} == {} then m - {k} else m[k := m[k] - {v}]
  }

  ghost function WithoutKey<K, V>(m: map<K, set<V>>, k: K): map<K, set<V>> {
    m - {k}
  }

  ghost function WithoutValue<K, V>(m: map<K, set<V>>, v: V): map<K, set<V>> {
    map k | k in m && m[k] - {v} != {} :: m[k] - {v}
  }

  /** `r` lists the elements of `s`, each once, in any order. */
  ghost predicate Lists<T(!new)>(r: seq<T>, s: set<T>) {
    && (forall i, j | 0 <= i < j < |r| :: r[i] != r[j])
    && (forall x :: x in r <==> x in s)
  }

  lemma {:induction false} ListsLength<T(!new)>(r: seq<T>, s: set<T>)
    requires Lists(r, s)
    ensures |r| == |s|
  {
    if r != [] {
      var last := r[|r| - 1];
      var front := r[..|r| - 1];
      assert r == front + [last];
      ListsLength(front, s - {last});
    }
  }

  lemma ListsAppend<T(!new)>(r: seq<T>, s: set<T>, x: T)
    requires Lists(r, s) && x !in s
    ensures Lists(r + [x], s + {x})
  {
    forall y ensures y in r + [x] <==> y in s + {x} {
      assert y in r + [x] <==> y in r || y == x;
    }
  }

  /** Two maps without empty rows that hold the same pairs are the same map. */
  lemma SamePairsSameMap<K(!new), V(!new)>(m: map<K, set<V>>, n: map<K, set<V>>)
    requires NoEmptyRow(m) && NoEmptyRow(n)
    requires forall k, v :: Has(m, k, v) <==> Has(n, k, v)
    ensures m == n
  {
    forall k ensures (k in m) == (k in n) {
      if k in m {
        var v :| v in m[k];
        assert Has(m, k, v) && Has(n, k, v);
      }
      if k in n {
        var v :| v in n[k];
        assert Has(n, k, v) && Has(m, k, v);
      }
    }
    forall k | k in m ensures m[k] == n[k] {
      forall v ensures v in m[k] <==> v in n[k] {
        assert Has(m, k, v) <==> Has(n, k, v);
      }
    }
  }

  /** The two maps determine each other: a relation has exactly one transpose. */
  lemma TransposeUnique<K(!new), V(!new)>(m: map<K, set<V>>, r: map<V, set<K>>, r': map<V, set<K>>)
    requires NoEmptyRow(r) && NoEmptyRow(r')
    requires Transposes(m, r) && Transposes(m, r')
    ensures r == r'
  {
    forall v, k ensures Has(r, v, k) <==> Has(r', v, k) {
      assert Has(r, v, k) <==> Has(m, k, v);
      assert Has(r', v, k) <==> Has(m, k, v);
    }
    SamePairsSameMap(r, r');
  }

  /** Removing a value is removing a key of the transpose, and conversely. */
  lemma RemovalsAreDual<K(!new), V(!new)>(m: map<K, set<V>>, r: map<V, set<K>>, v: V)
    requires NoEmptyRow(m) && Transposes(m, r)
    ensures NoEmptyRow(WithoutValue(m, v))
    ensures Transposes(WithoutValue(m, v), WithoutKey(r, v))
    ensures Transposes(WithoutKey(r, v), WithoutValue(m, v))
  {
    var n := WithoutValue(m, v);
    forall k, w ensures Has(n, k, w) <==> Has(r - {v}, w, k) {
      if k in m {
        assert w in m[k] - {v} <==> w in m[k] && w != v;
      }
      assert Has(n, k, w) <==> Has(m, k, w) && w != v;
      assert Has(m, k, w) <==> Has(r, w, k);
    }
  }

  /** SetMap is map<K, set<V>>. */
  class SetMap<K(==, !new), V(==, !new)> {
    var m: map<K, set<V>>

    ghost predicate Valid() reads this { NoEmptyRow(m) }

    constructor ()
      ensures Valid() && m == map[]
    {
      m := map[];
    }

    method Add(key: K, value: V)
      requires Valid()
      modifies this
      ensures Valid() && m == WithPair(old(m), key, value)
    {
      if key in m {
        m := m[key := m[key] + {value}];
      } else {
        m := m[key := {value}];
        assert {value} == Row(old(m), key) + {value};
      }
    }

    method Remove(key: K, value: V)
      requires Valid()
      modifies this
      ensures Valid() && m == WithoutPair(old(m), key, value)
    {
      if key in m {
        m := m[key := m[key] - {value}];
        if |m[key]| <= 0 {
          m := m - {key};
        }
      }
    }

    method Exists(key: K, value: V) returns (ok: bool)
      ensures ok <==> Has(m, key, value)
    {
      ok := key in m;
      if ok {
        ok := value in m[key];
      }
    }

    method GetSet(key: K) returns (r: seq<V>)
      ensures Lists(r, Row(m, key))
    {
      r := [];
      if key in m {
        var rest := m[key];
        while rest != {}
          invariant rest <= m[key]
          invariant Lists(r, m[key] - rest)
        {
          var value :| value in rest;
          r := r + [value];
          rest := rest - {value};
        }
      }
    }
  }

  /** SetMapaMteS keeps a SetMap and the reverse SetMap as exact transposes of each other. */
  class SetMapaMteS<K(==, !new), V(==, !new)> {
    const forwardMap: SetMap<K, V>
    const reverse: SetMap<V, K>

    ghost predicate Valid()
      reads this, forwardMap, reverse
    {
      && forwardMap as object != reverse as object
      && forwardMap.Valid() && reverse.Valid()
      && Transposes(forwardMap.m, reverse.m)
    }

    /** The relation, as the map from each key to its set of values. */
    ghost function Rel(): map<K, set<V>>
      reads forwardMap
    {
      forwardMap.m
    }

    constructor ()
      ensures Valid() && Rel() == map[]
      ensures fresh(forwardMap) && fresh(reverse)
    {
      forwardMap := new SetMap<K, V>();
      reverse := new SetMap<V, K>();
    }

    method Add(key: K, value: V)
      requires Valid()
      modifies forwardMap, reverse
      ensures Valid() && Rel() == WithPair(old(Rel()), key, value)
    {
      forwardMap.Add(key, value);
      reverse.Add(value, key);
      forall k, v ensures Has(forwardMap.m, k, v) <==> Has(reverse.m, v, k) {
        assert old(Has(forwardMap.m, k, v) <==> Has(reverse.m, v, k));
      }
    }

    method Remove(key: K, value: V)
      requires Valid()
      modifies forwardMap, reverse
      ensures Valid() && Rel() == WithoutPair(old(Rel()), key, value)
    {
      forwardMap.Remove(key, value);
      reverse.Remove(value, key);
      forall k, v ensures Has(forwardMap.m, k, v) <==> Has(reverse.m, v, k) {
        assert old(Has(forwardMap.m, k, v) <==> Has(reverse.m, v, k));
      }
    }

    method RemoveValue(value: V)
      requires Valid()
      modifies forwardMap, reverse
      ensures Valid() && Rel() == WithoutValue(old(Rel()), value)
    {
      RemovalsAreDual(forwardMap.m, reverse.m, value);
      ghost var was := forwardMap.m;
      if value in reverse.m {
        var rest := reverse.m[value];
        while rest != {}
          invariant forwardMap.Valid() && reverse.m == old(reverse.m)
          invariant rest <= reverse.m[value]
          invariant forall k, v :: Has(forwardMap.m, k, v) <==>
            Has(was, k, v) && !(v == value && k in reverse.m[value] - rest)
        {
          var key :| key in rest;
          rest := rest - {key};
          forwardMap.Remove(key, value);
        }
        reverse.m := reverse.m - {value};
      }
      forall k, v ensures Has(forwardMap.m, k, v) <==> Has(WithoutValue(was, value), k, v) {
        assert Has(was, k, v) <==> Has(old(reverse.m), v, k);
      }
      SamePairsSameMap(forwardMap.m, WithoutValue(was, value));
    }

    method RemoveKey(key: K)
      requires Valid()
      modifies forwardMap, reverse
      ensures Valid() && Rel() == WithoutKey(old(Rel()), key)
    {
      ghost var was := reverse.m;
      if key in forwardMap.m {
        var rest := forwardMap.m[key];
        while rest != {}
          invariant reverse.Valid() && forwardMap.m == old(forwardMap.m)
          invariant rest <= forwardMap.m[key]
          invariant forall v, k :: Has(reverse.m, v, k) <==>
            Has(was, v, k) && !(k == key && v in forwardMap.m[key] - rest)
        {
          var value :| value in rest;
          rest := rest - {value};
          reverse.Remove(value, key);
        }
        forwardMap.m := forwardMap.m - {key};
      }
      forall k, v ensures Has(forwardMap.m, k, v) <==> Has(reverse.m, v, k) {
        assert old(Has(forwardMap.m, k, v) <==> Has(reverse.m, v, k));
      }
    }

    method GetKeys(value: V) returns (r: seq<K>)
      requires Valid()
      ensures forall k :: k in r <==> Has(Rel(), k, value)
      ensures forall i, j | 0 <= i < j < |r| :: r[i] != r[j]
    {
      r := reverse.GetSet(value);
      forall k ensures k in r <==> Has(Rel(), k, value) {
        assert Has(Rel(), k, value) <==> Has(reverse.m, value, k);
      }
    }

    /** The values that belong to `key` and to no other key. */
    method GetUniqueValues(key: K) returns (r: seq<V>)
      requires Valid()
      ensures Lists(r, set v | v in Row(Rel(), key) && forall k :: Has(Rel(), k, v) ==> k == key)
    {
      r := [];
      if key in forwardMap.m {
        var rest := forwardMap.m[key];
        while rest != {}
          invariant rest <= forwardMap.m[key]
          invariant Lists(r, set v | v in forwardMap.m[key] - rest && Row(reverse.m, v) == {key})
        {
          var value :| value in rest;
          ghost var found := set v | v in forwardMap.m[key] - rest && Row(reverse.m, v) == {key};
          rest := rest - {value};
          assert forwardMap.m[key] - rest == forwardMap.m[key] - (rest + {value}) + {value};
          assert Has(forwardMap.m, key, value) && Has(reverse.m, value, key);
          var keys := reverse.GetSet(value);
          ListsLength(keys, reverse.m[value]);
          SingletonIff(reverse.m[value], key);
          ListsAppend(r, found, value);
          if |keys| <= 1 {
            r := r + [value];
          }
          assert (set v | v in forwardMap.m[key] - rest && Row(reverse.m, v) == {key})
              == if |keys| <= 1 then found + {value} else found;
        }
        forall v | v in forwardMap.m[key]
          ensures Row(reverse.m, v) == {key} <==> forall k :: Has(Rel(), k, v) ==> k == key
        {
          assert Has(forwardMap.m, key, v) && Has(reverse.m, v, key);
          assert forall k :: k in reverse.m[v] <==> Has(reverse.m, v, k);
          assert forall k :: Has(reverse.m, v, k) <==> Has(Rel(), k, v);
          if forall k :: Has(Rel(), k, v) ==> k == key {
            assert reverse.m[v] == {key};
          }
        }
      }
    }

    /** The keys whose only value is `value`. */
    method GetUniqueKeys(value: V) returns (r: seq<K>)
      requires Valid()
      ensures Lists(r, set k | k in Rel() && Rel()[k] == {value})
    {
      r := [];
      if value in reverse.m {
        var rest := reverse.m[value];
        while rest != {}
          invariant rest <= reverse.m[value]
          invariant Lists(r, set k | k in reverse.m[value] - rest && k in Rel() && Rel()[k] == {value})
        {
          var key :| key in rest;
          ghost var found := set k | k in reverse.m[value] - rest && k in Rel() && Rel()[k] == {value};
          rest := rest - {key};
          assert reverse.m[value] - rest == reverse.m[value] - (rest + {key}) + {key};
          assert Has(reverse.m, value, key) && Has(forwardMap.m, key, value);
          var values := forwardMap.GetSet(key);
          ListsLength(values, forwardMap.m[key]);
          SingletonIff(forwardMap.m[key], value);
          ListsAppend(r, found, key);
          if |values| <= 1 {
            r := r + [key];
          }
          assert (set k | k in reverse.m[value] - rest && k in Rel() && Rel()[k] == {value})
              == if |values| <= 1 then found + {key} else found;
        }
      }
      forall k | k in Rel() && Rel()[k] == {value}
        ensures value in reverse.m && k in reverse.m[value]
      {
        assert Has(Rel(), k, value) && Has(reverse.m, value, k);
      }
    }
  }

  /** A set that holds `x` is {x} exactly when it has no second element. */
  lemma SingletonIff<T>(s: set<T>, x: T)
    requires x in s
    ensures |s| <= 1 <==> s == {x}
  {
    assert s == (s - {x}) + {x};
  }
}
