/**
 * JavaScript objects with string keys, as `JSON.parse` returns them: the keys in
 * insertion order and the value under each key. JavaScript enumerates keys that are
 * not integer-like in that order; integer-like keys, which it lists first in ascending
 * order, are kept in insertion order here too.
 */
module Records {
  import opened Wrappers
  import opened Tiles

  datatype Record<V> = Record(keys: seq<string>, values: map<string, V>) {
    /** Every key is listed once, and exactly the listed keys have values. */
    ghost predicate Valid() {
      Unique(keys) && forall k :: k in values <==> k in keys
    }

    /** `obj[k]`, `undefined` when the key is absent. */
    function Get(k: string): (r: Option<V>)
      ensures r.Some? <==> k in values
      ensures r.Some? ==> r.value == values[k]
    {
      if k in values then Some(values[k]) else None
    }

    /** `obj[k] = v`: an existing key keeps its place, a new one is enumerated last. */
    function Set(k: string, v: V): (r: Record<V>)
      ensures r.values == values[k := v]
      ensures k in keys ==> r.keys == keys
      ensures k !in keys ==> r.keys == keys + [k]
    {
      Record(if k in keys then keys else keys + [k], values[k := v])
    }

    /** `delete obj[k]`. */
    function Delete(k: string): (r: Record<V>)
      ensures r.values == values - {k}
      ensures forall j :: j in r.keys <==> j in keys && j != k
    {
      Record(Without(keys, k), values - {k})
    }
  }

  /** No key is listed twice, stated key by key from the front. */
  ghost predicate Unique(keys: seq<string>) {
    keys == [] || (keys[0] !in keys[1..] && Unique(keys[1..]))
  }

  lemma {:induction false} UniqueIsDistinct(keys: seq<string>)
    ensures Unique(keys) <==> Distinct(keys)
  {
    if keys != [] {
      var rest := keys[1..];
      UniqueIsDistinct(rest);
      if Distinct(keys) {
        forall i, j | 0 <= i < j < |rest| ensures rest[i] != rest[j] {
          assert rest[i] == keys[i + 1] && rest[j] == keys[j + 1];
        }
        forall i | 0 <= i < |rest| ensures rest[i] != keys[0] {
          assert rest[i] == keys[i + 1];
        }
      }
      if Unique(keys) {
        forall i, j | 0 <= i < j < |keys| ensures keys[i] != keys[j] {
          assert keys[j] == rest[j - 1];
          if i > 0 {
            assert keys[i] == rest[i - 1];
          }
        }
      }
    }
  }

  function Empty<V>(): (r: Record<V>)
    ensures r.Valid() && |r.keys| == 0
  {
    Record([], map[])
  }

  /** The keys other than `k`, in their order. */
  function Without(keys: seq<string>, k: string): (r: seq<string>)
    ensures forall j :: j in r <==> j in keys && j != k
    ensures |r| <= |keys|
  {
    if keys == [] then []
    else if keys[0] == k then Without(keys[1..], k)
    else [keys[0]] + Without(keys[1..], k)
  }

  lemma {:induction false} WithoutDistinct(keys: seq<string>, k: string)
    requires Distinct(keys)
    ensures Distinct(Without(keys, k))
    ensures k in keys ==> |Without(keys, k)| == |keys| - 1
    ensures k !in keys ==> Without(keys, k) == keys
  {
    if keys != [] {
      assert Distinct(keys[1..]) by {
        forall i, j | 0 <= i < j < |keys[1..]| ensures keys[1..][i] != keys[1..][j] {
          assert keys[1..][i] == keys[i + 1] && keys[1..][j] == keys[j + 1];
        }
      }
      WithoutDistinct(keys[1..], k);
      if keys[0] == k {
        assert k !in keys[1..] by {
          forall i | 0 <= i < |keys[1..]| ensures keys[1..][i] != k {
            assert keys[1..][i] == keys[i + 1];
          }
        }
      } else {
        var rest := Without(keys[1..], k);
        forall i, j | 0 <= i < j < |[keys[0]] + rest| ensures ([keys[0]] + rest)[i] != ([keys[0]] + rest)[j] {
          if i == 0 {
            assert ([keys[0]] + rest)[j] == rest[j - 1];
            assert rest[j - 1] in keys[1..];
            var m :| 0 <= m < |keys[1..]| && keys[1..][m] == rest[j - 1];
            assert keys[1..][m] == keys[m + 1];
          }
        }
        assert keys == [keys[0]] + keys[1..];
      }
    }
  }

  /** Setting a key keeps a record well formed; the key now has the new value and no other value changes. */
  lemma SetValid<V>(r: Record<V>, k: string, v: V)
    requires r.Valid()
    ensures r.Set(k, v).Valid()
    ensures r.Set(k, v).Get(k) == Some(v)
    ensures forall j :: j != k ==> r.Set(k, v).Get(j) == r.Get(j)
  {
    var s := r.Set(k, v);
    UniqueIsDistinct(r.keys);
    UniqueIsDistinct(s.keys);
    if k !in r.keys {
      forall i, j | 0 <= i < j < |s.keys| ensures s.keys[i] != s.keys[j] {
        if j == |r.keys| {
          assert s.keys[i] == r.keys[i];
        }
      }
    }
  }

  /** Deleting a present key keeps a record well formed, drops exactly that key, and keeps the other values. */
  lemma DeleteValid<V>(r: Record<V>, k: string)
    requires r.Valid()
    ensures r.Delete(k).Valid()
    ensures k in r.keys ==> |r.Delete(k).keys| == |r.keys| - 1
    ensures k !in r.keys ==> r.Delete(k) == r
    ensures forall j :: j != k ==> r.Delete(k).Get(j) == r.Get(j)
    ensures r.Delete(k).Get(k) == None
  {
    UniqueIsDistinct(r.keys);
    WithoutDistinct(r.keys, k);
    UniqueIsDistinct(r.Delete(k).keys);
    if k !in r.keys {
      assert r.values - {k} == r.values;
    }
  }
}
