/**
 * The in-memory key-value store of index.js (`KvStore`): a JavaScript object
 * `_obj` updated in place, whose `delete` removes every key that STARTS WITH
 * the given text. `order` is the enumeration order of the object's keys
 * (`for (const key in this._obj)`), which for the store's string keys is the
 * order in which they were inserted.
 */
module Store {
  import opened Wrappers
  import opened Strings

  predicate Distinct(ks: seq<string>) {
    forall i, j :: 0 <= i < j < |ks| ==> ks[i] != ks[j]
  }

  /** The keys of `ks` that start with `prefix`, in their order. */
  function WithPrefix(ks: seq<string>, prefix: string): seq<string> {
    if |ks| == 0 then []
    else
      var last := ks[|ks| - 1];
      WithPrefix(ks[..|ks| - 1], prefix) + (if StartsWith(last, prefix) then [last] else [])
  }

  /** The keys of `ks` that do not start with `prefix`, in their order. */
  function WithoutPrefix(ks: seq<string>, prefix: string): seq<string> {
    if |ks| == 0 then []
    else
      var last := ks[|ks| - 1];
      WithoutPrefix(ks[..|ks| - 1], prefix) + (if StartsWith(last, prefix) then [] else [last])
  }

  /** `WithPrefix` keeps exactly the matching keys, each once when `ks` is distinct. */
  lemma {:induction false} WithPrefixKeys(ks: seq<string>, prefix: string)
    ensures forall k :: k in WithPrefix(ks, prefix) <==> k in ks && StartsWith(k, prefix)
    ensures Distinct(ks) ==> Distinct(WithPrefix(ks, prefix))
  {
    if |ks| > 0 {
      var init := ks[..|ks| - 1];
      WithPrefixKeys(init, prefix);
      assert ks == init + [ks[|ks| - 1]];
    }
  }

  /** `WithoutPrefix` keeps exactly the other keys, each once when `ks` is distinct. */
  lemma {:induction false} WithoutPrefixKeys(ks: seq<string>, prefix: string)
    ensures forall k :: k in WithoutPrefix(ks, prefix) <==> k in ks && !StartsWith(k, prefix)
    ensures Distinct(ks) ==> Distinct(WithoutPrefix(ks, prefix))
  {
    if |ks| > 0 {
      var init := ks[..|ks| - 1];
      WithoutPrefixKeys(init, prefix);
      assert ks == init + [ks[|ks| - 1]];
    }
  }

  /** `ks` with every occurrence of `key` taken out. */
  function Without(ks: seq<string>, key: string): seq<string> {
    if |ks| == 0 then []
    else (if ks[0] == key then [] else [ks[0]]) + Without(ks[1..], key)
  }

  lemma {:induction false} WithoutAppend(a: seq<string>, b: seq<string>, key: string)
    ensures Without(a + b, key) == Without(a, key) + Without(b, key)
  {
    if |a| == 0 {
      assert a + b == b;
    } else {
      var head := if a[0] == key then [] else [a[0]];
      assert (a + b)[0] == a[0] && (a + b)[1..] == a[1..] + b;
      assert Without(a + b, key) == head + Without(a[1..] + b, key);
      WithoutAppend(a[1..], b, key);
      assert Without(a, key) == head + Without(a[1..], key);
    }
  }

  lemma {:induction false} WithoutAbsent(a: seq<string>, key: string)
    requires key !in a
    ensures Without(a, key) == a
  {
    if |a| > 0 {
      WithoutAbsent(a[1..], key);
      assert [a[0]] + a[1..] == a;
    }
  }

  /** `Without` keeps every other key, and keeps keys distinct. */
  lemma {:induction false} WithoutDistinctMembers(a: seq<string>, key: string)
    ensures forall x :: x in Without(a, key) <==> x in a && x != key
    ensures Distinct(a) ==> Distinct(Without(a, key))
  {
    if |a| > 0 {
      WithoutDistinctMembers(a[1..], key);
      var head := if a[0] == key then [] else [a[0]];
      assert Without(a, key) == head + Without(a[1..], key);
      assert forall x :: x in a <==> x == a[0] || x in a[1..];
      if Distinct(a) {
        assert Distinct(a[1..]);
        assert a[0] !in a[1..];
      }
    }
  }

  /** Taking out a key that occurs once, between `done` and `rest`. */
  lemma WithoutOnce(done: seq<string>, key: string, rest: seq<string>)
    requires key !in done && key !in rest
    ensures Without(done + [key] + rest, key) == done + rest
  {
    WithoutAppend(done + [key], rest, key);
    WithoutAppend(done, [key], key);
    WithoutAbsent(done, key);
    WithoutAbsent(rest, key);
    assert [key][1..] == [];
    assert Without([key], key) == [];
    assert Without(done + [key], key) == done;
  }

  /** The values that `m` holds under those keys of `ks` that start with `prefix`, in the order of `ks`. */
  function ValuesWithPrefix<V>(ks: seq<string>, m: map<string, V>, prefix: string): seq<V> {
    if |ks| == 0 then []
    else
      var last := ks[|ks| - 1];
      ValuesWithPrefix(ks[..|ks| - 1], m, prefix) + (if StartsWith(last, prefix) && last in m then [m[last]] else [])
  }

  /** When every key of `ks` is in `m`, the listed values are those of `WithPrefix`, position by position. */
  lemma {:induction false} ValuesWithPrefixAt<V>(ks: seq<string>, m: map<string, V>, prefix: string)
    requires forall k :: k in ks ==> k in m
    ensures var listed := ValuesWithPrefix(ks, m, prefix);
      && |listed| == |WithPrefix(ks, prefix)|
      && forall i :: 0 <= i < |listed| ==> WithPrefix(ks, prefix)[i] in m && listed[i] == m[WithPrefix(ks, prefix)[i]]
  {
    if |ks| > 0 {
      ValuesWithPrefixAt(ks[..|ks| - 1], m, prefix);
    }
  }

  /** `m` without the keys that start with `prefix`. */
  function DropPrefixed<V>(m: map<string, V>, prefix: string): (r: map<string, V>)
    ensures forall k :: k in r <==> k in m && !StartsWith(k, prefix)
    ensures forall k :: k in r ==> r[k] == m[k]
  {
    map k | k in m && !StartsWith(k, prefix) :: m[k]
  }

  /** The keys of `m` that start with `prefix`. */
  function KeysWithPrefix<V>(m: map<string, V>, prefix: string): set<string> {
    set k | k in m && StartsWith(k, prefix)
  }

  lemma {:induction false} DistinctCard(ks: seq<string>)
    requires Distinct(ks)
    ensures |set k | k in ks| == |ks|
  {
    if |ks| > 0 {
      var init := ks[..|ks| - 1];
      DistinctCard(init);
      assert (set k | k in ks) == (set k | k in init) + {ks[|ks| - 1]};
    }
  }

  /** Some enumeration order of the keys in `keys`. */
  method EnumerateKeys(keys: set<string>) returns (order: seq<string>)
    ensures Distinct(order)
    ensures forall k :: k in order <==> k in keys
  {
    order := [];
    var rest := keys;
    while rest != {}
      invariant rest <= keys
      invariant Distinct(order)
      invariant forall k :: k in order <==> k in keys && k !in rest
      decreases rest
    {
      var k :| k in rest;
      order := order + [k];
      rest := rest - {k};
    }
  }

  class KvStore<V> {
    var obj: map<string, V>
    var order: seq<string>

    /** Every key appears once in the enumeration order, and only the object's keys do. */
    ghost predicate Valid()
      reads this
    {
      Distinct(order) && forall k :: k in order <==> k in obj
    }

    constructor ()
      ensures Valid() && obj == map[] && order == []
    {
      obj := map[];
      order := [];
    }

    /** `get(key)`: the stored value, or `undefined` when the key is absent. */
    function Get(key: string): (r: Option<V>)
      reads this
      ensures r.Some? <==> key in obj
      ensures r.Some? ==> r.value == obj[key]
    {
      if key in obj then Some(obj[key]) else None
    }

    /** `set(key, value)`: `key` now holds `value`; every other key is unchanged. */
    method Set(key: string, value: V)
      requires Valid()
      modifies this
      ensures Valid()
      ensures obj == old(obj)[key := value]
      ensures order == if key in old(obj) then old(order) else old(order) + [key]
    {
      if key !in obj {
        order := order + [key];
      }
      obj := obj[key := value];
    }

    /** `list(keyPrefix)`: the VALUES of the entries whose key starts with the prefix, in key order. */
    method List(keyPrefix: string) returns (results: seq<V>)
      requires Valid()
      ensures results == ValuesWithPrefix(order, obj, keyPrefix)
    {
      results := [];
      var i := 0;
      while i < |order|
        invariant 0 <= i <= |order|
        invariant forall k :: k in order[..i] ==> k in obj
        invariant results == ValuesWithPrefix(order[..i], obj, keyPrefix)
      {
        var key := order[i];
        assert order[..i + 1] == order[..i] + [key];
        if StartsWith(key, keyPrefix) {
          results := results + [obj[key]];
        }
        i := i + 1;
      }
      assert order[..i] == order;
    }

    /** `delete(keyPrefix)`: removes EVERY key that starts with the prefix and nothing else. */
    method Delete(keyPrefix: string)
      requires Valid()
      modifies this
      ensures Valid()
      ensures obj == DropPrefixed(old(obj), keyPrefix)
      ensures order == WithoutPrefix(old(order), keyPrefix)
    {
      // The loop visits a snapshot of the keys and deletes from a working copy
      // of the object, which is written back once the loop is done.
      var keys, snapshot := order, obj;
      var remaining, kept := snapshot, keys;
      var i := 0;
      while i < |keys|
        invariant 0 <= i <= |keys|
        invariant remaining == Remaining(snapshot, keys, i, keyPrefix)
        invariant kept == Kept(keys, i, keyPrefix)
      {
        var key := keys[i];
        DeleteTurn(snapshot, keys, i, keyPrefix);
        if StartsWith(key, keyPrefix) {
          remaining := remaining - {key};
          kept := Without(kept, key);
        }
        i := i + 1;
      }
      DeleteDone(snapshot, keys, keyPrefix);
      obj, order := remaining, kept;
    }
  }

  /** The map once the first `i` keys are visited. */
  function Remaining<V>(m: map<string, V>, keys: seq<string>, i: nat, prefix: string): map<string, V>
    requires i <= |keys|
  {
    DropVisited(m, keys[..i], prefix)
  }

  /** The order once the first `i` keys are visited: the kept ones, then the unvisited. */
  function Kept(keys: seq<string>, i: nat, prefix: string): seq<string>
    requires i <= |keys|
  {
    WithoutPrefix(keys[..i], prefix) + keys[i..]
  }

  /** One turn of `delete`'s loop: the `i`-th key leaves the map and the order iff it matches. */
  lemma DeleteTurn<V>(m: map<string, V>, keys: seq<string>, i: nat, prefix: string)
    requires Distinct(keys) && i < |keys|
    ensures Remaining(m, keys, i + 1, prefix)
         == if StartsWith(keys[i], prefix) then Remaining(m, keys, i, prefix) - {keys[i]}
            else Remaining(m, keys, i, prefix)
    ensures Kept(keys, i + 1, prefix)
         == if StartsWith(keys[i], prefix) then Without(Kept(keys, i, prefix), keys[i])
            else Kept(keys, i, prefix)
  {
    assert keys[..i + 1] == keys[..i] + [keys[i]];
    DropVisitedStep(m, keys[..i], keys[i], prefix);
    OrderStep(keys, i, prefix);
  }


  /** After a prefix delete the remaining order and map still agree. */
  lemma DeletedValid<V>(m: map<string, V>, keys: seq<string>, prefix: string)
    requires Distinct(keys) && forall k :: k in keys <==> k in m
    ensures Distinct(WithoutPrefix(keys, prefix))
    ensures forall k :: k in WithoutPrefix(keys, prefix) <==> k in DropPrefixed(m, prefix)
  {
    WithoutPrefixKeys(keys, prefix);
  }

  /** Once every key is visited, the working copies are the store with the prefixed keys gone. */
  lemma DeleteDone<V>(m: map<string, V>, keys: seq<string>, prefix: string)
    requires Distinct(keys) && forall k :: k in keys <==> k in m
    ensures Remaining(m, keys, |keys|, prefix) == DropPrefixed(m, prefix)
    ensures Kept(keys, |keys|, prefix) == WithoutPrefix(keys, prefix)
    ensures Distinct(WithoutPrefix(keys, prefix))
    ensures forall k :: k in WithoutPrefix(keys, prefix) <==> k in DropPrefixed(m, prefix)
  {
    assert keys[..|keys|] == keys && keys[|keys|..] == [];
    DropVisitedAll(m, keys, prefix);
    DeletedValid(m, keys, prefix);
  }

  /** The keys listed in `visited` that start with `prefix`. */
  function VisitedMatching(visited: seq<string>, prefix: string): set<string> {
    set k | k in visited && StartsWith(k, prefix)
  }

  /** `m` without the keys that start with `prefix` among those listed in `visited`. */
  function DropVisited<V>(m: map<string, V>, visited: seq<string>, prefix: string): map<string, V> {
    m - VisitedMatching(visited, prefix)
  }

  lemma DropVisitedStep<V>(m: map<string, V>, visited: seq<string>, key: string, prefix: string)
    ensures DropVisited(m, visited + [key], prefix)
         == if StartsWith(key, prefix) then DropVisited(m, visited, prefix) - {key}
            else DropVisited(m, visited, prefix)
  {
    var before := VisitedMatching(visited, prefix);
    assert VisitedMatching(visited + [key], prefix)
        == before + (if StartsWith(key, prefix) then {key} else {});
  }

  lemma DropVisitedAll<V>(m: map<string, V>, keys: seq<string>, prefix: string)
    requires forall k :: k in keys <==> k in m
    ensures DropVisited(m, keys, prefix) == DropPrefixed(m, prefix)
  {
    assert DropVisited(m, keys, prefix).Keys == DropPrefixed(m, prefix).Keys;
  }

  /** One turn of `delete`'s loop on the enumeration order: the `i`-th key goes iff it matches. */
  lemma OrderStep(keys: seq<string>, i: nat, prefix: string)
    requires Distinct(keys) && i < |keys|
    ensures var next := WithoutPrefix(keys[..i + 1], prefix) + keys[i + 1..];
      if StartsWith(keys[i], prefix)
      then Without(WithoutPrefix(keys[..i], prefix) + keys[i..], keys[i]) == next
      else WithoutPrefix(keys[..i], prefix) + keys[i..] == next
  {
    var done := WithoutPrefix(keys[..i], prefix);
    assert (keys[..i + 1])[..i] == keys[..i];
    assert WithoutPrefix(keys[..i + 1], prefix)
        == done + (if StartsWith(keys[i], prefix) then [] else [keys[i]]);
    assert keys[i..] == [keys[i]] + keys[i + 1..];
    if StartsWith(keys[i], prefix) {
      WithoutPrefixKeys(keys[..i], prefix);
      assert done + keys[i..] == done + [keys[i]] + keys[i + 1..];
      WithoutOnce(done, keys[i], keys[i + 1..]);
    }
  }

  /**
   * What `list` returns, element by element: a value is listed iff some key
   * with the prefix holds it, and there is one listed value per such key.
   */
  lemma ListedValues<V>(store: KvStore<V>, prefix: string)
    requires store.Valid()
    ensures var listed := ValuesWithPrefix(store.order, store.obj, prefix);
      && |listed| == |KeysWithPrefix(store.obj, prefix)|
      && forall v :: v in listed <==> exists k :: k in store.obj && StartsWith(k, prefix) && store.obj[k] == v
  {
    var ks := WithPrefix(store.order, prefix);
    var listed := ValuesWithPrefix(store.order, store.obj, prefix);
    ValuesWithPrefixAt(store.order, store.obj, prefix);
    WithPrefixKeys(store.order, prefix);
    DistinctCard(ks);
    assert (set k | k in ks) == KeysWithPrefix(store.obj, prefix);
    forall v | v in listed
      ensures exists k :: k in store.obj && StartsWith(k, prefix) && store.obj[k] == v
    {
      var i :| 0 <= i < |listed| && listed[i] == v;
      assert ks[i] in ks;
    }
    forall v | exists k :: k in store.obj && StartsWith(k, prefix) && store.obj[k] == v
      ensures v in listed
    {
      var k :| k in store.obj && StartsWith(k, prefix) && store.obj[k] == v;
      assert k in ks;
      var i :| 0 <= i < |ks| && ks[i] == k;
      assert listed[i] == v;
    }
  }
}
