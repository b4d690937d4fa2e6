/** The vertex lookup, by its add-or-get contract: an ordered pool of
    quantised keys. Adding a key already pooled returns its index; adding a
    new key appends it and returns the previous pool size. */
module VertexPool {
  import opened Geometry

  /** No key occurs twice: every pooled vertex has one index. Stated
      entry by entry: each key differs from all keys before it. */
  ghost predicate Distinct(keys: seq<Key>)
    decreases |keys|
  {
    |keys| == 0 ||
    (Distinct(keys[..|keys| - 1]) && keys[|keys| - 1] !in keys[..|keys| - 1])
  }

  /** Two positions of a duplicate-free pool hold different keys. */
  lemma {:induction false} DistinctAt(keys: seq<Key>, i: nat, j: nat)
    requires Distinct(keys) && i < j < |keys|
    ensures keys[i] != keys[j]
    decreases |keys|
  {
    var n := |keys| - 1;
    if j == n {
      assert keys[i] == keys[..n][i];
    } else {
      DistinctAt(keys[..n], i, j);
    }
  }

  /** The position of the first occurrence of `key`. */
  function IndexOf(keys: seq<Key>, key: Key): (i: nat)
    requires key in keys
    ensures i < |keys| && keys[i] == key && key !in keys[..i]
    decreases |keys|
  {
    if keys[0] == key then 0
    else
      var i := 1 + IndexOf(keys[1..], key);
      assert keys[..i] == [keys[0]] + keys[1..][..i - 1];
      i
  }

  /** Add-or-get: the index of `key`, appending it when it is new. */
  function Add(keys: seq<Key>, key: Key): (r: (seq<Key>, nat))
    ensures r.1 < |r.0| && r.0[r.1] == key
    ensures key in keys ==> r.0 == keys
    ensures key !in keys ==> r.0 == keys + [key] && r.1 == |keys|
  {
    if key in keys then (keys, IndexOf(keys, key)) else (keys + [key], |keys|)
  }

  /** Adding keeps the pool free of duplicates. */
  lemma AddKeepsDistinct(keys: seq<Key>, key: Key)
    ensures Distinct(keys) ==> Distinct(Add(keys, key).0)
  {
    if key !in keys {
      assert (keys + [key])[..|keys|] == keys;
    }
  }

  /** In a duplicate-free pool the index of a key is its only position. */
  lemma IndexOfUnique(keys: seq<Key>, key: Key, i: nat)
    requires Distinct(keys) && i < |keys| && keys[i] == key
    ensures IndexOf(keys, key) == i
  {
    var j := IndexOf(keys, key);
    if j < i {
      DistinctAt(keys, j, i);
    }
  }

  /** Adding the same key twice: the second call returns the same index and
      leaves the pool as the first call left it. */
  lemma AddIdempotent(keys: seq<Key>, key: Key)
    ensures Add(Add(keys, key).0, key) == Add(keys, key)
  {
    var (keys1, i1) := Add(keys, key);
    if key !in keys {
      assert key !in keys1[..i1];
    }
  }

  /** Add-or-get applied to each key of `ks` in turn, as a run of lookups
      in call order does. */
  function AddAll(keys: seq<Key>, ks: seq<Key>): (r: seq<Key>)
    ensures keys <= r && |r| <= |keys| + |ks|
    ensures forall x :: x in ks ==> x in r
    ensures forall x :: x in r ==> x in keys || x in ks
    ensures Distinct(keys) ==> Distinct(r)
    decreases |ks|
  {
    if |ks| == 0 then keys
    else
      AddKeepsDistinct(keys, ks[0]);
      var r := AddAll(Add(keys, ks[0]).0, ks[1..]);
      assert forall x :: x in ks ==> x == ks[0] || x in ks[1..];
      r
  }

  /** Looking up `a` and then `b` is looking up their concatenation. */
  lemma {:induction false} AddAllAppend(keys: seq<Key>, a: seq<Key>, b: seq<Key>)
    ensures AddAll(keys, a + b) == AddAll(AddAll(keys, a), b)
    decreases |a|
  {
    if |a| == 0 {
      assert a + b == b;
    } else {
      assert (a + b)[0] == a[0];
      assert (a + b)[1..] == a[1..] + b;
      AddAllAppend(Add(keys, a[0]).0, a[1..], b);
    }
  }

  lemma AddAllTwo(keys: seq<Key>, a: Key, b: Key)
    ensures AddAll(keys, [a, b]) == Add(Add(keys, a).0, b).0
  {
    assert [a, b][1..] == [b];
    assert [b][1..] == [];
  }

  lemma AddAllThree(keys: seq<Key>, a: Key, b: Key, c: Key)
    ensures AddAll(keys, [a, b, c]) == Add(Add(Add(keys, a).0, b).0, c).0
  {
    assert [a, b, c][1..] == [b, c];
    AddAllTwo(Add(keys, a).0, b, c);
  }
}
