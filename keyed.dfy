/**
 * Lists whose entries are identified by a key: the runtime spec's namespace
 * list (keyed by kind), rlimit list (by type), device list (by path) and
 * buildah's namespace-option list (by name). The generator of the runtime
 * spec and buildah's option merging both "add or replace" an entry (the
 * first entry with the same key is overwritten, otherwise the entry is
 * appended) and "remove" an entry (the first entry with the key is cut out).
 */
module Keyed {
  import opened Wrappers

  /** Index of the first entry whose key is `k`, or |xs| when there is none. */
  function FirstIndex<T, K(==)>(xs: seq<T>, key: T -> K, k: K): (i: nat)
    ensures i <= |xs|
    ensures forall j :: 0 <= j < i ==> key(xs[j]) != k
    ensures i < |xs| ==> key(xs[i]) == k
  {
    if xs == [] then 0
    else if key(xs[0]) == k then 0
    else 1 + FirstIndex(xs[1..], key, k)
  }

  /** The first entry with key `k`. */
  function Lookup<T, K(==)>(xs: seq<T>, key: T -> K, k: K): (r: Option<T>)
    ensures r.None? <==> forall j :: 0 <= j < |xs| ==> key(xs[j]) != k
    ensures r.Some? ==> r.value in xs && key(r.value) == k
  {
    var i := FirstIndex(xs, key, k);
    if i < |xs| then Some(xs[i]) else None
  }

  /** The set of keys present in the list. */
  function Keys<T, K(==)>(xs: seq<T>, key: T -> K): set<K> {
    set j | 0 <= j < |xs| :: key(xs[j])
  }

  /** No two entries share a key. */
  ghost predicate UniqueKeys<T, K>(xs: seq<T>, key: T -> K) {
    forall i, j :: 0 <= i < j < |xs| ==> key(xs[i]) != key(xs[j])
  }

  /** Add-or-replace: overwrite the first entry with the same key in place, else append. */
  function Upsert<T, K(==)>(xs: seq<T>, key: T -> K, x: T): (r: seq<T>)
    ensures var i := FirstIndex(xs, key, key(x));
      if i < |xs| then r == xs[i := x] else r == xs + [x]
  {
    var i := FirstIndex(xs, key, key(x));
    if i < |xs| then xs[i := x] else xs + [x]
  }

  /** Remove the first entry with key `k`; a missing key leaves the list unchanged. */
  function RemoveFirst<T, K(==)>(xs: seq<T>, key: T -> K, k: K): (r: seq<T>)
    ensures var i := FirstIndex(xs, key, k);
      if i < |xs| then r == xs[..i] + xs[i + 1..] else r == xs
  {
    var i := FirstIndex(xs, key, k);
    if i < |xs| then xs[..i] + xs[i + 1..] else xs
  }

  /** The first index is determined by its two defining properties. */
  lemma FirstIndexIs<T, K>(xs: seq<T>, key: T -> K, k: K, i: nat)
    requires i <= |xs|
    requires i < |xs| ==> key(xs[i]) == k
    requires forall j :: 0 <= j < i ==> key(xs[j]) != k
    ensures FirstIndex(xs, key, k) == i
  {
  }

  /** After an add-or-replace, the entry for the new key is the new entry and every other key is looked up as before. */
  lemma UpsertLookup<T, K>(xs: seq<T>, key: T -> K, x: T, k: K)
    ensures Lookup(Upsert(xs, key, x), key, k) == if k == key(x) then Some(x) else Lookup(xs, key, k)
  {
    var i := FirstIndex(xs, key, key(x));
    var r := Upsert(xs, key, x);
    assert forall l :: 0 <= l < |xs| && l != i ==> r[l] == xs[l];
    if k == key(x) {
      FirstIndexIs(r, key, k, i);
    } else {
      var j := FirstIndex(xs, key, k);
      assert j < |xs| ==> j != i;
      FirstIndexIs(r, key, k, if j < |xs| then j else |r|);
    }
  }

  /** An add-or-replace adds exactly the new key to the key set. */
  lemma UpsertKeys<T, K>(xs: seq<T>, key: T -> K, x: T)
    ensures Keys(Upsert(xs, key, x), key) == Keys(xs, key) + {key(x)}
  {
    var i := FirstIndex(xs, key, key(x));
    var r := Upsert(xs, key, x);
    if i < |xs| {
      forall k | k in Keys(xs, key) + {key(x)} ensures k in Keys(r, key) {
        if k != key(x) {
          var j :| 0 <= j < |xs| && key(xs[j]) == k;
          assert r[j] == xs[j];
        } else {
          assert key(r[i]) == k;
        }
      }
      forall k | k in Keys(r, key) ensures k in Keys(xs, key) + {key(x)} {
        var j :| 0 <= j < |r| && key(r[j]) == k;
        if j != i { assert r[j] == xs[j]; }
      }
    } else {
      forall k | k in Keys(xs, key) + {key(x)} ensures k in Keys(r, key) {
        if k != key(x) {
          var j :| 0 <= j < |xs| && key(xs[j]) == k;
          assert r[j] == xs[j];
        } else {
          assert key(r[|xs|]) == k;
        }
      }
      forall k | k in Keys(r, key) ensures k in Keys(xs, key) + {key(x)} {
        var j :| 0 <= j < |r| && key(r[j]) == k;
        if j < |xs| { assert r[j] == xs[j]; }
      }
    }
  }

  /** Add-or-replace keeps a key-unique list key-unique. */
  lemma UpsertUnique<T, K>(xs: seq<T>, key: T -> K, x: T)
    requires UniqueKeys(xs, key)
    ensures UniqueKeys(Upsert(xs, key, x), key)
  {
    var i := FirstIndex(xs, key, key(x));
    var r := Upsert(xs, key, x);
    if i < |xs| {
      forall a, b | 0 <= a < b < |r| ensures key(r[a]) != key(r[b]) {
        if a == i { assert key(r[b]) == key(xs[b]); }
        else if b == i { assert key(r[a]) == key(xs[a]); }
      }
    } else {
      forall a, b | 0 <= a < b < |r| ensures key(r[a]) != key(r[b]) {
        if b == |xs| { assert r[a] == xs[a]; }
      }
    }
  }

  /** In a key-unique list, removing a key leaves no entry with it and looks every other key up as before. */
  lemma RemoveLookup<T, K>(xs: seq<T>, key: T -> K, k: K, q: K)
    requires UniqueKeys(xs, key)
    ensures Lookup(RemoveFirst(xs, key, k), key, q) == if q == k then None else Lookup(xs, key, q)
  {
    var i := FirstIndex(xs, key, k);
    var r := RemoveFirst(xs, key, k);
    if i < |xs| {
      assert |r| == |xs| - 1;
      assert forall j :: 0 <= j < i ==> r[j] == xs[j];
      assert forall j :: i <= j < |r| ==> r[j] == xs[j + 1];
      if q == k {
        FirstIndexIs(r, key, q, |r|);
      } else {
        var j := FirstIndex(xs, key, q);
        assert j != i;
        FirstIndexIs(r, key, q, if j == |xs| then |r| else if j < i then j else j - 1);
      }
    }
  }

  /** Removing an entry keeps a key-unique list key-unique. */
  lemma RemoveUnique<T, K>(xs: seq<T>, key: T -> K, k: K)
    requires UniqueKeys(xs, key)
    ensures UniqueKeys(RemoveFirst(xs, key, k), key)
  {
    var i := FirstIndex(xs, key, k);
    var r := RemoveFirst(xs, key, k);
    if i < |xs| {
      forall a, b | 0 <= a < b < |r| ensures key(r[a]) != key(r[b]) {
        var a' := if a < i then a else a + 1;
        var b' := if b < i then b else b + 1;
        assert r[a] == xs[a'] && r[b] == xs[b'];
      }
    }
  }

  /** Add-or-replace each entry of `ys` in turn. */
  function UpsertAll<T, K(==)>(xs: seq<T>, key: T -> K, ys: seq<T>): seq<T>
    decreases |ys|
  {
    if ys == [] then xs else Upsert(UpsertAll(xs, key, ys[..|ys| - 1]), key, ys[|ys| - 1])
  }

  lemma UpsertAllSnoc<T, K>(xs: seq<T>, key: T -> K, ys: seq<T>, y: T)
    ensures UpsertAll(xs, key, ys + [y]) == Upsert(UpsertAll(xs, key, ys), key, y)
  {
    assert (ys + [y])[..|ys|] == ys;
  }

  /** The last entry of `ys` with key `k`. */
  function LastWith<T, K(==)>(ys: seq<T>, key: T -> K, k: K): (r: Option<T>)
    ensures r.None? <==> forall j :: 0 <= j < |ys| ==> key(ys[j]) != k
    ensures r.Some? ==> key(r.value) == k
    ensures r.Some? ==>
      exists j :: 0 <= j < |ys| && ys[j] == r.value && forall l :: j < l < |ys| ==> key(ys[l]) != k
    decreases |ys|
  {
    if ys == [] then None
    else if key(ys[|ys| - 1]) == k then Some(ys[|ys| - 1])
    else
      var r := LastWith(ys[..|ys| - 1], key, k);
      assert forall j :: 0 <= j < |ys| - 1 ==> ys[..|ys| - 1][j] == ys[j];
      r
  }

  /** After adding a list of entries, a key is found at its last added entry, else where it was. */
  lemma {:induction false} UpsertAllLookup<T, K>(xs: seq<T>, key: T -> K, ys: seq<T>, k: K)
    ensures Lookup(UpsertAll(xs, key, ys), key, k) ==
      if LastWith(ys, key, k).Some? then LastWith(ys, key, k) else Lookup(xs, key, k)
    decreases |ys|
  {
    if ys != [] {
      var init := ys[..|ys| - 1];
      UpsertAllLookup(xs, key, init, k);
      UpsertLookup(UpsertAll(xs, key, init), key, ys[|ys| - 1], k);
    }
  }

  /** Adding a list of entries adds exactly their keys. */
  lemma {:induction false} UpsertAllKeys<T, K>(xs: seq<T>, key: T -> K, ys: seq<T>)
    ensures Keys(UpsertAll(xs, key, ys), key) == Keys(xs, key) + Keys(ys, key)
    decreases |ys|
  {
    if ys != [] {
      var init := ys[..|ys| - 1];
      UpsertAllKeys(xs, key, init);
      UpsertKeys(UpsertAll(xs, key, init), key, ys[|ys| - 1]);
      assert ys == init + [ys[|ys| - 1]];
      assert Keys(ys, key) == Keys(init, key) + {key(ys[|ys| - 1])} by {
        forall q | q in Keys(ys, key) ensures q in Keys(init, key) + {key(ys[|ys| - 1])} {
          var j :| 0 <= j < |ys| && key(ys[j]) == q;
          if j < |init| { assert init[j] == ys[j]; }
        }
        forall q | q in Keys(init, key) ensures q in Keys(ys, key) {
          var j :| 0 <= j < |init| && key(init[j]) == q;
          assert ys[j] == init[j];
        }
      }
    }
  }

  /** Adding a list of entries keeps a key-unique list key-unique. */
  lemma {:induction false} UpsertAllUnique<T, K>(xs: seq<T>, key: T -> K, ys: seq<T>)
    requires UniqueKeys(xs, key)
    ensures UniqueKeys(UpsertAll(xs, key, ys), key)
    decreases |ys|
  {
    if ys != [] {
      UpsertAllUnique(xs, key, ys[..|ys| - 1]);
      UpsertUnique(UpsertAll(xs, key, ys[..|ys| - 1]), key, ys[|ys| - 1]);
    }
  }
}
