/**
 * A JavaScript `Map` as an association list: entries in first-insertion order.
 * `set` on a key already present overwrites its value in place (the entry keeps
 * its position); `set` on a new key appends; `delete` removes the entry.
 */
module OrderedMap {
  import opened Wrappers

  type Entries<K, V> = seq<(K, V)>

  /** Every key occurs at most once, as in a JavaScript `Map`. */
  predicate UniqueKeys<K(==), V>(m: Entries<K, V>) {
    forall i, j :: 0 <= i < j < |m| ==> m[i].0 != m[j].0
  }

  predicate HasKey<K(==), V>(m: Entries<K, V>, k: K) {
    exists i :: 0 <= i < |m| && m[i].0 == k
  }

  /** The keys, in iteration (first-insertion) order. */
  function Keys<K, V>(m: Entries<K, V>): seq<K> {
    seq(|m|, i requires 0 <= i < |m| => m[i].0)
  }

  /** The position of the first entry with key `k`. */
  function IndexOf<K(==), V>(m: Entries<K, V>, k: K): (r: Option<nat>)
    ensures r.None? <==> !HasKey(m, k)
    ensures r.Some? ==> r.value < |m| && m[r.value].0 == k
    ensures r.Some? ==> forall j :: 0 <= j < r.value ==> m[j].0 != k
  {
    if m == [] then None
    else if m[0].0 == k then Some(0)
    else
      match IndexOf(m[1..], k)
      case None => None
      case Some(i) => Some(i + 1)
  }

  /** An entry with key `k` preceded by no other such entry is the one `IndexOf` finds. */
  lemma {:induction false} IndexOfFirst<K, V>(m: Entries<K, V>, k: K, p: nat)
    requires p < |m| && m[p].0 == k
    requires forall j :: 0 <= j < p ==> m[j].0 != k
    ensures IndexOf(m, k) == Some(p)
  {
    if p > 0 {
      assert m[1..][p - 1] == m[p];
      IndexOfFirst(m[1..], k, p - 1);
    }
  }

  /** `m.get(k)`. */
  function Get<K(==), V>(m: Entries<K, V>, k: K): (r: Option<V>)
    ensures r.Some? <==> HasKey(m, k)
    ensures UniqueKeys(m) ==> forall i :: 0 <= i < |m| && m[i].0 == k ==> r == Some(m[i].1)
  {
    match IndexOf(m, k)
    case None => None
    case Some(i) => Some(m[i].1)
  }

  /** `m.set(k, v)`. */
  function Put<K(==), V>(m: Entries<K, V>, k: K, v: V): (r: Entries<K, V>)
    ensures HasKey(m, k) ==> |r| == |m|
    ensures !HasKey(m, k) ==> r == m + [(k, v)]
    ensures forall i :: 0 <= i < |m| ==> r[i].0 == m[i].0
    ensures forall i :: 0 <= i < |m| && m[i].0 != k ==> r[i] == m[i]
    ensures Get(r, k) == Some(v)
    ensures UniqueKeys(m) ==> UniqueKeys(r)
  {
    match IndexOf(m, k)
    case None =>
      IndexOfFirst(m + [(k, v)], k, |m|);
      m + [(k, v)]
    case Some(i) =>
      var r := m[i := (k, v)];
      IndexOfFirst(r, k, i);
      r
  }

  /** Keys(m) lists exactly the keys of `m`. */
  lemma KeysListsKeys<K, V>(m: Entries<K, V>, k: K)
    ensures k in Keys(m) <==> HasKey(m, k)
  {
    if HasKey(m, k) {
      var i :| 0 <= i < |m| && m[i].0 == k;
      assert Keys(m)[i] == k;
    }
  }

  /** `set` on one key leaves what every other key maps to unchanged. */
  lemma GetPutOther<K, V>(m: Entries<K, V>, k: K, v: V, u: K)
    requires u != k
    ensures Get(Put(m, k, v), u) == Get(m, u)
  {
    var r := Put(m, k, v);
    if HasKey(m, u) {
      var i := IndexOf(m, u).value;
      IndexOfFirst(r, u, i);
    }
  }

  /** After `set`, the keys are the old keys in the old order, the new key appended if it was absent. */
  lemma KeysAfterPut<K, V>(m: Entries<K, V>, k: K, v: V)
    ensures HasKey(m, k) ==> Keys(Put(m, k, v)) == Keys(m)
    ensures !HasKey(m, k) ==> Keys(Put(m, k, v)) == Keys(m) + [k]
  {
  }

  /** `m.delete(k)`. */
  function Delete<K(==), V(==)>(m: Entries<K, V>, k: K): (r: Entries<K, V>)
    ensures forall i :: 0 <= i < |r| ==> r[i] in m
    ensures forall i :: 0 <= i < |m| && m[i].0 != k ==> m[i] in r
    ensures UniqueKeys(m) ==> UniqueKeys(r) && !HasKey(r, k)
    ensures UniqueKeys(m) ==> |r| == if HasKey(m, k) then |m| - 1 else |m|
  {
    if m == [] then []
    else if m[0].0 == k then m[1..]
    else [m[0]] + Delete(m[1..], k)
  }

  /** The key of the first entry, in iteration order, whose value is `v`. */
  function KeyOf<K(==), V(==)>(m: Entries<K, V>, v: V): (r: Option<K>)
    ensures r.Some? ==> (r.value, v) in m
    ensures r.Some? ==> exists i :: 0 <= i < |m| && m[i] == (r.value, v) && forall j :: 0 <= j < i ==> m[j].1 != v
    ensures r.None? <==> forall i :: 0 <= i < |m| ==> m[i].1 != v
  {
    if m == [] then None
    else if m[0].1 == v then Some(m[0].0)
    else KeyOf(m[1..], v)
  }

  /** No value occurs twice: read as a map from values back to keys, the map is a function. */
  predicate UniqueValues<K, V(==)>(m: Entries<K, V>) {
    forall i, j :: 0 <= i < j < |m| ==> m[i].1 != m[j].1
  }

  /** `set` with a value no entry holds keeps the values unique. */
  lemma PutFreshValueKeepsUniqueValues<K, V>(m: Entries<K, V>, k: K, v: V)
    requires UniqueValues(m)
    requires forall i :: 0 <= i < |m| ==> m[i].1 != v
    ensures UniqueValues(Put(m, k, v))
  {
  }

  /** `delete` keeps the values unique. */
  lemma {:induction false} DeleteKeepsUniqueValues<K, V>(m: Entries<K, V>, k: K)
    requires UniqueValues(m)
    ensures UniqueValues(Delete(m, k))
  {
    if m != [] && m[0].0 != k {
      var rest := Delete(m[1..], k);
      DeleteKeepsUniqueValues(m[1..], k);
      forall j | 0 <= j < |rest|
        ensures m[0].1 != rest[j].1
      {
        var i :| 0 <= i < |m[1..]| && m[1..][i] == rest[j];
        assert m[i + 1] == rest[j];
      }
      assert Delete(m, k) == [m[0]] + rest;
    }
  }

  /** With unique keys, `delete` on one key leaves what every other key maps to unchanged. */
  lemma GetDeleteOther<K, V>(m: Entries<K, V>, k: K, u: K)
    requires UniqueKeys(m) && u != k
    ensures Get(Delete(m, k), u) == Get(m, u)
  {
    var r := Delete(m, k);
    if HasKey(m, u) {
      var i :| 0 <= i < |m| && m[i].0 == u;
      assert m[i] in r;
      var j :| 0 <= j < |r| && r[j] == m[i];
      assert Get(r, u) == Some(r[j].1);
    }
  }
}
