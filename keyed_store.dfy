/**
 * IndexedDB object stores with a `keyPath`, modelled as maps from the key to the record.
 * `put` inserts or overwrites the record under its key; `getAll` lists every record once.
 */
module KeyedStore {
  import opened Wrappers

  /** Every record is filed under its own key, as the store's `keyPath` guarantees. */
  ghost predicate KeyConsistent<V>(m: map<string, V>, key: V -> string) {
    forall k :: k in m ==> key(m[k]) == k
  }

  /** `store.put(r)` for each record of `recs` in turn. */
  function PutAll<V>(m: map<string, V>, recs: seq<V>, key: V -> string): map<string, V>
    decreases |recs|
  {
    if recs == [] then m else PutAll(m[key(recs[0]) := recs[0]], recs[1..], key)
  }

  /** The loop form: putting one more record updates the map under that record's key. */
  lemma {:induction false} PutAllSnoc<V>(m: map<string, V>, recs: seq<V>, x: V, key: V -> string)
    ensures PutAll(m, recs + [x], key) == PutAll(m, recs, key)[key(x) := x]
    decreases |recs|
  {
    if recs == [] {
      assert ([] + [x])[1..] == [];
    } else {
      assert (recs + [x])[1..] == recs[1..] + [x];
      PutAllSnoc(m[key(recs[0]) := recs[0]], recs[1..], x, key);
    }
  }

  /** A key is present afterwards exactly when it was present before or some record has it. */
  lemma {:induction false} PutAllKeys<V>(m: map<string, V>, recs: seq<V>, key: V -> string, k: string)
    ensures k in PutAll(m, recs, key) <==> k in m || exists i :: 0 <= i < |recs| && key(recs[i]) == k
    decreases |recs|
  {
    if recs != [] {
      PutAllKeys(m[key(recs[0]) := recs[0]], recs[1..], key, k);
      if exists i :: 1 <= i < |recs| && key(recs[i]) == k {
        var i :| 1 <= i < |recs| && key(recs[i]) == k;
        assert key(recs[1..][i - 1]) == k;
      }
      if exists i :: 0 <= i < |recs[1..]| && key(recs[1..][i]) == k {
        var i :| 0 <= i < |recs[1..]| && key(recs[1..][i]) == k;
        assert key(recs[i + 1]) == k;
      }
    }
  }

  /** A key no record carries keeps its old record. */
  lemma {:induction false} PutAllKeeps<V>(m: map<string, V>, recs: seq<V>, key: V -> string, k: string)
    requires k in m
    requires forall i :: 0 <= i < |recs| ==> key(recs[i]) != k
    ensures k in PutAll(m, recs, key) && PutAll(m, recs, key)[k] == m[k]
    decreases |recs|
  {
    if recs != [] {
      PutAllKeeps(m[key(recs[0]) := recs[0]], recs[1..], key, k);
    }
  }

  /** The last record with a given key is the one stored under it. */
  lemma {:induction false} PutAllLastWins<V>(m: map<string, V>, recs: seq<V>, key: V -> string, i: nat)
    requires i < |recs|
    requires forall j :: i < j < |recs| ==> key(recs[j]) != key(recs[i])
    ensures key(recs[i]) in PutAll(m, recs, key) && PutAll(m, recs, key)[key(recs[i])] == recs[i]
    decreases |recs|
  {
    var m' := m[key(recs[0]) := recs[0]];
    if i == 0 {
      PutAllKeeps(m', recs[1..], key, key(recs[0]));
    } else {
      PutAllLastWins(m', recs[1..], key, i - 1);
    }
  }

  /** Putting records under their own keys keeps every record filed under its own key. */
  lemma {:induction false} PutAllConsistent<V>(m: map<string, V>, recs: seq<V>, key: V -> string)
    requires KeyConsistent(m, key)
    ensures KeyConsistent(PutAll(m, recs, key), key)
    decreases |recs|
  {
    if recs != [] {
      PutAllConsistent(m[key(recs[0]) := recs[0]], recs[1..], key);
    }
  }

  /** `vals` lists every record of `m` exactly once, in an order the model leaves open. */
  ghost predicate Enumerates<V>(vals: seq<V>, m: map<string, V>, key: V -> string) {
    && (forall i :: 0 <= i < |vals| ==> key(vals[i]) in m && m[key(vals[i])] == vals[i])
    && (forall k :: k in m ==> exists i :: 0 <= i < |vals| && key(vals[i]) == k)
    && (forall i, j :: 0 <= i < j < |vals| ==> key(vals[i]) != key(vals[j]))
  }

  /** IndexedDB `store.getAll()`: every record once. */
  method GetAll<V>(m: map<string, V>, key: V -> string) returns (vals: seq<V>)
    requires KeyConsistent(m, key)
    ensures Enumerates(vals, m, key)
  {
    var rest := m;
    vals := [];
    while rest != map[]
      invariant forall k :: k in rest ==> k in m && rest[k] == m[k]
      invariant forall i :: 0 <= i < |vals| ==> key(vals[i]) in m && m[key(vals[i])] == vals[i]
      invariant forall i :: 0 <= i < |vals| ==> key(vals[i]) !in rest
      invariant forall k :: k in m ==> k in rest || exists i :: 0 <= i < |vals| && key(vals[i]) == k
      invariant forall i, j :: 0 <= i < j < |vals| ==> key(vals[i]) != key(vals[j])
      decreases |rest.Keys|
    {
      var k :| k in rest;
      assert key(m[k]) == k;
      ghost var before := vals;
      vals := vals + [m[k]];
      assert forall i :: 0 <= i < |before| ==> vals[i] == before[i];
      assert key(vals[|vals| - 1]) == k;
      assert rest.Keys - {k} < rest.Keys;
      rest := rest - {k};
    }
  }

  /** An enumeration is empty exactly when the store is. */
  lemma EnumeratesEmpty<V>(vals: seq<V>, m: map<string, V>, key: V -> string)
    requires Enumerates(vals, m, key)
    ensures |vals| == 0 <==> m == map[]
  {
    if |vals| == 0 {
      assert forall k :: k !in m;
      assert m.Keys == {};
    } else {
      assert key(vals[0]) in m;
    }
  }

  /** JavaScript `vals.find(r => key(r) === k)`. */
  function Find<V>(vals: seq<V>, key: V -> string, k: string): (r: Option<V>)
    ensures r.Some? ==> r.value in vals && key(r.value) == k
    ensures r.None? <==> forall i :: 0 <= i < |vals| ==> key(vals[i]) != k
  {
    if vals == [] then None
    else if key(vals[0]) == k then Some(vals[0])
    else Find(vals[1..], key, k)
  }

  /** Searching an enumeration by key is looking the key up in the store. */
  lemma FindInEnumeration<V>(vals: seq<V>, m: map<string, V>, key: V -> string, k: string)
    requires Enumerates(vals, m, key)
    ensures Find(vals, key, k) == if k in m then Some(m[k]) else None
  {
    var r := Find(vals, key, k);
    if k in m {
      assert exists i :: 0 <= i < |vals| && key(vals[i]) == k;
    }
    if r.Some? {
      var i :| 0 <= i < |vals| && vals[i] == r.value;
    }
  }
}
