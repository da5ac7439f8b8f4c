/**
 * The browser's Cache API as the service workers use it: named caches, created in
 * order, each mapping a request's URL to a stored response, with the service workers'
 * network-first rule and their cleanup of outdated caches.
 */
module CacheApi {
  import opened Wrappers
  import opened Seqs

  /** A network response: its `ok` flag and its body. */
  datatype HttpResponse = HttpResponse(ok: bool, body: string)

  /** The outcome of `fetch(request)`: it rejects, or resolves with a response. */
  datatype FetchOutcome = NetworkError | Received(response: HttpResponse)

  type Cache = map<string, HttpResponse>

  ghost predicate Distinct(s: seq<string>) {
    forall i, j :: 0 <= i < j < |s| ==> s[i] != s[j]
  }

  /** `s` without any occurrence of `x`. */
  function Without(s: seq<string>, x: string): (r: seq<string>)
    ensures forall y :: y in r <==> y in s && y != x
    ensures x !in s ==> r == s
    ensures Distinct(s) ==> Distinct(r)
    decreases |s|
  {
    if s == [] then []
    else
      var rest := Without(s[1..], x);
      assert s == [s[0]] + s[1..];
      assert Distinct(s) ==> Distinct(s[1..]) && s[0] !in s[1..] by {
        if Distinct(s) {
          forall k | 0 <= k < |s[1..]| ensures s[1..][k] != s[0] {
            assert s[1..][k] == s[k + 1];
          }
        }
      }
      if s[0] == x then rest else [s[0]] + rest
  }

  lemma {:induction false} WithoutAppend(a: seq<string>, b: seq<string>, x: string)
    ensures Without(a + b, x) == Without(a, x) + Without(b, x)
    decreases |a|
  {
    if a == [] {
      assert a + b == b;
    } else {
      assert (a + b)[1..] == a[1..] + b;
      WithoutAppend(a[1..], b, x);
    }
  }

  /** The caches after `caches.open(name)`: a missing cache is created empty. */
  function Opened(caches: map<string, Cache>, name: string): (r: map<string, Cache>)
    ensures name in r && r.Keys == caches.Keys + {name}
    ensures name in caches ==> r == caches
    ensures name !in caches ==> r[name] == map[]
  {
    if name in caches then caches else caches[name := map[]]
  }

  /** `cache.match(key)` on one cache. */
  function Lookup(cache: Cache, key: string): (r: Option<HttpResponse>)
    ensures r.Some? <==> key in cache
  {
    if key in cache then Some(cache[key]) else None
  }

  /**
   * The network-first rule on cache `name`: an `ok` response is stored under the key
   * and returned, any other response is returned and not stored, and when the fetch
   * rejects the cache's own entry for the key (possibly none) is returned. The Cache
   * API stores and matches only GET requests: for any other method (`isGet` false) the
   * `put` rejects, unawaited, and the `match` resolves to nothing.
   */
  function NetworkFirstStep(caches: map<string, Cache>, name: string, key: string, isGet: bool, outcome: FetchOutcome)
    : (r: (map<string, Cache>, Option<HttpResponse>))
    ensures r.0.Keys == caches.Keys + {name}
    ensures forall n :: n in caches && n != name ==> r.0[n] == caches[n]
    ensures outcome.Received? ==> r.1 == Some(outcome.response)
    ensures !isGet ==> r.0 == Opened(caches, name)
    ensures !isGet && outcome.NetworkError? ==> r.1.None?
  {
    var withCache := Opened(caches, name);
    match outcome
    case Received(response) =>
      if response.ok && isGet then (withCache[name := withCache[name][key := response]], Some(response))
      else (withCache, Some(response))
    case NetworkError => (withCache, if isGet then Lookup(withCache[name], key) else None)
  }

  /**
   * Once an `ok` response has been fetched for a GET request, a later fetch of that
   * request that rejects is answered with that response.
   */
  lemma OfflineServesLastOk(caches: map<string, Cache>, name: string, key: string, response: HttpResponse)
    requires response.ok
    ensures var online := NetworkFirstStep(caches, name, key, true, Received(response));
            NetworkFirstStep(online.0, name, key, true, NetworkError).1 == Some(response)
  {
  }

  /**
   * A response that is not `ok`, or one to a request other than GET, never replaces
   * what is cached: the network-first rule on a rejected fetch answers the same
   * afterwards as before.
   */
  lemma NotOkLeavesCache(caches: map<string, Cache>, name: string, key: string, isGet: bool, response: HttpResponse,
                         laterIsGet: bool)
    requires !response.ok || !isGet
    ensures var after := NetworkFirstStep(caches, name, key, isGet, Received(response));
            NetworkFirstStep(after.0, name, key, laterIsGet, NetworkError)
            == NetworkFirstStep(caches, name, key, laterIsGet, NetworkError)
  {
  }

  /** The caches whose names are in `keep`, the others deleted. */
  function KeepOnly(caches: map<string, Cache>, keep: seq<string>): (r: map<string, Cache>)
    ensures forall n :: n in r <==> n in caches && n in keep
    ensures forall n :: n in r ==> r[n] == caches[n]
  {
    map n | n in caches && n in keep :: caches[n]
  }

  /** The first cache, in creation order, that holds `key`: `caches.match(key)`. */
  function FirstMatch(names: seq<string>, caches: map<string, Cache>, key: string): (r: Option<HttpResponse>)
    ensures r.None? <==> forall i :: 0 <= i < |names| && names[i] in caches ==> key !in caches[names[i]]
    ensures r.Some? ==> exists i :: 0 <= i < |names| && names[i] in caches && key in caches[names[i]]
                                    && r.value == caches[names[i]][key]
                                    && forall j :: 0 <= j < i && names[j] in caches ==> key !in caches[names[j]]
    decreases |names|
  {
    if names == [] then None
    else if names[0] in caches && key in caches[names[0]] then Some(caches[names[0]][key])
    else
      var r := FirstMatch(names[1..], caches, key);
      assert forall i :: 1 <= i < |names| ==> names[i] == names[1..][i - 1];
      r
  }

  /** The names of `names` that are in `whitelist`, in order. */
  function KeepNames(names: seq<string>, whitelist: seq<string>): (r: seq<string>)
    ensures forall n :: n in r <==> n in names && n in whitelist
    decreases |names|
  {
    if names == [] then []
    else
      var init := names[..|names| - 1];
      var n := names[|names| - 1];
      assert names == init + [n];
      KeepNames(init, whitelist) + (if n in whitelist then [n] else [])
  }

  /** Every fetch gives an `ok` response. */
  predicate AllOk(keys: seq<string>, fetchOf: string -> FetchOutcome) {
    forall i :: 0 <= i < |keys| ==> fetchOf(keys[i]).Received? && fetchOf(keys[i]).response.ok
  }

  function Last(keys: seq<string>): string
    requires keys != []
  {
    keys[|keys| - 1]
  }

  /** `cache.put(k, fetched response)` for each key in turn. */
  function PutEach(cache: Cache, keys: seq<string>, fetchOf: string -> FetchOutcome): Cache
    requires AllOk(keys, fetchOf)
    decreases |keys|
  {
    if keys == [] then cache
    else PutEach(cache, keys[..|keys| - 1], fetchOf)[Last(keys) := fetchOf(Last(keys)).response]
  }

  /** After `PutEach`, every key is cached with its fetched response, and nothing else changes. */
  lemma {:induction false} PutEachStores(cache: Cache, keys: seq<string>, fetchOf: string -> FetchOutcome, k: string)
    requires AllOk(keys, fetchOf)
    ensures k in keys ==> k in PutEach(cache, keys, fetchOf) && PutEach(cache, keys, fetchOf)[k] == fetchOf(k).response
    ensures k !in keys ==> (k in PutEach(cache, keys, fetchOf) <==> k in cache)
    ensures k !in keys && k in cache ==> PutEach(cache, keys, fetchOf)[k] == cache[k]
    decreases |keys|
  {
    if keys != [] {
      var init := keys[..|keys| - 1];
      assert keys == init + [Last(keys)];
      PutEachStores(cache, init, fetchOf, k);
    }
  }

  /** `PutEach` over the first `j + 1` keys extends `PutEach` over the first `j` by one put. */
  lemma PutEachPrefix(cache: Cache, keys: seq<string>, fetchOf: string -> FetchOutcome, j: nat)
    requires AllOk(keys, fetchOf) && j < |keys|
    ensures AllOk(keys[..j], fetchOf) && AllOk(keys[..j + 1], fetchOf)
    ensures PutEach(cache, keys[..j + 1], fetchOf)
            == PutEach(cache, keys[..j], fetchOf)[keys[j] := fetchOf(keys[j]).response]
  {
    assert keys[..j + 1][..j] == keys[..j];
    assert Last(keys[..j + 1]) == keys[j];
  }

  lemma KeepNamesSnoc(names: seq<string>, x: string, whitelist: seq<string>)
    ensures KeepNames(names + [x], whitelist) == KeepNames(names, whitelist) + (if x in whitelist then [x] else [])
  {
    assert (names + [x])[..|names|] == names;
  }

  /** A name that occurs once, between `prefix` and `rest`, occurs in neither. */
  lemma DistinctAround(prefix: seq<string>, x: string, rest: seq<string>)
    requires Distinct(prefix + [x] + rest)
    ensures x !in prefix && x !in rest
  {
    var all := prefix + [x] + rest;
    assert all[|prefix|] == x;
    forall k | 0 <= k < |prefix| ensures prefix[k] != x {
      assert all[k] == prefix[k];
    }
    forall k | 0 <= k < |rest| ensures rest[k] != x {
      assert all[|prefix| + 1 + k] == rest[k];
    }
  }

  /** Deleting a name that occurs neither in `kept` nor in `rest` from `kept + [x] + rest`. */
  lemma DropFromNames(kept: seq<string>, x: string, rest: seq<string>)
    requires x !in kept && x !in rest
    ensures Without(kept + [x] + rest, x) == kept + rest
  {
    calc {
      Without(kept + [x] + rest, x);
    == { WithoutAppend(kept + [x], rest, x); }
      Without(kept + [x], x) + Without(rest, x);
    == { WithoutAppend(kept, [x], x); WithoutSingle(x); }
      Without(kept, x) + [] + Without(rest, x);
    ==
      kept + rest;
    }
  }

  lemma WithoutSingle(x: string)
    ensures Without([x], x) == []
  {
    assert [x][1..] == [];
  }

  /** The effect of deleting, in turn, each name of `pending` that is not in `whitelist`. */
  function Cleanup(pending: seq<string>, whitelist: seq<string>, names: seq<string>, caches: map<string, Cache>)
    : (seq<string>, map<string, Cache>)
    decreases |pending|
  {
    if pending == [] then (names, caches)
    else if pending[0] in whitelist then Cleanup(pending[1..], whitelist, names, caches)
    else Cleanup(pending[1..], whitelist, Without(names, pending[0]), caches - {pending[0]})
  }

  /** One step of `Cleanup` over the names from position `i` on. */
  lemma CleanupStep(all: seq<string>, i: nat, whitelist: seq<string>, names: seq<string>, caches: map<string, Cache>)
    requires i < |all|
    ensures Cleanup(all[i..], whitelist, names, caches)
            == if all[i] in whitelist then Cleanup(all[i + 1..], whitelist, names, caches)
               else Cleanup(all[i + 1..], whitelist, Without(names, all[i]), caches - {all[i]})
  {
    assert all[i..][1..] == all[i + 1..];
  }

  /** With nothing pending, the caches left are exactly the whitelisted ones. */
  lemma CleanupDone(done: seq<string>, whitelist: seq<string>, caches: map<string, Cache>)
    requires forall n :: n in caches <==> n in KeepNames(done, whitelist)
    ensures caches == KeepOnly(caches, whitelist)
  {
    assert forall n :: n in caches ==> n in whitelist;
  }

  /** Deleting a name outside the whitelist: the state after that step, and the invariant kept. */
  lemma CleanupDrop(done: seq<string>, x: string, rest: seq<string>, whitelist: seq<string>,
                    caches: map<string, Cache>)
    requires Distinct(done + [x] + rest) && x !in whitelist
    requires forall n :: n in caches <==> n in KeepNames(done, whitelist) + [x] + rest
    ensures Without(KeepNames(done, whitelist) + [x] + rest, x) == KeepNames(done + [x], whitelist) + rest
    ensures forall n :: n in caches - {x} <==> n in KeepNames(done + [x], whitelist) + rest
    ensures KeepOnly(caches - {x}, whitelist) == KeepOnly(caches, whitelist)
  {
    var kept := KeepNames(done, whitelist);
    KeepNamesSnoc(done, x, whitelist);
    assert KeepNames(done + [x], whitelist) == kept;
    DistinctAround(done, x, rest);
    assert x !in kept;
    DropFromNames(kept, x, rest);
    KeysAfterDrop(caches, kept, x, rest);
  }

  /** Deleting `x` from caches named by `kept + [x] + rest` leaves the caches named by `kept + rest`. */
  lemma KeysAfterDrop(caches: map<string, Cache>, kept: seq<string>, x: string, rest: seq<string>)
    requires forall n :: n in caches <==> n in kept + [x] + rest
    requires x !in kept && x !in rest
    ensures forall n :: n in caches - {x} <==> n in kept + rest
  {
  }

  /**
   * Cleaning up the names still pending, once the names before them have been handled,
   * keeps exactly the whitelisted caches and their order.
   */
  lemma {:induction false} CleanupKeeps(done: seq<string>, pending: seq<string>, whitelist: seq<string>,
                                        caches: map<string, Cache>)
    requires Distinct(done + pending)
    requires forall n :: n in caches <==> n in KeepNames(done, whitelist) + pending
    ensures Cleanup(pending, whitelist, KeepNames(done, whitelist) + pending, caches)
            == (KeepNames(done + pending, whitelist), KeepOnly(caches, whitelist))
    decreases |pending|
  {
    if pending == [] {
      assert done + pending == done;
      assert KeepNames(done, whitelist) + pending == KeepNames(done, whitelist);
      CleanupDone(done, whitelist, caches);
    } else {
      var x := pending[0];
      var rest := pending[1..];
      assert done + pending == done + [x] + rest;
      assert KeepNames(done, whitelist) + pending == KeepNames(done, whitelist) + [x] + rest;
      KeepNamesSnoc(done, x, whitelist);
      if x in whitelist {
        assert KeepNames(done, whitelist) + pending == KeepNames(done + [x], whitelist) + rest;
        CleanupKeeps(done + [x], rest, whitelist, caches);
      } else {
        CleanupDrop(done, x, rest, whitelist, caches);
        CleanupKeeps(done + [x], rest, whitelist, caches - {x});
      }
    }
  }

  /** Fetching every key in turn: true when each fetch gives an `ok` response. */
  method FetchAll(keys: seq<string>, fetchOf: string -> FetchOutcome) returns (ok: bool)
    ensures ok <==> AllOk(keys, fetchOf)
  {
    var i := 0;
    ok := true;
    while i < |keys|
      invariant 0 <= i <= |keys|
      invariant ok <==> AllOk(keys[..i], fetchOf)
    {
      var outcome := fetchOf(keys[i]);
      assert keys[..i + 1] == keys[..i] + [keys[i]];
      if !(outcome.Received? && outcome.response.ok) {
        ok := false;
      }
      i := i + 1;
    }
    assert keys[..i] == keys;
  }

  /** The page's `CacheStorage`. */
  class CacheStorage {
    /** The cache names in the order `caches.keys()` lists them: creation order. */
    var names: seq<string>
    var caches: map<string, Cache>

    ghost predicate Valid()
      reads this
    {
      Distinct(names) && forall n :: n in caches <==> n in names
    }

    constructor (initialNames: seq<string>, initial: map<string, Cache>)
      requires Distinct(initialNames) && forall n :: n in initial <==> n in initialNames
      ensures Valid() && names == initialNames && caches == initial
    {
      names := initialNames;
      caches := initial;
    }

    /** `caches.match(key)`. */
    function Match(key: string): Option<HttpResponse>
      reads this
    {
      FirstMatch(names, caches, key)
    }

    /** `caches.open(name)`: creates the cache, last in order, when it does not exist. */
    method Open(name: string)
      requires Valid()
      modifies this
      ensures Valid()
      ensures caches == Opened(old(caches), name)
      ensures names == if name in old(caches) then old(names) else old(names) + [name]
    {
      if name !in caches {
        names := names + [name];
        caches := caches[name := map[]];
      }
    }

    /** `cache.put(key, response)` on the open cache `name`. */
    method Put(name: string, key: string, response: HttpResponse)
      requires Valid() && name in caches
      modifies this`caches
      ensures Valid()
      ensures caches == old(caches)[name := old(caches)[name][key := response]]
    {
      caches := caches[name := caches[name][key := response]];
    }

    /** `caches.delete(name)`: true when the cache existed. */
    method Delete(name: string) returns (existed: bool)
      requires Valid()
      modifies this
      ensures Valid()
      ensures existed <==> name in old(caches)
      ensures caches == old(caches) - {name} && names == Without(old(names), name)
    {
      existed := name in caches;
      names := Without(names, name);
      caches := caches - {name};
    }

    /**
     * The network-first rule on cache `name` for the request keyed `key`, a GET request
     * exactly when `isGet`.
     */
    method NetworkFirst(name: string, key: string, isGet: bool, outcome: FetchOutcome) returns (response: Option<HttpResponse>)
      requires Valid()
      modifies this
      ensures Valid()
      ensures (caches, response) == NetworkFirstStep(old(caches), name, key, isGet, outcome)
      ensures names == if name in old(caches) then old(names) else old(names) + [name]
    {
      Open(name);
      match outcome
      case Received(r) =>
        if r.ok && isGet {
          Put(name, key, r);
        }
        response := Some(r);
      case NetworkError =>
        response := if isGet && key in caches[name] then Some(caches[name][key]) else None;
    }

    /**
     * The `activate` cleanup: for each name `caches.keys()` lists, delete the cache when
     * the name is not in `whitelist`.
     */
    method DeleteOutdated(whitelist: seq<string>)
      requires Valid()
      modifies this
      ensures Valid()
      ensures caches == KeepOnly(old(caches), whitelist)
      ensures names == KeepNames(old(names), whitelist)
    {
      var cacheNames := names;
      ghost var final := Cleanup(cacheNames, whitelist, names, caches);
      var i := 0;
      assert cacheNames[i..] == cacheNames;
      while i < |cacheNames|
        invariant 0 <= i <= |cacheNames|
        invariant Valid()
        invariant Cleanup(cacheNames[i..], whitelist, names, caches) == final
      {
        var cacheName := cacheNames[i];
        CleanupStep(cacheNames, i, whitelist, names, caches);
        if cacheName !in whitelist {
          var _ := Delete(cacheName);
        }
        i := i + 1;
      }
      assert cacheNames[i..] == [];
      assert KeepNames([], whitelist) + cacheNames == cacheNames && [] + cacheNames == cacheNames;
      CleanupKeeps([], cacheNames, whitelist, old(caches));
    }

    /**
     * `cache.addAll(keys)` on cache `name` (opened first), with `fetchOf(k)` the outcome
     * of fetching `k`: when every fetch gives an `ok` response all are stored, else none.
     */
    method AddAll(name: string, keys: seq<string>, fetchOf: string -> FetchOutcome) returns (ok: bool)
      requires Valid()
      modifies this
      ensures Valid()
      ensures ok <==> AllOk(keys, fetchOf)
      ensures names == if name in old(caches) then old(names) else old(names) + [name]
      ensures var withCache := Opened(old(caches), name);
              caches == if ok then withCache[name := PutEach(withCache[name], keys, fetchOf)] else withCache
    {
      Open(name);
      ok := FetchAll(keys, fetchOf);
      if ok {
        ghost var start := caches;
        ghost var openedNames := names;
        var j := 0;
        while j < |keys|
          invariant 0 <= j <= |keys|
          invariant Valid() && name in caches && AllOk(keys, fetchOf) && names == openedNames
          invariant AllOk(keys[..j], fetchOf)
          invariant caches == start[name := PutEach(start[name], keys[..j], fetchOf)]
        {
          PutEachPrefix(start[name], keys, fetchOf, j);
          Put(name, keys[j], fetchOf(keys[j]).response);
          j := j + 1;
        }
        assert keys[..j] == keys;
      }
    }
  }
}
