/** The in-memory TTL store of crawler/storage/memory.go. */
module MemoryStorages {
  import opened Durations
  import opened Values
  import opened Wrappers

  const DAY: int := 24 * 3600 * SECOND

  /** The two maps, by full key. */
  datatype Store = Store(data: map<string, Value>, ttl: map<string, int>) {

    predicate Expired(k: string, now: int) {
      k in ttl && now > ttl[k]
    }

    function Lookup(k: string, now: int): Option<Value> {
      if Expired(k, now) || k !in data then None else Some(data[k])
    }

    /** The live entries whose full key starts with a nonempty prefix. */
    function Matching(prefix: string, now: int): map<string, Value> {
      map k | k in data && !Expired(k, now) && prefix != "" && prefix <= k :: data[k]
    }

    function Unexpired(now: int): set<string> {
      set k | k in ttl && now < ttl[k] && k in data
    }

    function Eternal(): set<string> {
      set k | k in data && k !in ttl
    }

    function Size(now: int): nat {
      |Unexpired(now)| + |Eternal()|
    }

    function Put(k: string, v: Value, life: int, now: int): Store {
      Store(data[k := v], if life > 0 then ttl[k := now + life] else ttl)
    }

    function Remove(k: string): Store {
      Store(data - {k}, ttl - {k})
    }

    function Stale(now: int): set<string> {
      set k | k in ttl && now > ttl[k]
    }

    function Cleanup(now: int): Store {
      Store(data - Stale(now), ttl - Stale(now))
    }

    predicate Valid() {
      ttl.Keys <= data.Keys
    }
  }

  /** getKey, with the separator made part of the prefix. */
  function Prefix(prefix: string): string {
    if prefix != "" then prefix + ":" else ""
  }

  /** A full key is the prefix, a colon and the key; an empty prefix adds nothing. */
  lemma FullKey(prefix: string, key: string)
    ensures var k := Prefix(prefix) + key;
            && |k| == |key| + (if prefix == "" then 0 else |prefix| + 1)
            && k[|k| - |key|..] == key
            && (prefix != "" ==> k[..|prefix|] == prefix && k[|prefix|] == ':')
  {
  }

  /** The items stored one by one in the given order of their keys, each for a day. */
  function PutEach(s: Store, p: string, items: map<string, Value>, order: seq<string>, now: int): Store {
    if order == [] then s
    else
      var n := |order| - 1;
      var before := PutEach(s, p, items, order[..n], now);
      if order[n] in items then before.Put(p + order[n], items[order[n]], DAY, now) else before
  }

  /** Each item is stored for a day from now, whatever the order. */
  lemma {:induction false} EachIsPut(s: Store, p: string, items: map<string, Value>, order: seq<string>, now: int)
    ensures var s' := PutEach(s, p, items, order, now);
            forall k :: k in order && k in items ==>
              && p + k in s'.data && s'.data[p + k] == items[k]
              && p + k in s'.ttl && s'.ttl[p + k] == now + DAY
  {
    if order != [] {
      var n := |order| - 1;
      EachIsPut(s, p, items, order[..n], now);
      forall k | k in order ensures k == order[n] || k in order[..n] {
      }
      forall k | p + k == p + order[n] ensures k == order[n] {
        assert (p + k)[|p|..] == k && (p + order[n])[|p|..] == order[n];
      }
    }
  }

  lemma {:induction false} OthersAreKept(s: Store, p: string, items: map<string, Value>, order: seq<string>, now: int,
                                         f: string)
    requires forall k :: k in order ==> f != p + k
    ensures var s' := PutEach(s, p, items, order, now);
            && (f in s'.data <==> f in s.data) && (f in s'.ttl <==> f in s.ttl)
            && (f in s.data && f in s'.data ==> s'.data[f] == s.data[f])
            && (f in s.ttl && f in s'.ttl ==> s'.ttl[f] == s.ttl[f])
  {
    if order != [] {
      OthersAreKept(s, p, items, order[..|order| - 1], now, f);
    }
  }

  /** `results` are the values of `m`, each once, in the order `keys` of its keys. */
  ghost predicate Delivers(m: map<string, Value>, keys: seq<string>, results: seq<Value>) {
    && |results| == |keys|
    && (forall i, j :: 0 <= i < j < |keys| ==> keys[i] != keys[j])
    && (forall k :: k in keys <==> k in m)
    && (forall i :: 0 <= i < |keys| ==> keys[i] in m && results[i] == m[keys[i]])
  }

  /** `results` are the values under `keys`, which are the live full keys that start with `prefix`, each once. */
  ghost predicate Found(s: Store, prefix: string, now: int, keys: seq<string>, results: seq<Value>) {
    && |results| == |keys|
    && (forall i, j :: 0 <= i < j < |keys| ==> keys[i] != keys[j])
    && (forall k :: k in keys <==> k in s.data && (k in s.ttl ==> now <= s.ttl[k]) && prefix != "" && prefix <= k)
    && (forall i :: 0 <= i < |keys| ==> keys[i] in s.data && results[i] == s.data[keys[i]])
  }

  // ---------------------------------------------------------------------------------------------
  // The Go type
  // ---------------------------------------------------------------------------------------------

  class MemoryStorage {
    var data: map<string, Value>
    var ttl: map<string, int>
    const prefix: string

    constructor (prefix: string)
      ensures View() == Store(map[], map[]) && this.prefix == prefix
    {
      data, ttl, this.prefix := map[], map[], prefix;
    }

    function View(): Store
      reads this
    {
      Store(data, ttl)
    }

    function GetKey(key: string): string {
      Prefix(prefix) + key
    }

    method StoreWithTTL(key: string, value: Value, life: int, now: int)
      requires View().Valid()
      modifies this
      ensures View() == old(View()).Put(GetKey(key), value, life, now) && View().Valid()
      ensures data == old(data)[GetKey(key) := value]
      ensures ttl == if life > 0 then old(ttl)[GetKey(key) := now + life] else old(ttl)
    {
      var fullKey := GetKey(key);
      data := data[fullKey := value];
      if life > 0 {
        ttl := ttl[fullKey := now + life];
      }
    }

    method Get(key: string, now: int) returns (value: Option<Value>)
      ensures value == View().Lookup(GetKey(key), now)
      ensures value.Some? <==> GetKey(key) in data && (GetKey(key) in ttl ==> now <= ttl[GetKey(key)])
      ensures value.Some? ==> value.value == data[GetKey(key)]
    {
      var fullKey := GetKey(key);
      if fullKey in ttl && now > ttl[fullKey] {
        return None;
      }
      if fullKey !in data {
        return None;
      }
      return Some(data[fullKey]);
    }

    method Delete(key: string)
      requires View().Valid()
      modifies this
      ensures View() == old(View()).Remove(GetKey(key)) && View().Valid()
      ensures data == old(data) - {GetKey(key)} && ttl == old(ttl) - {GetKey(key)}
    {
      var fullKey := GetKey(key);
      data := data - {fullKey};
      ttl := ttl - {fullKey};
    }

    method Exists(key: string, now: int) returns (exists_: bool)
      ensures exists_ <==> View().Lookup(GetKey(key), now).Some?
      ensures exists_ <==> GetKey(key) in data && (GetKey(key) in ttl ==> now <= ttl[GetKey(key)])
    {
      var fullKey := GetKey(key);
      if fullKey in ttl && now > ttl[fullKey] {
        return false;
      }
      return fullKey in data;
    }

    method Write(fullKey: string, value: Value, expiry: int)
      modifies this
      ensures View() == Store(old(data)[fullKey := value], old(ttl)[fullKey := expiry])
    {
      data := data[fullKey := value];
      ttl := ttl[fullKey := expiry];
    }

    /** `order` is how Go's map delivers the items. */
    method BatchStore(items: map<string, Value>, now: int) returns (ghost order: seq<string>)
      requires View().Valid()
      modifies this
      ensures (forall k :: k in order <==> k in items) && |order| == |items|
      ensures View() == PutEach(old(View()), Prefix(prefix), items, order, now) && View().Valid()
      ensures forall k :: k in items ==>
                && GetKey(k) in data && data[GetKey(k)] == items[k]
                && GetKey(k) in ttl && ttl[GetKey(k)] == now + DAY
      ensures forall f :: (forall k :: k in items ==> f != GetKey(k)) ==>
                && (f in data <==> f in old(data)) && (f in ttl <==> f in old(ttl))
                && (f in data && f in old(data) ==> data[f] == old(data)[f])
                && (f in ttl && f in old(ttl) ==> ttl[f] == old(ttl)[f])
    {
      var defaultExpiry := now + DAY;
      ghost var s0, p := View(), Prefix(prefix);
      order := [];
      var rest := items.Keys;
      while rest != {}
        invariant rest <= items.Keys && forall k :: k in order <==> k in items && k !in rest
        invariant |order| + |rest| == |items.Keys|
        invariant View() == PutEach(s0, p, items, order, now) && View().Valid()
      {
        var key :| key in rest;
        var fullKey := GetKey(key);
        Write(fullKey, items[key], defaultExpiry);
        rest := rest - {key};
        assert (order + [key])[..|order|] == order;
        order := order + [key];
      }
      EachIsPut(s0, p, items, order, now);
      forall f | forall k :: k in items ==> f != GetKey(k)
        ensures && (f in data <==> f in old(data)) && (f in ttl <==> f in old(ttl))
                && (f in data && f in old(data) ==> data[f] == old(data)[f])
                && (f in ttl && f in old(ttl) ==> ttl[f] == old(ttl)[f])
      {
        forall k | k in order ensures f != p + k {
          assert GetKey(k) == p + k;
        }
        OthersAreKept(s0, p, items, order, now, f);
      }
    }

    /** Pointwise, BatchGet is Get. */
    method BatchGet(keys: seq<string>, now: int) returns (result: map<string, Value>)
      ensures forall k :: k in result <==> k in keys && View().Lookup(GetKey(k), now).Some?
      ensures forall k :: k in result ==> Some(result[k]) == View().Lookup(GetKey(k), now)
    {
      result := map[];
      for i := 0 to |keys|
        invariant forall k :: k in result <==> k in keys[..i] && View().Lookup(GetKey(k), now).Some?
        invariant forall k :: k in result ==> Some(result[k]) == View().Lookup(GetKey(k), now)
      {
        var fullKey := GetKey(keys[i]);
        assert keys[..i + 1] == keys[..i] + [keys[i]];
        if !(fullKey in ttl && now > ttl[fullKey]) {
          if fullKey in data {
            result := result[keys[i] := data[fullKey]];
          }
        }
      }
    }

    /** The loop of Query, in the order `keys` in which Go's map delivers the matching entries. */
    method Scan(prefix: string, now: int) returns (results: seq<Value>, ghost keys: seq<string>)
      ensures Delivers(View().Matching(prefix, now), keys, results)
      ensures Found(View(), prefix, now, keys, results)
    {
      results, keys := [], [];
      ghost var m := View().Matching(prefix, now);
      var rest := data.Keys;
      while rest != {}
        invariant rest <= data.Keys
        invariant Delivers(m - rest, keys, results)
      {
        var key :| key in rest;
        if !(key in ttl && now > ttl[key]) {
          if |prefix| > 0 && |key| >= |prefix| && key[..|prefix|] == prefix {
            results := results + [data[key]];
            keys := keys + [key];
          }
        }
        rest := rest - {key};
      }
      assert m - rest == m;
    }

    /** The values of the matching entries, each once, in some order. */
    method Query(pattern: string, now: int) returns (results: seq<Value>)
      ensures exists keys :: Delivers(View().Matching(GetKey(pattern), now), keys, results)
      ensures exists keys :: Found(View(), GetKey(pattern), now, keys, results)
    {
      ghost var keys;
      results, keys := Scan(GetKey(pattern), now);
    }

    /** The loop over the expiries. */
    method CountTimed(now: int) returns (count: int)
      ensures count == |View().Unexpired(now)|
    {
      count := 0;
      var rest := ttl.Keys;
      while rest != {}
        invariant rest <= ttl.Keys
        invariant count == |set k | k in ttl && k !in rest && now < ttl[k] && k in data|
      {
        var key :| key in rest;
        ghost var before := set k | k in ttl && k !in rest && now < ttl[k] && k in data;
        rest := rest - {key};
        ghost var after := set k | k in ttl && k !in rest && now < ttl[k] && k in data;
        if now < ttl[key] && key in data {
          count := count + 1;
          assert after == before + {key};
        } else {
          assert after == before;
        }
      }
      assert (set k | k in ttl && k !in rest && now < ttl[k] && k in data) == View().Unexpired(now);
    }

    /** The loop over the values. */
    method CountEternal() returns (count: int)
      ensures count == |View().Eternal()|
    {
      count := 0;
      var rest := data.Keys;
      while rest != {}
        invariant rest <= data.Keys
        invariant count == |set k | k in data && k !in rest && k !in ttl|
      {
        var key :| key in rest;
        ghost var before := set k | k in data && k !in rest && k !in ttl;
        rest := rest - {key};
        ghost var after := set k | k in data && k !in rest && k !in ttl;
        if key !in ttl {
          count := count + 1;
          assert after == before + {key};
        } else {
          assert after == before;
        }
      }
      assert (set k | k in data && k !in rest && k !in ttl) == View().Eternal();
    }

    method Count(now: int) returns (count: int)
      ensures count == View().Size(now)
      ensures count == |set k | k in data && k in ttl && now < ttl[k]| + |set k | k in data && k !in ttl|
    {
      var timed := CountTimed(now);
      var eternal := CountEternal();
      count := timed + eternal;
      assert View().Unexpired(now) == set k | k in data && k in ttl && now < ttl[k];
      assert View().Eternal() == set k | k in data && k !in ttl;
    }

    method Clear()
      modifies this
      ensures View() == Store(map[], map[])
    {
      data, ttl := map[], map[];
    }

    /** One round of the cleanup goroutine. */
    method Cleanup(now: int)
      requires View().Valid()
      modifies this
      ensures View() == old(View()).Cleanup(now) && View().Valid()
      ensures data == map k | k in old(data) && !(k in old(ttl) && now > old(ttl)[k]) :: old(data)[k]
      ensures ttl == map k | k in old(ttl) && !(now > old(ttl)[k]) :: old(ttl)[k]
    {
      var rest := ttl.Keys;
      ghost var gone: set<string> := {};
      while rest != {}
        invariant rest <= ttl.Keys
        invariant gone == old(View()).Stale(now) - rest
        invariant data == old(data) - gone && ttl == old(ttl) - gone
      {
        var key :| key in rest;
        if now > ttl[key] {
          data := data - {key};
          ttl := ttl - {key};
          gone := gone + {key};
        }
        rest := rest - {key};
      }
    }
  }
}
