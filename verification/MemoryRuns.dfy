/** What cleanup may change in the TTL store: nothing that can be asked. */
module MemoryRuns {
  import opened Wrappers
  import opened Values
  import opened MemoryStorages

  datatype Op =
    | Put(key: string, value: Value, life: int)
    | PutAll(items: map<string, Value>, order: seq<string>)
    | Delete(key: string)
    | Clear
    | Cleanup
    | Get(key: string)
    | Exists(key: string)
    | BatchGet(keys: seq<string>)
    | Query(pattern: string)
    | Count

  datatype Event = At(op: Op, now: int)

  /** What a question gets: BatchGet's entries by key, Query's by full key. */
  datatype Answer = Entry(value: Option<Value>) | Flag(b: bool) | Entries(m: map<string, Value>) | Size(n: nat)

  predicate Asks(op: Op) {
    op.Get? || op.Exists? || op.BatchGet? || op.Query? || op.Count?
  }

  function Next(p: string, s: Store, e: Event): Store {
    match e.op
    case Put(key, value, life) => s.Put(p + key, value, life, e.now)
    case PutAll(items, order) => PutEach(s, p, items, order, e.now)
    case Delete(key) => s.Remove(p + key)
    case Clear => Store(map[], map[])
    case Cleanup => s.Cleanup(e.now)
    case _ => s
  }

  function Reply(p: string, s: Store, e: Event): Answer
    requires Asks(e.op)
  {
    match e.op
    case Get(key) => Entry(s.Lookup(p + key, e.now))
    case Exists(key) => Flag(s.Lookup(p + key, e.now).Some?)
    case BatchGet(keys) => Entries(map k | k in keys && s.Lookup(p + k, e.now).Some? :: s.Lookup(p + k, e.now).value)
    case Query(pattern) => Entries(s.Matching(p + pattern, e.now))
    case Count => Size(s.Size(e.now))
  }

  function Answers(p: string, s: Store, events: seq<Event>): seq<Answer>
    decreases |events|
  {
    if events == [] then []
    else (if Asks(events[0].op) then [Reply(p, s, events[0])] else []) + Answers(p, Next(p, s, events[0]), events[1..])
  }

  /** The run without its cleanups. */
  function Strip(events: seq<Event>): seq<Event> {
    if events == [] then []
    else (if events[0].op.Cleanup? then [] else [events[0]]) + Strip(events[1..])
  }

  ghost predicate Ordered(events: seq<Event>) {
    forall i, j :: 0 <= i < j < |events| ==> events[i].now <= events[j].now
  }

  /** A store without a lifetime leaves an old expiry standing; it must not be one that has passed. */
  predicate Careful(p: string, s: Store, e: Event) {
    e.op.Put? && e.op.life <= 0 ==> !s.Expired(p + e.op.key, e.now)
  }

  predicate CarefulRun(p: string, s: Store, events: seq<Event>)
    decreases |events|
  {
    events == [] || (Careful(p, s, events[0]) && CarefulRun(p, Next(p, s, events[0]), events[1..]))
  }

  // ---------------------------------------------------------------------------------------------
  // A store and the same store with expired entries gone
  // ---------------------------------------------------------------------------------------------

  predicate Agree(s: Store, t: Store, k: string) {
    && (k in s.data <==> k in t.data) && (k in s.data && k in t.data ==> s.data[k] == t.data[k])
    && (k in s.ttl <==> k in t.ttl) && (k in s.ttl && k in t.ttl ==> s.ttl[k] == t.ttl[k])
  }

  /** The two stores agree on `k`, or `k` has expired and `t` no longer has it. */
  predicate TrimmedAt(s: Store, t: Store, k: string, now: int) {
    Agree(s, t, k) || (s.Expired(k, now) && k !in t.data && k !in t.ttl)
  }

  /** `t` is `s`, possibly without some entries that have expired by `now`. */
  ghost predicate Trimmed(s: Store, t: Store, now: int) {
    forall k :: TrimmedAt(s, t, k, now)
  }

  lemma TrimmedLater(s: Store, t: Store, now: int, later: int)
    requires Trimmed(s, t, now) && now <= later
    ensures Trimmed(s, t, later)
  {
    forall k ensures TrimmedAt(s, t, k, later) {
      assert TrimmedAt(s, t, k, now);
    }
  }

  lemma CleanupTrims(s: Store, t: Store, now: int)
    requires Trimmed(s, t, now)
    ensures Trimmed(s, t.Cleanup(now), now)
  {
    forall k ensures TrimmedAt(s, t.Cleanup(now), k, now) {
      assert TrimmedAt(s, t, k, now);
    }
  }

  lemma PutKeepsTrimmed(s: Store, t: Store, key: string, v: Value, life: int, now: int, k: string)
    requires TrimmedAt(s, t, k, now) && (life <= 0 ==> !s.Expired(key, now))
    ensures TrimmedAt(s.Put(key, v, life, now), t.Put(key, v, life, now), k, now)
  {
  }

  lemma {:induction false} PutEachKeepsTrimmed(s: Store, t: Store, p: string, items: map<string, Value>,
                                               order: seq<string>, now: int, k: string)
    requires TrimmedAt(s, t, k, now)
    ensures TrimmedAt(PutEach(s, p, items, order, now), PutEach(t, p, items, order, now), k, now)
  {
    if order != [] {
      var n := |order| - 1;
      PutEachKeepsTrimmed(s, t, p, items, order[..n], now, k);
    }
  }

  lemma NextKeepsTrimmed(p: string, s: Store, t: Store, e: Event)
    requires Trimmed(s, t, e.now) && Careful(p, s, e) && !e.op.Cleanup?
    ensures Trimmed(Next(p, s, e), Next(p, t, e), e.now)
  {
    forall k ensures TrimmedAt(Next(p, s, e), Next(p, t, e), k, e.now) {
      assert TrimmedAt(s, t, k, e.now);
      match e.op
      case Put(key, value, life) => PutKeepsTrimmed(s, t, p + key, value, life, e.now, k);
      case PutAll(items, order) => PutEachKeepsTrimmed(s, t, p, items, order, e.now, k);
      case _ =>
    }
  }

  lemma SameLookup(s: Store, t: Store, k: string, now: int)
    requires Trimmed(s, t, now)
    ensures s.Lookup(k, now) == t.Lookup(k, now)
  {
    assert TrimmedAt(s, t, k, now);
  }

  lemma SameSize(s: Store, t: Store, now: int)
    requires Trimmed(s, t, now)
    ensures s.Size(now) == t.Size(now)
  {
    forall k ensures (k in s.Unexpired(now) <==> k in t.Unexpired(now)) && (k in s.Eternal() <==> k in t.Eternal()) {
      assert TrimmedAt(s, t, k, now);
    }
    assert s.Unexpired(now) == t.Unexpired(now) && s.Eternal() == t.Eternal();
  }

  lemma SameMatching(s: Store, t: Store, prefix: string, now: int)
    requires Trimmed(s, t, now)
    ensures s.Matching(prefix, now) == t.Matching(prefix, now)
  {
    forall k ensures (k in s.Matching(prefix, now) <==> k in t.Matching(prefix, now))
                  && (k in s.Matching(prefix, now) ==> s.Matching(prefix, now)[k] == t.Matching(prefix, now)[k]) {
      assert TrimmedAt(s, t, k, now);
    }
  }

  lemma SameReply(p: string, s: Store, t: Store, e: Event)
    requires Trimmed(s, t, e.now) && Asks(e.op)
    ensures Reply(p, s, e) == Reply(p, t, e)
  {
    match e.op
    case Get(key) => SameLookup(s, t, p + key, e.now);
    case Exists(key) => SameLookup(s, t, p + key, e.now);
    case BatchGet(keys) =>
      forall k ensures s.Lookup(p + k, e.now) == t.Lookup(p + k, e.now) {
        SameLookup(s, t, p + k, e.now);
      }
      assert Reply(p, s, e).m == Reply(p, t, e).m;
    case Query(pattern) => SameMatching(s, t, p + pattern, e.now);
    case Count => SameSize(s, t, e.now);
  }

  lemma OrderedTail(events: seq<Event>)
    requires Ordered(events) && events != []
    ensures Ordered(events[1..]) && forall i :: 0 <= i < |events[1..]| ==> events[0].now <= events[1..][i].now
  {
  }

  lemma {:induction false} TrimmedAnswers(p: string, s: Store, t: Store, now: int, events: seq<Event>)
    requires Trimmed(s, t, now) && Ordered(events) && (events != [] ==> now <= events[0].now)
    requires CarefulRun(p, s, Strip(events))
    ensures Answers(p, t, events) == Answers(p, s, Strip(events))
    decreases |events|
  {
    if events != [] {
      var e := events[0];
      OrderedTail(events);
      TrimmedLater(s, t, now, e.now);
      if e.op.Cleanup? {
        assert Strip(events) == Strip(events[1..]);
        CleanupTrims(s, t, e.now);
        TrimmedAnswers(p, s, t.Cleanup(e.now), e.now, events[1..]);
      } else {
        assert Strip(events)[0] == e && Strip(events)[1..] == Strip(events[1..]);
        NextKeepsTrimmed(p, s, t, e);
        TrimmedAnswers(p, Next(p, s, e), Next(p, t, e), e.now, events[1..]);
        if Asks(e.op) {
          SameReply(p, s, t, e);
        }
      }
    }
  }

  /** Wherever cleanups run, every question gets the answer it would get if they never ran. */
  lemma CleanupIsInvisible(p: string, s: Store, events: seq<Event>)
    requires Ordered(events) && CarefulRun(p, s, Strip(events))
    ensures Answers(p, s, events) == Answers(p, s, Strip(events))
  {
    if events != [] {
      assert Trimmed(s, s, events[0].now);
      TrimmedAnswers(p, s, s, events[0].now, events);
    }
  }

  lemma {:induction false} PositiveLivesAreCareful(p: string, s: Store, events: seq<Event>)
    requires forall i :: 0 <= i < |events| && events[i].op.Put? ==> events[i].op.life > 0
    ensures CarefulRun(p, s, events)
    decreases |events|
  {
    if events != [] {
      PositiveLivesAreCareful(p, Next(p, s, events[0]), events[1..]);
    }
  }

  /** The condition is exact: after a careless store, a Get at once tells whether a cleanup ran just before. */
  lemma CarelessStoreTells(p: string, s: Store, e: Event)
    requires !Careful(p, s, e)
    ensures var get := At(Get(e.op.key), e.now);
            && Answers(p, s, [e, get]) == [Entry(None)]
            && Answers(p, s, [At(Cleanup, e.now), e, get]) == [Entry(Some(e.op.value))]
  {
    var get := At(Get(e.op.key), e.now);
    var clean := s.Cleanup(e.now);
    assert [e, get][1..] == [get] && [get][1..] == [];
    assert [At(Cleanup, e.now), e, get][1..] == [e, get];
    assert Answers(p, Next(p, s, e), [get]) == [Entry(None)] + Answers(p, Next(p, s, e), []);
    assert Answers(p, Next(p, clean, e), [get]) == [Entry(Some(e.op.value))] + Answers(p, Next(p, clean, e), []);
  }

  // ---------------------------------------------------------------------------------------------
  // Count against Exists
  // ---------------------------------------------------------------------------------------------

  /** The full keys that Exists accepts. */
  function Accepted(s: Store, now: int): set<string> {
    set k | k in s.data && s.Lookup(k, now).Some?
  }

  /** The keys whose expiry is this very instant: still served, no longer counted. */
  function Expiring(s: Store, now: int): set<string> {
    set k | k in s.data && k in s.ttl && s.ttl[k] == now
  }

  /** Count differs from the number of keys that exist by exactly the keys that expire at this instant. */
  lemma CountIsExists(s: Store, now: int)
    ensures |Accepted(s, now)| == s.Size(now) + |Expiring(s, now)|
  {
    var u, e, x := s.Unexpired(now), s.Eternal(), Expiring(s, now);
    assert Accepted(s, now) == u + e + x;
    assert u !! e && (u + e) !! x;
  }

  // ---------------------------------------------------------------------------------------------
  // How long a value is served
  // ---------------------------------------------------------------------------------------------

  /** The event stores or removes something under `key`. */
  predicate Touches(e: Event, key: string) {
    match e.op
    case Put(k, _, _) => k == key
    case PutAll(items, order) => key in items
    case Delete(k) => k == key
    case Clear => true
    case _ => false
  }

  function After(p: string, s: Store, events: seq<Event>): Store
    decreases |events|
  {
    if events == [] then s else After(p, Next(p, s, events[0]), events[1..])
  }

  /** The key holds `v` until `until`, or was cleaned up after that. */
  predicate Serves(s: Store, k: string, v: Value, until: int, now: int) {
    if k in s.data then s.data[k] == v && k in s.ttl && s.ttl[k] == until else k !in s.ttl && now > until
  }

  lemma {:induction false} PutEachKeepsOther(s: Store, p: string, items: map<string, Value>, order: seq<string>,
                                             now: int, key: string)
    requires key !in items
    ensures var s' := PutEach(s, p, items, order, now);
            Agree(s, s', p + key)
  {
    if order != [] {
      var n := |order| - 1;
      PutEachKeepsOther(s, p, items, order[..n], now, key);
      SameKey(p, key, order[n]);
    }
  }

  lemma SameKey(p: string, a: string, b: string)
    ensures p + a == p + b <==> a == b
  {
    assert (p + a)[|p|..] == a && (p + b)[|p|..] == b;
  }

  lemma NextKeepsServing(p: string, s: Store, e: Event, key: string, v: Value, until: int, now: int)
    requires Serves(s, p + key, v, until, now) && now <= e.now && !Touches(e, key)
    ensures Serves(Next(p, s, e), p + key, v, until, e.now)
  {
    match e.op
    case Put(k, _, _) => SameKey(p, key, k);
    case PutAll(items, order) => PutEachKeepsOther(s, p, items, order, e.now, key);
    case Delete(k) => SameKey(p, key, k);
    case _ =>
  }

  lemma {:induction false} RunKeepsServing(p: string, s: Store, events: seq<Event>, key: string, v: Value, until: int,
                                           now: int, later: int)
    requires Serves(s, p + key, v, until, now) && Ordered(events) && now <= later
    requires forall i :: 0 <= i < |events| ==> now <= events[i].now <= later && !Touches(events[i], key)
    ensures Serves(After(p, s, events), p + key, v, until, later)
    decreases |events|
  {
    if events != [] {
      OrderedTail(events);
      NextKeepsServing(p, s, events[0], key, v, until, now);
      RunKeepsServing(p, Next(p, s, events[0]), events[1..], key, v, until, events[0].now, later);
    }
  }

  /**
   A value stored with a positive lifetime is served exactly until that has passed, whatever happens under other
   keys and whenever cleanups run.
   */
  lemma ServedForItsLifetime(p: string, s: Store, key: string, v: Value, life: int, now: int, events: seq<Event>,
                             later: int)
    requires life > 0 && now <= later && Ordered(events)
    requires forall i :: 0 <= i < |events| ==> now <= events[i].now <= later && !Touches(events[i], key)
    ensures After(p, Next(p, s, At(Put(key, v, life), now)), events).Lookup(p + key, later)
         == if later - now <= life then Some(v) else None
  {
    RunKeepsServing(p, Next(p, s, At(Put(key, v, life), now)), events, key, v, now + life, now, later);
  }
}
