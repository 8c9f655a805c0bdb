/**
 The Redis lease lock of lock/distributed_lock.go.

 The server is a value (`Server`) with atomic commands.  The Go methods are imperative and are proved
 against those commands; what they promise is proved about whole runs of many lock handles (`World`) and
 of one auto-refreshing handle among them (`Guarded`).  Times are integer nanoseconds.
 */
module DistributedLocks {
  import opened Durations
  import opened Sequences
  import opened Wrappers

  // ---------------------------------------------------------------------------------------------
  // The server
  // ---------------------------------------------------------------------------------------------

  datatype Entry = Absent | Held(value: string, until: Option<int>)

  datatype Command =
    | SetNX(value: string, expiration: int)
    | CompareAndDelete(value: string)
    | CompareAndExpire(value: string, seconds: int)
    | Elapse(d: nat)
    | Evict

  datatype Reply = Done | Refused | Failed

  /** One lock key as the server stores it, and the server's clock. */
  datatype Server = Server(now: int, entry: Entry) {

    predicate Live() {
      entry.Held? && (entry.until.Some? ==> now < entry.until.value)
    }

    predicate Holds(v: string) {
      Live() && entry.value == v
    }

    /** A key whose deadline has passed is gone for every command, evicted or not. */
    function Apply(c: Command): (Server, Reply) {
      match c
      case SetNX(v, expiration) =>
        if expiration < 0 then (this, Failed)
        else if Live() then (this, Refused)
        else (this.(entry := Held(v, if expiration == 0 then None else Some(now + expiration))), Done)
      case CompareAndDelete(v) =>
        if Holds(v) then (this.(entry := Absent), Done) else (this, Refused)
      case CompareAndExpire(v, seconds) =>
        if !Holds(v) then (this, Refused)
        else if seconds <= 0 then (this.(entry := Absent), Done)
        else (this.(entry := Held(v, Some(now + seconds * SECOND))), Done)
      case Elapse(d) => (this.(now := now + d), Done)
      case Evict => (if Live() then this else this.(entry := Absent), Done)
    }

    function ApplyAll(cs: seq<Command>): Server
      decreases |cs|
    {
      if cs == [] then this else Apply(cs[0]).0.ApplyAll(cs[1..])
    }
  }

  // ---------------------------------------------------------------------------------------------
  // The Go methods
  // ---------------------------------------------------------------------------------------------

  class Redis {
    var server: Server
    /** How many calls of Eval failed on the way to the server or back. */
    ghost var failures: nat

    constructor (now: int)
      ensures server == Server(now, Absent) && failures == 0
    {
      server, failures := Server(now, Absent), 0;
    }

    /**
     One atomic command, or one atomic script.  If the connection fails the command may or may not have reached
     the server.
     */
    method Eval(c: Command) returns (reply: Reply)
      modifies this
      ensures failures == old(failures) ==> (server, reply) == old(server).Apply(c)
      ensures failures != old(failures) ==>
                && failures == old(failures) + 1
                && reply == Failed
                && (server == old(server) || server == old(server).Apply(c).0)
    {
      var reached, answered := *, *;
      if !reached {
        failures := failures + 1;
        return Failed;
      }
      var (s, r) := server.Apply(c);
      server, reply := s, r;
      if !answered {
        failures, reply := failures + 1, Failed;
      }
    }

    /** What every other connection does meanwhile. */
    method Interfere(cs: seq<Command>)
      modifies this`server
      ensures server == old(server).ApplyAll(cs)
    {
      var i := 0;
      while i < |cs|
        invariant 0 <= i <= |cs|
        invariant server.ApplyAll(cs[i..]) == old(server).ApplyAll(cs)
      {
        assert cs[i..][0] == cs[i] && cs[i..][1..] == cs[i + 1..];
        server := server.Apply(cs[i]).0;
        i := i + 1;
      }
    }
  }

  class LockResult {
    const value: string
    const acquired: bool
    var expiresAt: int

    constructor (value: string, acquired: bool, expiresAt: int)
      ensures this.value == value && this.acquired == acquired && this.expiresAt == expiresAt
    {
      this.value, this.acquired, this.expiresAt := value, acquired, expiresAt;
    }
  }

  /**
   The result of TryLock by recursion on the waits still allowed: an attempt on the server as it stands,
   then, if refused, the commands of the others during the wait and another attempt.
   */
  ghost function TryOutcome(s: Server, value: string, expiration: int, waits: seq<seq<Command>>): (Server, Reply)
    decreases |waits|
  {
    var (s', r) := s.Apply(SetNX(value, expiration));
    if r != Refused || waits == [] then (s', r)
    else TryOutcome(s'.ApplyAll(waits[0]), value, expiration, waits[1..])
  }

  lemma {:induction false} ApplyAllConcat(s: Server, a: seq<Command>, b: seq<Command>)
    ensures s.ApplyAll(a + b) == s.ApplyAll(a).ApplyAll(b)
    decreases |a|
  {
    if a == [] {
      assert a + b == b;
    } else {
      assert (a + b)[0] == a[0] && (a + b)[1..] == a[1..] + b;
      ApplyAllConcat(s.Apply(a[0]).0, a[1..], b);
    }
  }

  /** The server as the attempt after the first `j` waits finds it, had this call sent nothing. */
  ghost function Undisturbed(s: Server, waits: seq<seq<Command>>, j: nat): Server
    requires j <= |waits|
  {
    s.ApplyAll(Concat(waits[..j]))
  }

  lemma UndisturbedStep(s: Server, waits: seq<seq<Command>>, j: nat)
    requires j < |waits|
    ensures Undisturbed(s, waits, j + 1) == Undisturbed(s, waits, j).ApplyAll(waits[j])
  {
    assert waits[..j + 1] == waits[..j] + [waits[j]];
    ConcatSnoc(waits[..j], waits[j]);
    ApplyAllConcat(s, Concat(waits[..j]), waits[j]);
  }

  lemma {:induction false} OutcomeAfter(s: Server, value: string, expiration: int, waits: seq<seq<Command>>, j: nat)
    requires j <= |waits| && forall i :: 0 <= i < j ==> Undisturbed(s, waits, i).Live()
    requires j > 0 ==> expiration >= 0
    ensures var found := Undisturbed(s, waits, j);
            expiration < 0 || !found.Live() || j == |waits| ==>
              TryOutcome(s, value, expiration, waits) == found.Apply(SetNX(value, expiration))
    decreases |waits|
  {
    assert waits[..0] == [] && Undisturbed(s, waits, 0) == s;
    if j > 0 {
      var s1 := s.ApplyAll(waits[0]);
      forall i | 0 < i <= |waits| ensures Undisturbed(s, waits, i) == Undisturbed(s1, waits[1..], i - 1) {
        UndisturbedTail(s, waits, i);
      }
      forall i | 0 <= i < j - 1 ensures Undisturbed(s1, waits[1..], i).Live() {
        assert Undisturbed(s, waits, i + 1) == Undisturbed(s1, waits[1..], i);
      }
      OutcomeAfter(s1, value, expiration, waits[1..], j - 1);
    }
  }

  lemma UndisturbedTail(s: Server, waits: seq<seq<Command>>, i: nat)
    requires 0 < i <= |waits|
    ensures Undisturbed(s, waits, i) == Undisturbed(s.ApplyAll(waits[0]), waits[1..], i - 1)
  {
    assert waits[..i][1..] == waits[1..][..i - 1];
    ApplyAllConcat(s, waits[0], Concat(waits[1..][..i - 1]));
  }

  lemma UsedPrefixes(s: Server, waits: seq<seq<Command>>, used: seq<seq<Command>>)
    requires used <= waits
    ensures forall k :: 0 <= k <= |used| ==> Undisturbed(s, used, k) == s.ApplyAll(Concat(waits[..k]))
  {
    forall k | 0 <= k <= |used| ensures Undisturbed(s, used, k) == s.ApplyAll(Concat(waits[..k])) {
      assert used[..k] == waits[..k];
    }
  }

  class DistributedLock {
    const redis: Redis

    constructor (redis: Redis)
      ensures this.redis == redis
    {
      this.redis := redis;
    }

    /**
     `latency` is the time from the command's execution to the client's reading of its own clock.  None is the
     error result.
     */
    method AcquireLock(value: string, expiration: int, latency: nat) returns (result: Option<LockResult>)
      modifies redis
      ensures redis.failures == old(redis.failures) ==>
                && redis.server == old(redis.server).Apply(SetNX(value, expiration)).0
                && (result == None <==> expiration < 0)
      ensures redis.failures != old(redis.failures) ==>
                && redis.failures == old(redis.failures) + 1
                && result == None
                && (redis.server == old(redis.server)
                    || redis.server == old(redis.server).Apply(SetNX(value, expiration)).0)
      ensures result.Some? ==>
                && fresh(result.value)
                && result.value.value == value
                && (result.value.acquired <==> !old(redis.server.Live()))
                && result.value.expiresAt == redis.server.now + latency + expiration
    {
      var reply := redis.Eval(SetNX(value, expiration));
      if reply == Failed {
        return None;
      }
      var r := new LockResult(value, reply == Done, redis.server.now + latency + expiration);
      return Some(r);
    }

    /** Failed is the error result; whether the key was deleted otherwise is only logged. */
    method ReleaseLock(lock: LockResult) returns (reply: Reply)
      modifies redis
      ensures redis.failures == old(redis.failures) ==>
                && redis.server == old(redis.server).Apply(CompareAndDelete(lock.value)).0
                && reply == if old(redis.server.Holds(lock.value)) then Done else Refused
      ensures redis.failures != old(redis.failures) ==>
                && redis.failures == old(redis.failures) + 1
                && reply == Failed
                && (redis.server == old(redis.server)
                    || redis.server == old(redis.server).Apply(CompareAndDelete(lock.value)).0)
    {
      reply := redis.Eval(CompareAndDelete(lock.value));
    }

    /**
     `meanwhile` is what the other connections do from the script's execution to the client's reading of its own
     clock.  Failed and Refused are errors, the latter "lock not extended".
     */
    method ExtendLock(lock: LockResult, extension: int, meanwhile: seq<Command>) returns (reply: Reply)
      modifies redis, lock`expiresAt
      ensures var extended := old(redis.server).Apply(CompareAndExpire(lock.value, WholeSeconds(extension))).0;
              if redis.failures == old(redis.failures) then
                && redis.server == extended.ApplyAll(meanwhile)
                && reply == if old(redis.server.Holds(lock.value)) then Done else Refused
              else
                && redis.failures == old(redis.failures) + 1
                && reply == Failed
                && (redis.server == extended.ApplyAll(meanwhile)
                    || redis.server == old(redis.server).ApplyAll(meanwhile))
      ensures lock.expiresAt == if reply == Done then redis.server.now + extension else old(lock.expiresAt)
    {
      reply := redis.Eval(CompareAndExpire(lock.value, WholeSeconds(extension)));
      redis.Interfere(meanwhile);
      if reply == Done {
        lock.expiresAt := redis.server.now + extension;
      }
    }

    /**
     `waits[i]` is what the other connections do while this call waits for its (i+1)-th retry, and
     cancellation of the context during a wait shows as a shorter `waits`: the call then gives up too.  `last` is
     the last attempt; before each of the earlier ones, made after i waits, the key was held.
     */
    method TryLock(value: string, expiration: int, maxRetries: int, waits: seq<seq<Command>>, latency: nat)
      returns (result: Option<LockResult>, ghost last: nat)
      modifies redis
      ensures maxRetries < 0 ==>
                result == None && redis.server == old(redis.server) && redis.failures == old(redis.failures)
      ensures maxRetries >= 0 ==>
                && last <= |waits| && last <= maxRetries
                && (forall i :: 0 <= i < last ==> old(redis.server).ApplyAll(Concat(waits[..i])).Live())
                && var found := old(redis.server).ApplyAll(Concat(waits[..last]));
                   var granted := found.Apply(SetNX(value, expiration)).0;
                   if redis.failures != old(redis.failures) then
                     && redis.failures == old(redis.failures) + 1
                     && result == None && (redis.server == found || redis.server == granted)
                   else if expiration < 0 then
                     last == 0 && result == None && redis.server == found
                   else if result == None then
                     found.Live() && redis.server == found && (last == |waits| || last == maxRetries)
                   else
                     !found.Live() && redis.server == granted
      ensures maxRetries >= 0 && redis.failures == old(redis.failures) ==>
                var attempts := waits[..if |waits| < maxRetries then |waits| else maxRetries];
                var (s, reply) := TryOutcome(old(redis.server), value, expiration, attempts);
                redis.server == s && (result.Some? <==> reply == Done)
      ensures result.Some? ==>
                && fresh(result.value)
                && result.value.acquired && result.value.value == value
                && redis.server.Holds(value)
                && result.value.expiresAt == redis.server.now + latency + expiration
    {
      ghost var used := if maxRetries < 0 then [] else waits[..if |waits| < maxRetries then |waits| else maxRetries];
      ghost var s0 := redis.server;
      last := 0;
      var i := 0;
      while i <= maxRetries
        invariant 0 <= i && (0 < i ==> last == i - 1 <= |used|) && (i == 0 ==> last == 0)
        invariant redis.failures == old(redis.failures)
        invariant 0 < i ==> maxRetries >= 0 && expiration >= 0 && redis.server.Live()
        invariant redis.server == if i == 0 then s0 else Undisturbed(s0, used, i - 1)
        invariant forall k :: 0 <= k < last ==> Undisturbed(s0, used, k).Live()
        decreases maxRetries + 1 - i
      {
        if i > 0 {
          if i > |waits| {
            UsedPrefixes(s0, waits, used);
            OutcomeAfter(s0, value, expiration, used, last);
            return None, last;
          }
          UndisturbedStep(s0, used, i - 1);
          redis.Interfere(waits[i - 1]);
        } else {
          assert used[..0] == [];
        }
        assert redis.server == Undisturbed(s0, used, i);
        last := i;
        var lock := AcquireLock(value, expiration, latency);
        UsedPrefixes(s0, waits, used);
        OutcomeAfter(s0, value, expiration, used, i);
        if lock == None {
          return None, last;
        }
        if lock.value.acquired {
          return lock, last;
        }
        i := i + 1;
      }
      UsedPrefixes(s0, waits, used);
      if maxRetries >= 0 {
        OutcomeAfter(s0, value, expiration, used, last);
      }
      return None, last;
    }
  }
}
