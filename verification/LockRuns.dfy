/** What the lease lock promises over whole runs. */
module LockRuns {
  import opened Durations
  import opened Sequences
  import opened Wrappers

  import opened DistributedLocks

  /** A client is one lock handle: one value passed to AcquireLock and to the calls on its result. */
  type Client = nat

  // ---------------------------------------------------------------------------------------------
  // TryLock
  // ---------------------------------------------------------------------------------------------

  /** TryLock gets the lock exactly when one of its attempts finds the key free; refused attempts leave no trace. */
  lemma {:induction false} TryLockTakesFirstFree(s: Server, v: string, expiration: int, waits: seq<seq<Command>>)
    requires expiration >= 0
    ensures TryOutcome(s, v, expiration, waits).1 == Done
            <==> exists j :: 0 <= j <= |waits| && !Undisturbed(s, waits, j).Live()
    ensures TryOutcome(s, v, expiration, waits).1 != Done
            ==> TryOutcome(s, v, expiration, waits).0 == Undisturbed(s, waits, |waits|)
    decreases |waits|
  {
    assert waits[..0] == [] && Undisturbed(s, waits, 0) == s;
    if s.Live() {
      if waits == [] {
      } else {
        var s1 := s.ApplyAll(waits[0]);
        TryLockTakesFirstFree(s1, v, expiration, waits[1..]);
        forall j | 0 < j <= |waits| ensures Undisturbed(s, waits, j) == Undisturbed(s1, waits[1..], j - 1) {
          UndisturbedTail(s, waits, j);
        }
        if j :| 0 <= j <= |waits[1..]| && !Undisturbed(s1, waits[1..], j).Live() {
          assert Undisturbed(s, waits, j + 1) == Undisturbed(s1, waits[1..], j);
        }
      }
    }
  }

  // ---------------------------------------------------------------------------------------------
  // Many clients on one key
  // ---------------------------------------------------------------------------------------------

  /** A lease as its client's own replies describe it: from the grant to the release or the latest deadline. */
  datatype Lease = Lease(client: Client, from: int, until: Option<int>)

  /** `leases` lists every grant so far, oldest first; `held[c]` is the one behind c's lock result. */
  datatype World = World(server: Server, leases: seq<Lease>, held: map<Client, nat>)

  datatype Step =
    | Acquire(c: Client, expiration: int)
    | Release(c: Client)
    | Extend(c: Client, extension: int)
    | Tick(d: nat)
    | Expire

  function CommandOf(val: Client -> string, step: Step): Command {
    match step
    case Acquire(c, expiration) => SetNX(val(c), expiration)
    case Release(c) => CompareAndDelete(val(c))
    case Extend(c, extension) => CompareAndExpire(val(c), WholeSeconds(extension))
    case Tick(d) => Elapse(d)
    case Expire => Evict
  }

  function Earlier(now: int, until: Option<int>): int {
    if until.Some? && until.value < now then until.value else now
  }

  /** The leases are updated from the step and its reply alone, never from the server's entry. */
  function Next(val: Client -> string, w: World, step: Step): World
    requires Indexed(w)
  {
    var (s, reply) := w.server.Apply(CommandOf(val, step));
    var now := w.server.now;
    match step
    case Acquire(c, expiration) =>
      if reply != Done then w.(server := s)
      else
        var until := if expiration == 0 then None else Some(now + expiration);
        World(s, w.leases + [Lease(c, now, until)], w.held[c := |w.leases|])
    case Release(c) =>
      if c !in w.held then w.(server := s)
      else
        var lease := w.leases[w.held[c]];
        World(s, w.leases[w.held[c] := lease.(until := Some(Earlier(now, lease.until)))], w.held - {c})
    case Extend(c, extension) =>
      if c !in w.held || reply != Done then w.(server := s)
      else
        var seconds := WholeSeconds(extension);
        var until := if seconds <= 0 then now else now + seconds * SECOND;
        w.(server := s, leases := w.leases[w.held[c] := w.leases[w.held[c]].(until := Some(until))])
    case Tick(d) => w.(server := s)
    case Expire => w.(server := s)
  }

  predicate Indexed(w: World) {
    forall c :: c in w.held ==> w.held[c] < |w.leases|
  }

  function Run(val: Client -> string, w: World, steps: seq<Step>): (w': World)
    requires Indexed(w)
    ensures Indexed(w')
    decreases |steps|
  {
    if steps == [] then w else Run(val, Next(val, w, steps[0]), steps[1..])
  }

  function Start(now: int): World {
    World(Server(now, Absent), [], map[])
  }

  ghost predicate Distinct(val: Client -> string) {
    forall c, d :: val(c) == val(d) ==> c == d
  }

  /** Each lease is over before the next one begins. */
  ghost predicate Disjoint(leases: seq<Lease>) {
    forall i, j :: 0 <= i < j < |leases| ==> leases[i].until.Some? && leases[i].until.value <= leases[j].from
  }

  ghost predicate Inv(val: Client -> string, w: World) {
    var n := |w.leases|;
    && Indexed(w)
    && Disjoint(w.leases)
    && (forall i :: 0 <= i < n ==>
          && w.leases[i].from <= w.server.now
          && (w.leases[i].until.Some? ==> w.leases[i].from <= w.leases[i].until.value))
    && (forall c :: c in w.held ==> w.leases[w.held[c]].client == c)
    && (if w.server.Live() then
          && 0 < n
          && var last := w.leases[n - 1];
          && w.server.entry == Held(val(last.client), last.until)
          && last.client in w.held && w.held[last.client] == n - 1
        else
          0 < n ==> w.leases[n - 1].until.Some? && w.leases[n - 1].until.value <= w.server.now)
  }

  /** An older lease than the current one ended before the current one began, so nothing can shorten or move it. */
  lemma OlderLeaseIsOver(val: Client -> string, w: World, i: nat)
    requires Inv(val, w) && i < |w.leases|
    requires i < |w.leases| - 1 || !w.server.Live()
    ensures w.leases[i].until.Some? && w.leases[i].until.value <= w.server.now
  {
    if i < |w.leases| - 1 {
      assert w.leases[i].until.value <= w.leases[|w.leases| - 1].from;
    }
  }

  lemma DisjointGrows(leases: seq<Lease>, lease: Lease)
    requires Disjoint(leases)
    requires forall i :: 0 <= i < |leases| ==> leases[i].until.Some? && leases[i].until.value <= lease.from
    ensures Disjoint(leases + [lease])
  {
  }

  lemma AcquireKeepsInv(val: Client -> string, w: World, c: Client, expiration: int)
    requires Inv(val, w)
    ensures Inv(val, Next(val, w, Acquire(c, expiration)))
  {
    var w' := Next(val, w, Acquire(c, expiration));
    if w.server.Live() || expiration < 0 {
      assert w' == w;
    } else {
      forall i | 0 <= i < |w.leases| ensures w.leases[i].until.Some? && w.leases[i].until.value <= w.server.now {
        OlderLeaseIsOver(val, w, i);
      }
      DisjointGrows(w.leases, w'.leases[|w.leases|]);
    }
  }

  /** Releasing a lease that is over changes nothing but the client's own knowledge. */
  lemma OverReleaseKeepsInv(val: Client -> string, w: World, c: Client)
    requires Distinct(val) && Inv(val, w) && c in w.held
    requires w.held[c] < |w.leases| - 1 || !w.server.Live()
    ensures Inv(val, Next(val, w, Release(c)))
  {
    OlderLeaseIsOver(val, w, w.held[c]);
    assert Next(val, w, Release(c)).leases == w.leases;
  }

  lemma CurrentReleaseKeepsInv(val: Client -> string, w: World, c: Client)
    requires Distinct(val) && Inv(val, w) && c in w.held
    requires w.held[c] == |w.leases| - 1 && w.server.Live()
    ensures Inv(val, Next(val, w, Release(c)))
  {
    assert w.server.Holds(val(c));
    assert Next(val, w, Release(c)).leases[..w.held[c]] == w.leases[..w.held[c]];
  }

  lemma ReleaseKeepsInv(val: Client -> string, w: World, c: Client)
    requires Distinct(val) && Inv(val, w)
    ensures Inv(val, Next(val, w, Release(c)))
  {
    if c in w.held {
      if w.held[c] < |w.leases| - 1 || !w.server.Live() {
        OverReleaseKeepsInv(val, w, c);
      } else {
        CurrentReleaseKeepsInv(val, w, c);
      }
    }
  }

  lemma ExtendKeepsInv(val: Client -> string, w: World, c: Client, extension: int)
    requires Distinct(val) && Inv(val, w)
    ensures Inv(val, Next(val, w, Extend(c, extension)))
  {
    var w' := Next(val, w, Extend(c, extension));
    if w.server.Holds(val(c)) {
      var n := |w.leases|;
      assert w.leases[n - 1].client == c && w.held[c] == n - 1;
      assert w'.leases[..n - 1] == w.leases[..n - 1];
    } else {
      assert w' == w;
    }
  }

  lemma NextKeepsInv(val: Client -> string, w: World, step: Step)
    requires Distinct(val) && Inv(val, w)
    ensures Inv(val, Next(val, w, step))
  {
    match step
    case Acquire(c, expiration) => AcquireKeepsInv(val, w, c, expiration);
    case Release(c) => ReleaseKeepsInv(val, w, c);
    case Extend(c, extension) => ExtendKeepsInv(val, w, c, extension);
    case Tick(d) =>
    case Expire =>
  }

  lemma {:induction false} RunKeepsInv(val: Client -> string, w: World, steps: seq<Step>)
    requires Distinct(val) && Inv(val, w)
    ensures Inv(val, Run(val, w, steps))
    decreases |steps|
  {
    if steps == [] {
    } else {
      NextKeepsInv(val, w, steps[0]);
      RunKeepsInv(val, Next(val, w, steps[0]), steps[1..]);
    }
  }

  /** A client has a lease now, by the replies it has received. */
  predicate LiveLease(w: World, c: Client)
    requires Indexed(w)
  {
    c in w.held && var until := w.leases[w.held[c]].until; until.Some? ==> w.server.now < until.value
  }

  /** With distinct values, what a client may conclude from its own replies is exactly what the server holds. */
  lemma LeaseIsServerTruth(val: Client -> string, now: int, steps: seq<Step>, c: Client)
    requires Distinct(val)
    ensures var w := Run(val, Start(now), steps);
            && (LiveLease(w, c) <==> w.server.Holds(val(c)))
            && (LiveLease(w, c) ==> w.server.entry.until == w.leases[w.held[c]].until)
  {
    RunKeepsInv(val, Start(now), steps);
    var w := Run(val, Start(now), steps);
    if LiveLease(w, c) && (w.held[c] < |w.leases| - 1 || !w.server.Live()) {
      OlderLeaseIsOver(val, w, w.held[c]);
      assert false;
    }
  }

  /** A lock result whose lease has lapsed while another client holds the lock changes nothing by release or extend. */
  lemma LapsedHolderIsHarmless(val: Client -> string, now: int, steps: seq<Step>, c: Client, d: Client, extension: int)
    requires Distinct(val) && c != d
    requires LiveLease(Run(val, Start(now), steps), d)
    ensures var w := Run(val, Start(now), steps);
            && Next(val, w, Release(c)).server == w.server
            && Next(val, w, Release(c)).leases == w.leases
            && Next(val, w, Extend(c, extension)) == w
  {
    RunKeepsInv(val, Start(now), steps);
    LeaseIsServerTruth(val, now, steps, d);
    var w := Run(val, Start(now), steps);
    if c in w.held {
      OlderLeaseIsOver(val, w, w.held[c]);
      assert Next(val, w, Release(c)).leases == w.leases;
    }
  }

  lemma RunCons(val: Client -> string, w: World, step: Step, rest: seq<Step>)
    requires Indexed(w)
    ensures Run(val, w, [step] + rest) == Run(val, Next(val, w, step), rest)
  {
    assert ([step] + rest)[1..] == rest;
  }

  /** The first client's lease lapses, and the second client is granted the key. */
  lemma LapsesAndPasses(val: Client -> string, a: Client, b: Client, now: int)
    ensures var w := Run(val, Start(now), [Acquire(a, 1)] + ([Tick(1)] + ([Acquire(b, 1)] + [])));
            && w.server == Server(now + 1, Held(val(b), Some(now + 2)))
            && w.leases == [Lease(a, now, Some(now + 1)), Lease(b, now + 1, Some(now + 2))]
            && w.held == map[a := 0][b := 1]
  {
    var w1 := Next(val, Start(now), Acquire(a, 1));
    var w2 := Next(val, w1, Tick(1));
    RunCons(val, Start(now), Acquire(a, 1), [Tick(1)] + ([Acquire(b, 1)] + []));
    RunCons(val, w1, Tick(1), [Acquire(b, 1)] + []);
    RunCons(val, w2, Acquire(b, 1), []);
  }

  /** A release by the first client deletes the second's lease, if they share a value, and it is granted the key. */
  lemma ReleasesAndTakes(val: Client -> string, w: World, a: Client, b: Client, now: int)
    requires val(a) == val(b) && a != b
    requires w.server == Server(now + 1, Held(val(b), Some(now + 2)))
    requires w.leases == [Lease(a, now, Some(now + 1)), Lease(b, now + 1, Some(now + 2))]
    requires w.held == map[a := 0][b := 1]
    ensures !Disjoint(Run(val, w, [Release(a)] + ([Acquire(a, 1)] + [])).leases)
  {
    var w1 := Next(val, w, Release(a));
    var w2 := Next(val, w1, Acquire(a, 1));
    RunCons(val, w, Release(a), [Acquire(a, 1)] + []);
    RunCons(val, w1, Acquire(a, 1), []);
    assert w2.leases[1].until == Some(now + 2) && w2.leases[2].from == now + 1;
  }

  lemma {:induction false} RunConcat(val: Client -> string, w: World, a: seq<Step>, b: seq<Step>)
    requires Indexed(w)
    ensures Run(val, w, a + b) == Run(val, Run(val, w, a), b)
    decreases |a|
  {
    if a == [] {
      assert a + b == b;
    } else {
      RunCons(val, w, a[0], a[1..] + b);
      assert a + b == [a[0]] + (a[1..] + b);
      RunConcat(val, Next(val, w, a[0]), a[1..], b);
    }
  }

  /** Two clients with one value: the first's lease lapses, its release deletes the second's, and a grant overlaps. */
  lemma SharedValueOverlaps(val: Client -> string, a: Client, b: Client, now: int) returns (steps: seq<Step>)
    requires val(a) == val(b) && a != b
    ensures !Disjoint(Run(val, Start(now), steps).leases)
  {
    var passes := [Acquire(a, 1)] + ([Tick(1)] + ([Acquire(b, 1)] + []));
    var takes := [Release(a)] + ([Acquire(a, 1)] + []);
    steps := passes + takes;
    RunConcat(val, Start(now), passes, takes);
    LapsesAndPasses(val, a, b, now);
    ReleasesAndTakes(val, Run(val, Start(now), passes), a, b, now);
  }

  /**
   Mutual exclusion: the leases granted in every run are pairwise disjoint if and only if the clients' values
   are pairwise distinct.
   */
  lemma MutualExclusion(val: Client -> string, now: int)
    ensures Distinct(val) <==> forall steps :: Disjoint(Run(val, Start(now), steps).leases)
  {
    if Distinct(val) {
      forall steps ensures Disjoint(Run(val, Start(now), steps).leases) {
        RunKeepsInv(val, Start(now), steps);
      }
    } else {
      var a, b :| val(a) == val(b) && a != b;
      var steps := SharedValueOverlaps(val, a, b, now);
    }
  }
}
