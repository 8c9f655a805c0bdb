/** The circuit breaker of crawler/fetcher/middleware.go. */
module CircuitBreakers {
  import opened Wrappers

  datatype CircuitState = Closed | Open | HalfOpen

  /** What the handler behind the breaker returned: an error, or a response with or without a body of fields. */
  datatype Outcome = Outcome(err: bool, status: Option<int>)

  predicate IsFailure(o: Outcome) {
    o.err || (o.status.Some? && o.status.value >= 500)
  }

  datatype Config = Config(failureThreshold: int, successThreshold: int, timeout: int)

  /** The fields under the mutex. */
  datatype Breaker = Breaker(state: CircuitState, failures: int, successes: int, lastFailTime: int)

  // ---------------------------------------------------------------------------------------------
  // The critical sections
  // ---------------------------------------------------------------------------------------------

  /** The two sections that write, in the order in which they get the lock. */
  datatype Event = Probe | Succeeded | Failed(at: int)

  function Apply(cfg: Config, b: Breaker, e: Event): Breaker {
    match e
    case Probe => b.(state := HalfOpen, successes := 0)
    case Failed(at) =>
      var failures := b.failures + 1;
      Breaker(if failures >= cfg.failureThreshold then Open else b.state, failures, 0, at)
    case Succeeded =>
      var successes := b.successes + 1;
      b.(state := if b.state == HalfOpen && successes >= cfg.successThreshold then Closed else b.state,
         successes := successes, failures := 0)
  }

  function Initial(): Breaker {
    Breaker(Closed, 0, 0, 0)
  }

  /** The breaker after a history of writing sections, oldest first. */
  function Replay(cfg: Config, h: seq<Event>): Breaker {
    if h == [] then Initial() else Apply(cfg, Replay(cfg, h[..|h| - 1]), h[|h| - 1])
  }

  /** The failure time of a history's last failure. */
  function LastFailure(h: seq<Event>): int {
    if h == [] then 0 else if h[|h| - 1].Failed? then h[|h| - 1].at else LastFailure(h[..|h| - 1])
  }

  lemma {:induction false} LastFailureIsKept(cfg: Config, h: seq<Event>)
    ensures Replay(cfg, h).lastFailTime == LastFailure(h)
  {
    if h != [] {
      LastFailureIsKept(cfg, h[..|h| - 1]);
    }
  }

  // ---------------------------------------------------------------------------------------------
  // The Go type
  // ---------------------------------------------------------------------------------------------

  class CircuitBreakerMiddleware {
    const cfg: Config
    var state: CircuitState
    var failures: int
    var successes: int
    var lastFailTime: int
    /** Every writing section so far, whoever executed it. */
    ghost var history: seq<Event>

    ghost function View(): Breaker
      reads this
    {
      Breaker(state, failures, successes, lastFailTime)
    }

    ghost predicate Valid()
      reads this
    {
      View() == Replay(cfg, history)
    }

    constructor (cfg: Config)
      ensures Valid() && this.cfg == cfg && history == []
    {
      this.cfg := cfg;
      state, failures, successes, lastFailTime, history := Closed, 0, 0, 0, [];
    }

    method WriteHalfOpen()
      requires Valid()
      modifies this
      ensures Valid() && history == old(history) + [Probe]
    {
      state := HalfOpen;
      successes := 0;
      history := history + [Probe];
    }

    method RecordResult(outcome: Outcome, now: int)
      requires Valid()
      modifies this
      ensures Valid()
      ensures history == old(history) + [if outcome.err || (outcome.status.Some? && outcome.status.value >= 500)
                                         then Failed(now) else Succeeded]
    {
      if IsFailure(outcome) {
        failures := failures + 1;
        successes := 0;
        lastFailTime := now;
        if failures >= cfg.failureThreshold {
          state := Open;
        }
        history := history + [Failed(now)];
      } else {
        successes := successes + 1;
        failures := 0;
        if state == HalfOpen && successes >= cfg.successThreshold {
          state := Closed;
        }
        history := history + [Succeeded];
      }
    }

    /** The writing sections of other goroutines while this one does not hold the lock. */
    method Interfere(others: seq<Event>)
      requires Valid()
      modifies this
      ensures Valid() && history == old(history) + others
    {
      var i := 0;
      while i < |others|
        invariant 0 <= i <= |others| && Valid() && history == old(history) + others[..i]
      {
        match others[i] {
          case Probe => WriteHalfOpen();
          case Succeeded => RecordResult(Outcome(false, None), 0);
          case Failed(at) => RecordResult(Outcome(true, None), at);
        }
        i := i + 1;
      }
    }

    /**
     One request.  `gaps` is what others write between its sections: after reading the state, after the
     timeout test, and during the call, which returns `outcome`; `testedAt` and `endedAt` are the clock
     readings.  None is the error "circuit breaker is open".
     */
    method Process(outcome: Outcome, gaps: seq<seq<Event>>, testedAt: int, endedAt: int)
      returns (result: Option<Outcome>)
      requires Valid() && |gaps| == 3
      modifies this
      ensures Valid()
      ensures result == None <==>
                old(state) == Open && testedAt - LastFailure(old(history) + gaps[0]) <= cfg.timeout
      ensures result == None ==> history == old(history) + gaps[0]
      ensures result.Some? ==>
                && result == Some(outcome)
                && history == old(history)
                              + (if old(state) == Open then gaps[0] + gaps[1] + [Probe] else [])
                              + gaps[2]
                              + [if outcome.err || (outcome.status.Some? && outcome.status.value >= 500)
                                 then Failed(endedAt) else Succeeded]
    {
      var stale := state;
      if stale == Open {
        Interfere(gaps[0]);
        LastFailureIsKept(cfg, history);
        if testedAt - lastFailTime > cfg.timeout {
          Interfere(gaps[1]);
          WriteHalfOpen();
        } else {
          return None;
        }
      }
      Interfere(gaps[2]);
      RecordResult(outcome, endedAt);
      return Some(outcome);
    }
  }

  // ---------------------------------------------------------------------------------------------
  // What the fields mean
  // ---------------------------------------------------------------------------------------------

  /** Calls that completed, in order; half-open writes are not completions. */
  function Completed(h: seq<Event>): seq<bool> {
    if h == [] then []
    else
      var before := Completed(h[..|h| - 1]);
      if h[|h| - 1].Probe? then before else before + [h[|h| - 1].Succeeded?]
  }

  /** There are `n` calls, and the last `n` of them all failed. */
  ghost predicate LastFailed(calls: seq<bool>, n: int) {
    n <= |calls| && forall i :: |calls| - n <= i < |calls| ==> !calls[i]
  }

  /** The last `n` completed calls all failed, and the one before them, if any, did not. */
  ghost predicate TrailingFailures(h: seq<Event>, n: int) {
    var c := Completed(h);
    0 <= n && LastFailed(c, n) && (n < |c| ==> c[|c| - n - 1])
  }

  /** The last `n` events are successes, and the one before them, if any, is a failure or a half-open write. */
  ghost predicate TrailingSuccesses(h: seq<Event>, n: int) {
    && 0 <= n <= |h|
    && (forall i :: |h| - n <= i < |h| ==> h[i].Succeeded?)
    && (n < |h| ==> !h[|h| - n - 1].Succeeded?)
  }

  /** The failure at `k` ends a run of at least `failureThreshold` failed calls. */
  ghost predicate Trips(cfg: Config, h: seq<Event>, k: int)
    requires 0 <= k < |h|
  {
    h[k].Failed? && LastFailed(Completed(h[..k + 1]), cfg.failureThreshold)
  }

  /** The event at `k` decides the state until the next such event: a half-open write or a tripping failure. */
  ghost predicate Decides(cfg: Config, h: seq<Event>, k: int)
    requires 0 <= k < |h|
  {
    h[k].Probe? || Trips(cfg, h, k)
  }

  ghost predicate LastDecision(cfg: Config, h: seq<Event>, k: int)
    requires 0 <= k < |h|
  {
    Decides(cfg, h, k) && forall j :: k < j < |h| ==> !Decides(cfg, h, j)
  }

  /** The successes a half-open circuit needs; a threshold below 1 still needs one. */
  function Needed(cfg: Config): int {
    if cfg.successThreshold < 1 then 1 else cfg.successThreshold
  }

  /** At `j` enough consecutive successes are complete, all of them after the half-open write at `w`. */
  ghost predicate RecoveredAt(cfg: Config, h: seq<Event>, w: int, j: int)
    requires 0 <= w < j < |h|
  {
    j - w >= Needed(cfg) && forall i :: j - Needed(cfg) < i <= j ==> h[i].Succeeded?
  }

  ghost predicate Recovered(cfg: Config, h: seq<Event>, w: int)
    requires 0 <= w < |h|
  {
    exists j :: w < j < |h| && RecoveredAt(cfg, h, w, j)
  }

  /** `state` is what the decision at `k` and the recovery after it, if any, leave. */
  ghost predicate StateAfter(cfg: Config, h: seq<Event>, k: int, state: CircuitState)
    requires 0 <= k < |h|
  {
    state == if !h[k].Probe? then Open else if Recovered(cfg, h, k) then Closed else HalfOpen
  }

  /** The state a history leaves behind, told without replaying it. */
  ghost predicate Explains(cfg: Config, h: seq<Event>, state: CircuitState) {
    || (state == Closed && forall k :: 0 <= k < |h| ==> !Decides(cfg, h, k))
    || exists k :: 0 <= k < |h| && LastDecision(cfg, h, k) && StateAfter(cfg, h, k, state)
  }

  lemma DecidesPrefix(cfg: Config, h: seq<Event>, e: Event)
    ensures forall k :: 0 <= k < |h| ==> Decides(cfg, h + [e], k) == Decides(cfg, h, k)
  {
    forall k | 0 <= k < |h| ensures Decides(cfg, h + [e], k) == Decides(cfg, h, k) {
      assert (h + [e])[..k + 1] == h[..k + 1];
    }
  }

  lemma {:induction false} FailuresExplained(cfg: Config, h: seq<Event>)
    ensures TrailingFailures(h, Replay(cfg, h).failures)
  {
    if h != [] {
      FailuresExplained(cfg, h[..|h| - 1]);
    }
  }

  lemma {:induction false} SuccessesExplained(cfg: Config, h: seq<Event>)
    ensures TrailingSuccesses(h, Replay(cfg, h).successes)
  {
    if h != [] {
      SuccessesExplained(cfg, h[..|h| - 1]);
    }
  }

  lemma {:induction false} OneCounterRuns(cfg: Config, h: seq<Event>)
    ensures Replay(cfg, h).failures == 0 || Replay(cfg, h).successes == 0
  {
    if h != [] {
      OneCounterRuns(cfg, h[..|h| - 1]);
    }
  }

  lemma CountersExplained(cfg: Config, h: seq<Event>)
    ensures var b := Replay(cfg, h);
            && TrailingFailures(h, b.failures)
            && TrailingSuccesses(h, b.successes)
            && (b.failures == 0 || b.successes == 0)
  {
    FailuresExplained(cfg, h);
    SuccessesExplained(cfg, h);
    OneCounterRuns(cfg, h);
  }

  lemma RunReaches(h: seq<Event>, n: int, threshold: int)
    requires TrailingFailures(h, n)
    ensures n >= threshold <==> LastFailed(Completed(h), threshold)
  {
  }

  /** The newest event trips exactly when it is a failure that brings the counter to the threshold. */
  lemma TripsIsThreshold(cfg: Config, h: seq<Event>, e: Event)
    ensures Trips(cfg, h + [e], |h|) <==> e.Failed? && Replay(cfg, h + [e]).failures >= cfg.failureThreshold
  {
    FailuresExplained(cfg, h + [e]);
    RunReaches(h + [e], Replay(cfg, h + [e]).failures, cfg.failureThreshold);
    assert (h + [e])[..|h| + 1] == h + [e];
  }

  /** The newest event completes a recovery exactly when it is a success that brings the counter to the threshold. */
  lemma RecoversAtThreshold(cfg: Config, h: seq<Event>, e: Event, w: int)
    requires 0 <= w < |h| && h[w].Probe?
    ensures RecoveredAt(cfg, h + [e], w, |h|)
            <==> e.Succeeded? && Replay(cfg, h + [e]).successes >= cfg.successThreshold
  {
    CountersExplained(cfg, h + [e]);
    assert (h + [e])[..|h|] == h;
    assert (h + [e])[w].Probe? && (h + [e])[|h|] == e;
  }

  lemma RecoveredGrows(cfg: Config, h: seq<Event>, e: Event, w: int)
    requires 0 <= w < |h|
    ensures Recovered(cfg, h + [e], w) <==> Recovered(cfg, h, w) || RecoveredAt(cfg, h + [e], w, |h|)
  {
    var h' := h + [e];
    assert forall i :: 0 <= i < |h| ==> h'[i] == h[i];
    forall j | w < j < |h| ensures RecoveredAt(cfg, h', w, j) == RecoveredAt(cfg, h, w, j) {
    }
    if Recovered(cfg, h, w) {
      var j :| w < j < |h| && RecoveredAt(cfg, h, w, j);
      assert RecoveredAt(cfg, h + [e], w, j);
    }
  }

  lemma {:induction false} StateExplained(cfg: Config, h: seq<Event>)
    ensures Explains(cfg, h, Replay(cfg, h).state)
  {
    if h != [] {
      var before, e := h[..|h| - 1], h[|h| - 1];
      assert h == before + [e];
      StateExplained(cfg, before);
      StateStep(cfg, before, e);
    }
  }

  lemma DecisionSetsState(cfg: Config, h: seq<Event>, e: Event)
    requires Decides(cfg, h + [e], |h|)
    ensures Explains(cfg, h + [e], Replay(cfg, h + [e]).state)
  {
    var h' := h + [e];
    assert h'[..|h|] == h && h'[|h|] == e;
    TripsIsThreshold(cfg, h, e);
    assert LastDecision(cfg, h', |h|);
    assert !Recovered(cfg, h', |h|);
  }

  lemma NoDecisionKeepsState(cfg: Config, h: seq<Event>, e: Event, k: int)
    requires !Decides(cfg, h + [e], |h|)
    requires 0 <= k < |h| && LastDecision(cfg, h, k) && StateAfter(cfg, h, k, Replay(cfg, h).state)
    ensures LastDecision(cfg, h + [e], k) && StateAfter(cfg, h + [e], k, Replay(cfg, h + [e]).state)
  {
    var h' := h + [e];
    assert h'[..|h|] == h && h'[|h|] == e;
    DecidesPrefix(cfg, h, e);
    TripsIsThreshold(cfg, h, e);
    if h[k].Probe? {
      RecoveredGrows(cfg, h, e, k);
      RecoversAtThreshold(cfg, h, e, k);
    }
  }

  lemma StateStep(cfg: Config, h: seq<Event>, e: Event)
    requires Explains(cfg, h, Replay(cfg, h).state)
    ensures Explains(cfg, h + [e], Replay(cfg, h + [e]).state)
  {
    if Decides(cfg, h + [e], |h|) {
      DecisionSetsState(cfg, h, e);
    } else if k :| 0 <= k < |h| && LastDecision(cfg, h, k) && StateAfter(cfg, h, k, Replay(cfg, h).state) {
      NoDecisionKeepsState(cfg, h, e, k);
    } else {
      var h' := h + [e];
      assert h'[..|h|] == h && h'[|h|] == e;
      DecidesPrefix(cfg, h, e);
      TripsIsThreshold(cfg, h, e);
    }
  }

  /**
   Everything the fields say about the history, after any sequence of writing sections: the counters are the
   lengths of the trailing runs, and with thresholds of at least 1 no threshold is ever exceeded unnoticed.
   */
  lemma {:induction false} FieldsExplained(cfg: Config, h: seq<Event>)
    ensures var b := Replay(cfg, h);
            && TrailingFailures(h, b.failures)
            && TrailingSuccesses(h, b.successes)
            && (b.failures == 0 || b.successes == 0)
            && b.lastFailTime == LastFailure(h)
            && Explains(cfg, h, b.state)
            && (cfg.failureThreshold >= 1 && b.state == Closed ==> b.failures < cfg.failureThreshold)
            && (cfg.successThreshold >= 1 && b.state == HalfOpen ==> b.successes < cfg.successThreshold)
  {
    CountersExplained(cfg, h);
    StateExplained(cfg, h);
    LastFailureIsKept(cfg, h);
    if h != [] {
      FieldsExplained(cfg, h[..|h| - 1]);
    }
  }

  /**
   The circuit closes only on the last of `successThreshold` successes that all came after the latest half-open write.
   */
  lemma ClosingNeedsSuccesses(cfg: Config, h: seq<Event>, e: Event)
    requires cfg.successThreshold >= 1
    requires Replay(cfg, h).state != Closed && Replay(cfg, h + [e]).state == Closed
    ensures e.Succeeded? && Replay(cfg, h).state == HalfOpen
    ensures exists w :: 0 <= w < |h| && h[w].Probe? && (forall j :: w < j < |h| ==> !h[j].Probe?)
                        && RecoveredAt(cfg, h + [e], w, |h|)
  {
    assert (h + [e])[..|h|] == h;
    FieldsExplained(cfg, h);
    var w :| 0 <= w < |h| && LastDecision(cfg, h, w) && StateAfter(cfg, h, w, Replay(cfg, h).state);
    forall j | w < j < |h| ensures !h[j].Probe? {
      assert !Decides(cfg, h, j);
    }
    RecoversAtThreshold(cfg, h, e, w);
  }

  // ---------------------------------------------------------------------------------------------
  // Requests as threads
  // ---------------------------------------------------------------------------------------------

  type Thread = nat

  /** Before the next section: nothing pending; read Open; found the timeout passed; in the handler. */
  datatype Pc = Idle | SawOpen | MayProbe | Calling

  datatype World = World(b: Breaker, h: seq<Event>, now: int, pcs: map<Thread, Pc>)

  datatype Move =
    | Read(t: Thread)
    | Test(t: Thread)
    | Write(t: Thread)
    | Finish(t: Thread, failed: bool)
    | Tick(d: nat)

  function PcOf(w: World, t: Thread): Pc {
    if t in w.pcs then w.pcs[t] else Idle
  }

  /** A move whose thread is elsewhere changes nothing. */
  function Next(cfg: Config, w: World, m: Move): World {
    match m
    case Read(t) =>
      if PcOf(w, t) != Idle then w
      else w.(pcs := w.pcs[t := if w.b.state == Open then SawOpen else Calling])
    case Test(t) =>
      if PcOf(w, t) != SawOpen then w
      else w.(pcs := w.pcs[t := if w.now - w.b.lastFailTime > cfg.timeout then MayProbe else Idle])
    case Write(t) =>
      if PcOf(w, t) != MayProbe then w
      else World(Apply(cfg, w.b, Probe), w.h + [Probe], w.now, w.pcs[t := Calling])
    case Finish(t, failed) =>
      if PcOf(w, t) != Calling then w
      else
        var e := if failed then Failed(w.now) else Succeeded;
        World(Apply(cfg, w.b, e), w.h + [e], w.now, w.pcs[t := Idle])
    case Tick(d) => w.(now := w.now + d)
  }

  function Run(cfg: Config, w: World, moves: seq<Move>): World {
    if moves == [] then w else Next(cfg, Run(cfg, w, moves[..|moves| - 1]), moves[|moves| - 1])
  }

  function Start(now: int): World {
    World(Initial(), [], now, map[])
  }

  lemma {:induction false} RunReplays(cfg: Config, now: int, moves: seq<Move>)
    ensures var w := Run(cfg, Start(now), moves); w.b == Replay(cfg, w.h)
  {
    if moves != [] {
      var before := moves[..|moves| - 1];
      RunReplays(cfg, now, before);
      var v, w := Run(cfg, Start(now), before), Run(cfg, Start(now), moves);
      if w.h != v.h {
        assert w.h[..|v.h|] == v.h;
      }
    }
  }

  /** Stale readers included, every interleaving leaves the breaker its history explains. */
  lemma RunRefinesHistory(cfg: Config, now: int, moves: seq<Move>)
    ensures var w := Run(cfg, Start(now), moves);
            && w.b == Replay(cfg, w.h)
            && TrailingFailures(w.h, w.b.failures) && TrailingSuccesses(w.h, w.b.successes)
            && (w.b.failures == 0 || w.b.successes == 0)
            && Explains(cfg, w.h, w.b.state)
            && (cfg.failureThreshold >= 1 && w.b.state == Closed ==> w.b.failures < cfg.failureThreshold)
            && (cfg.successThreshold >= 1 && w.b.state == HalfOpen ==> w.b.successes < cfg.successThreshold)
  {
    RunReplays(cfg, now, moves);
    FieldsExplained(cfg, Run(cfg, Start(now), moves).h);
  }

  function InFlight(w: World): set<Thread> {
    set t | t in w.pcs && w.pcs[t] == Calling
  }

  /** The circuit is open, and nobody is about to probe. */
  ghost predicate Tripped(w: World) {
    && w.b.state == Open && w.b.lastFailTime <= w.now
    && (forall t :: PcOf(w, t) != MayProbe)
  }

  lemma NextInFlight(cfg: Config, w: World, m: Move)
    requires Tripped(w) && Next(cfg, w, m).now - w.b.lastFailTime <= cfg.timeout
    ensures var w' := Next(cfg, w, m);
            InFlight(w') == if m.Finish? then InFlight(w) - {m.t} else InFlight(w)
  {
  }

  lemma NextStaysTripped(cfg: Config, w: World, m: Move)
    requires Tripped(w) && Next(cfg, w, m).now - w.b.lastFailTime <= cfg.timeout
    ensures var w' := Next(cfg, w, m);
            && Tripped(w') && w.b.lastFailTime <= w'.b.lastFailTime && w.now <= w'.now
            && |w'.h| == |w.h| + (if m.Finish? && m.t in InFlight(w) then 1 else 0)
            && w.h <= w'.h
  {
    var w' := Next(cfg, w, m);
    forall t ensures PcOf(w', t) != MayProbe {
      assert PcOf(w, t) != MayProbe;
    }
  }

  /**
   Failing fast: once the circuit is open with nobody about to probe, then until the timeout has passed since
   the last failure the only calls that complete are those already in flight, each at most once, and the
   circuit stays open, whatever they return.
   */
  lemma {:induction false} OpenCircuitFailsFast(cfg: Config, w: World, moves: seq<Move>)
    requires w.b.state == Open && w.b.lastFailTime <= w.now
    requires forall t :: PcOf(w, t) != MayProbe
    requires Run(cfg, w, moves).now - w.b.lastFailTime <= cfg.timeout
    ensures var w' := Run(cfg, w, moves);
            && w'.b.state == Open && w.b.lastFailTime <= w'.b.lastFailTime <= w'.now
            && (forall t :: PcOf(w', t) != MayProbe)
            && InFlight(w') <= InFlight(w)
            && |w'.h| + |InFlight(w')| == |w.h| + |InFlight(w)|
            && w.h <= w'.h
  {
    if moves != [] {
      var m := moves[|moves| - 1];
      var v := Run(cfg, w, moves[..|moves| - 1]);
      assert v.now <= Next(cfg, v, m).now;
      OpenCircuitFailsFast(cfg, w, moves[..|moves| - 1]);
      NextInFlight(cfg, v, m);
      NextStaysTripped(cfg, v, m);
    }
  }

  /** Of an idle thread's request: a circuit that is not open lets it through at once. */
  lemma OthersPass(cfg: Config, w: World, t: Thread)
    requires PcOf(w, t) == Idle && w.b.state != Open
    ensures var w' := Next(cfg, w, Read(t));
            InFlight(w') == InFlight(w) + {t} && w'.b == w.b
  {
  }

  /**
   Recovery: a request that read Open and tests after the timeout goes on to its half-open write, whatever the others
   did since it read, and whenever it then writes, the circuit is half-open and the request in flight.
   */
  lemma ProbePasses(cfg: Config, w: World, t: Thread, moves: seq<Move>)
    requires PcOf(w, t) == SawOpen && w.now - w.b.lastFailTime > cfg.timeout
    requires forall i :: 0 <= i < |moves| ==> moves[i].Tick? || moves[i].t != t
    ensures var w' := Next(cfg, Run(cfg, Next(cfg, w, Test(t)), moves), Write(t));
            w'.b.state == HalfOpen && w'.b.successes == 0 && t in InFlight(w')
  {
    OthersKeepPc(cfg, Next(cfg, w, Test(t)), t, moves);
  }

  lemma {:induction false} OthersKeepPc(cfg: Config, w: World, t: Thread, moves: seq<Move>)
    requires forall i :: 0 <= i < |moves| ==> moves[i].Tick? || moves[i].t != t
    ensures PcOf(Run(cfg, w, moves), t) == PcOf(w, t)
  {
    if moves != [] {
      OthersKeepPc(cfg, w, t, moves[..|moves| - 1]);
    }
  }

  /** From an open circuit, uninterrupted, exactly when the timeout has passed. */
  lemma OpenCircuitRecovers(cfg: Config, w: World, t: Thread)
    requires PcOf(w, t) == Idle && w.b.state == Open
    ensures var w' := Next(cfg, Next(cfg, Next(cfg, w, Read(t)), Test(t)), Write(t));
            if w.now - w.b.lastFailTime > cfg.timeout then
              && w'.b.state == HalfOpen && w'.b.successes == 0
              && InFlight(w') == InFlight(w) + {t} && w'.h == w.h + [Probe]
            else w'.b == w.b && w'.h == w.h && PcOf(w', t) == Idle && InFlight(w') == InFlight(w)
  {
    var w' := Next(cfg, Next(cfg, Next(cfg, w, Read(t)), Test(t)), Write(t));
    forall x ensures PcOf(w', x) == Calling <==> PcOf(w, x) == Calling || (x == t && w'.h != w.h) {
    }
  }
}
