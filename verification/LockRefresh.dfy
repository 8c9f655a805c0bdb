/**
 WithAutoRefresh: one client's two goroutines (the caller and the refresher) among arbitrary other clients.
 */
module LockRefresh {
  import opened Durations
  import opened Wrappers

  import opened DistributedLocks
  import opened LockRuns

  datatype Config = Config(val: Client -> string, me: Client, expiration: int)

  /**
   Trying: inside TryLock with so many retries left.  Granted: SETNX was executed, its reply is on the way.
   Running: `fn` runs.  Stopping: cancelRefresh was called.  Joined: refreshDone was received.  Released:
   ReleaseLock was executed.  GaveUp: TryLock returned an error.
   */
  datatype Phase = Trying(retries: nat) | Granted | Running | Stopping | Joined | Released | GaveUp

  /** InFlight: the extend script was executed, and its reply is on the way. */
  datatype Refresher = Off | Waiting | InFlight(extended: bool)

  /**
   `renewed`: server time of the grant or, if `extended`, of the last successful extend.  `synced`: ExpiresAt was
   written after it, at `replied`.  `grant`: how many leases were granted before this one.
   */
  datatype Guarded = Guarded(
    w: World,
    phase: Phase,
    refresher: Refresher,
    renewed: int,
    extended: bool,
    synced: bool,
    replied: int,
    expiresAt: int,
    grant: nat)

  /** GiveUp and RefresherReturns are also what a failed connection or a cancelled context leads to. */
  datatype Move =
    | Attempt
    | GrantReply
    | GiveUp
    | Refresh
    | ExtendReply
    | RefresherReturns
    | FnReturns
    | Join
    | Unlock
    | Others(step: Step)

  predicate Foreign(cfg: Config, step: Step) {
    (step.Acquire? || step.Release? || step.Extend?) ==> step.c != cfg.me
  }

  function Synced(cfg: Config, g: Guarded): Guarded {
    g.(synced := true, replied := g.w.server.now, expiresAt := g.w.server.now + cfg.expiration)
  }

  /** A move that is not enabled changes nothing. */
  function Advance(cfg: Config, g: Guarded, move: Move): (g': Guarded)
    requires Indexed(g.w)
    ensures Indexed(g'.w)
  {
    var now := g.w.server.now;
    match move
    case Attempt =>
      if !g.phase.Trying? then g
      else
        var w := Next(cfg.val, g.w, Acquire(cfg.me, cfg.expiration));
        if |w.leases| > |g.w.leases| then
          g.(w := w, phase := Granted, renewed := now, extended := false, synced := false, grant := |g.w.leases|)
        else if cfg.expiration < 0 || g.phase.retries == 0 then g.(w := w, phase := GaveUp)
        else g.(w := w, phase := Trying(g.phase.retries - 1))
    case GrantReply => if g.phase.Granted? then Synced(cfg, g.(phase := Running, refresher := Waiting)) else g
    case GiveUp => if g.phase.Trying? || g.phase.Granted? then g.(phase := GaveUp) else g
    case Refresh =>
      if !g.refresher.Waiting? then g
      else
        var w := Next(cfg.val, g.w, Extend(cfg.me, cfg.expiration));
        if g.w.server.Holds(cfg.val(cfg.me)) then
          g.(w := w, refresher := InFlight(true), renewed := now, extended := true, synced := false)
        else g.(w := w, refresher := InFlight(false))
    case ExtendReply =>
      if !g.refresher.InFlight? then g
      else if g.refresher.extended then Synced(cfg, g.(refresher := Waiting))
      else g.(refresher := Off)
    case RefresherReturns => g.(refresher := Off)
    case FnReturns => if g.phase.Running? then g.(phase := Stopping) else g
    case Join => if g.phase.Stopping? && g.refresher.Off? then g.(phase := Joined) else g
    case Unlock =>
      if !g.phase.Joined? then g
      else g.(w := Next(cfg.val, g.w, Release(cfg.me)), phase := Released)
    case Others(step) => if Foreign(cfg, step) then g.(w := Next(cfg.val, g.w, step)) else g
  }

  function AdvanceAll(cfg: Config, g: Guarded, moves: seq<Move>): (g': Guarded)
    requires Indexed(g.w)
    ensures Indexed(g'.w)
    decreases |moves|
  {
    if moves == [] then g else AdvanceAll(cfg, Advance(cfg, g, moves[0]), moves[1..])
  }

  /** From the grant to the release. */
  predicate Guarding(g: Guarded) {
    g.phase.Granted? || g.phase.Running? || g.phase.Stopping? || g.phase.Joined?
  }

  /** What EXPIRE grants: the expiration without its fraction of a second. */
  function Floor(cfg: Config): int {
    WholeSeconds(cfg.expiration) * SECOND
  }

  /** How long a renewal lasts: a grant for the expiration, or for ever, and an extend for its whole seconds. */
  function Limit(cfg: Config, extended: bool): Option<int> {
    if extended then Some(Floor(cfg)) else if cfg.expiration == 0 then None else Some(cfg.expiration)
  }

  /** The last renewal and what it grants. */
  function Deadline(cfg: Config, g: Guarded): Option<int> {
    var limit := Limit(cfg, g.extended);
    if limit.Some? then Some(g.renewed + limit.value) else None
  }

  /** The last renewal has not run out. */
  predicate InTime(cfg: Config, g: Guarded) {
    Guarding(g) && Deadline(cfg, g).Some? ==> g.w.server.now < Deadline(cfg, g).value
  }

  /** In every state passed through, the last renewal has not run out: a condition on the times of renewals alone. */
  ghost predicate Timely(cfg: Config, g: Guarded, moves: seq<Move>)
    requires Indexed(g.w)
    decreases |moves|
  {
    && InTime(cfg, g)
    && (moves != [] ==> Timely(cfg, Advance(cfg, g, moves[0]), moves[1..]))
  }

  /** In every state passed through between grant and release the server holds the key for this caller. */
  ghost predicate HeldThroughout(cfg: Config, g: Guarded, moves: seq<Move>)
    requires Indexed(g.w)
    decreases |moves|
  {
    && (Guarding(g) ==> g.w.server.Holds(cfg.val(cfg.me)))
    && (moves != [] ==> HeldThroughout(cfg, Advance(cfg, g, moves[0]), moves[1..]))
  }

  predicate Safe(cfg: Config, g: Guarded) {
    && Indexed(g.w)
    && (!g.refresher.Off? ==> g.phase.Running? || g.phase.Stopping?)
    && (Guarding(g) ==> Kept(cfg, g) && Believed(cfg, g))
  }

  /** What the server and the log of grants hold while the call is in time. */
  predicate Kept(cfg: Config, g: Guarded) {
    && g.w.server.Holds(cfg.val(cfg.me))
    && |g.w.leases| == g.grant + 1 && g.w.leases[g.grant].client == cfg.me
    && g.renewed <= g.w.server.now
    && g.w.server.entry.until == Deadline(cfg, g)
  }

  /** What the client's ExpiresAt is. */
  predicate Believed(cfg: Config, g: Guarded) {
    && cfg.expiration >= 0
    && (g.refresher.InFlight? ==> g.refresher.extended)
    && (g.synced ==> g.renewed <= g.replied && g.expiresAt == g.replied + cfg.expiration)
  }

  lemma AcquireGrants(cfg: Config, w: World)
    requires Indexed(w)
    ensures var w' := Next(cfg.val, w, Acquire(cfg.me, cfg.expiration));
            && w'.server.now == w.server.now
            && (|w'.leases| != |w.leases| ==>
                  && cfg.expiration >= 0
                  && |w'.leases| == |w.leases| + 1 && w'.leases[|w.leases|].client == cfg.me
                  && (cfg.expiration >= 0 ==> w'.server.Holds(cfg.val(cfg.me)))
                  && w'.server.entry.until
                  == if cfg.expiration == 0 then None else Some(w.server.now + cfg.expiration))
  {
  }

  lemma ExtendRenews(cfg: Config, w: World)
    requires Indexed(w) && w.server.Holds(cfg.val(cfg.me))
    ensures var w' := Next(cfg.val, w, Extend(cfg.me, cfg.expiration));
            && w'.server.now == w.server.now
            && |w'.leases| == |w.leases|
            && (forall i :: 0 <= i < |w.leases| ==> w'.leases[i].client == w.leases[i].client)
            && if Floor(cfg) <= 0 then !w'.server.Live()
               else w'.server.entry == Held(cfg.val(cfg.me), Some(w.server.now + Floor(cfg)))
  {
  }

  /** Another client's command leaves a held lock alone. */
  lemma OthersCannotDisturb(cfg: Config, w: World, step: Step)
    requires Distinct(cfg.val) && Indexed(w) && Foreign(cfg, step)
    requires w.server.Holds(cfg.val(cfg.me))
    ensures var w' := Next(cfg.val, w, step);
            && w'.server.entry == w.server.entry
            && w'.server.now >= w.server.now
            && |w'.leases| == |w.leases|
            && (forall i :: 0 <= i < |w.leases| ==> w'.leases[i].client == w.leases[i].client)
  {
  }

  lemma AttemptKeepsSafe(cfg: Config, g: Guarded)
    requires Safe(cfg, g)
    ensures Safe(cfg, Advance(cfg, g, Attempt)) && InTime(cfg, Advance(cfg, g, Attempt))
  {
    AcquireGrants(cfg, g.w);
  }

  lemma RefreshKeepsSafe(cfg: Config, g: Guarded)
    requires Safe(cfg, g)
    ensures var g' := Advance(cfg, g, Refresh);
            if InTime(cfg, g') then Safe(cfg, g') else Guarding(g') && !g'.w.server.Live()
  {
    if g.refresher.Waiting? {
      ExtendRenews(cfg, g.w);
    }
  }

  lemma OthersKeepSafe(cfg: Config, g: Guarded, step: Step)
    requires Distinct(cfg.val) && Safe(cfg, g)
    ensures var g' := Advance(cfg, g, Others(step));
            if InTime(cfg, g') then Safe(cfg, g') else Guarding(g') && !g'.w.server.Live()
  {
    if Guarding(g) && Foreign(cfg, step) {
      OthersCannotDisturb(cfg, g.w, step);
    }
  }

  /** The key is this caller's while it is in time, and free for anyone in the first state that is not. */
  lemma AdvanceKeepsSafe(cfg: Config, g: Guarded, move: Move)
    requires Distinct(cfg.val) && Safe(cfg, g) && InTime(cfg, g)
    ensures var g' := Advance(cfg, g, move);
            if InTime(cfg, g') then Safe(cfg, g') else Guarding(g') && !g'.w.server.Live()
  {
    match move
    case Attempt => AttemptKeepsSafe(cfg, g);
    case Refresh => RefreshKeepsSafe(cfg, g);
    case Others(step) => OthersKeepSafe(cfg, g, step);
    case _ =>
  }

  lemma {:induction false} AdvanceAllKeepsSafe(cfg: Config, g: Guarded, moves: seq<Move>)
    requires Distinct(cfg.val) && Safe(cfg, g) && InTime(cfg, g) && Timely(cfg, g, moves)
    ensures Safe(cfg, AdvanceAll(cfg, g, moves)) && InTime(cfg, AdvanceAll(cfg, g, moves))
    decreases |moves|
  {
    if moves == [] {
    } else {
      var g' := Advance(cfg, g, moves[0]);
      AdvanceKeepsSafe(cfg, g, moves[0]);
      assert Timely(cfg, g', moves[1..]);
      AdvanceAllKeepsSafe(cfg, g', moves[1..]);
    }
  }

  lemma {:induction false} TimelyIsHeld(cfg: Config, g: Guarded, moves: seq<Move>)
    requires Distinct(cfg.val) && Safe(cfg, g) && InTime(cfg, g)
    ensures Timely(cfg, g, moves) <==> HeldThroughout(cfg, g, moves)
    decreases |moves|
  {
    if moves == [] {
    } else {
      var g' := Advance(cfg, g, moves[0]);
      AdvanceKeepsSafe(cfg, g, moves[0]);
      if InTime(cfg, g') {
        TimelyIsHeld(cfg, g', moves[1..]);
      } else {
        assert !Timely(cfg, g', moves[1..]) && !HeldThroughout(cfg, g', moves[1..]);
      }
    }
  }

  /** Against a key that stays held, each attempt uses up a retry, and the one after the last gives up. */
  lemma {:induction false} RefusedAttempts(cfg: Config, g: Guarded, n: nat)
    requires Indexed(g.w) && g.phase.Trying? && g.w.server.Live() && cfg.expiration >= 0
    ensures var r, g' := g.phase.retries, AdvanceAll(cfg, g, seq(n, _ => Attempt));
            g' == g.(phase := if n <= r then Trying(r - n) else GaveUp)
    decreases n
  {
    if n > 0 {
      var rest := seq(n - 1, _ => Attempt);
      assert seq(n, _ => Attempt)[1..] == rest;
      if g.phase.retries > 0 {
        RefusedAttempts(cfg, Advance(cfg, g, Attempt), n - 1);
      } else {
        GaveUpStays(cfg, Advance(cfg, g, Attempt), n - 1);
      }
    }
  }

  lemma {:induction false} GaveUpStays(cfg: Config, g: Guarded, n: nat)
    requires Indexed(g.w) && g.phase.GaveUp?
    ensures AdvanceAll(cfg, g, seq(n, _ => Attempt)) == g
    decreases n
  {
    if n > 0 {
      assert seq(n, _ => Attempt)[1..] == seq(n - 1, _ => Attempt);
      GaveUpStays(cfg, g, n - 1);
    }
  }

  function Calling(w: World, maxRetries: nat): Guarded {
    Guarded(w, Trying(maxRetries), Off, 0, false, false, 0, 0, 0)
  }

  /** WithAutoRefresh about to be called in any reachable world. */
  function CallIn(cfg: Config, now: int, before: seq<Step>, maxRetries: nat): (g: Guarded)
    ensures Indexed(g.w)
  {
    Calling(Run(cfg.val, Start(now), before), maxRetries)
  }

  /**
   The server holds the key for this caller from the grant until ReleaseLock if and only if every renewal comes
   before the one before it has run out.
   */
  lemma HeldExactlyWhenTimely(cfg: Config, now: int, before: seq<Step>, maxRetries: nat, moves: seq<Move>)
    requires Distinct(cfg.val)
    ensures var g := CallIn(cfg, now, before, maxRetries);
            HeldThroughout(cfg, g, moves) <==> Timely(cfg, g, moves)
  {
    TimelyIsHeld(cfg, CallIn(cfg, now, before, maxRetries), moves);
  }

  /**
   While renewals are timely it is one lease, nobody else is granted the lock, the server's deadline is exactly
   the last renewal plus what it grants, and ReleaseLock frees the key.  Once the reply to the last renewal
   is in, the client's ExpiresAt is never before that deadline, and past it by less than the time the reply took
   plus one second.
   */
  lemma AutoRefreshKeepsLease(cfg: Config, now: int, before: seq<Step>, maxRetries: nat, moves: seq<Move>)
    requires Distinct(cfg.val)
    requires Timely(cfg, CallIn(cfg, now, before, maxRetries), moves)
    ensures var g := AdvanceAll(cfg, CallIn(cfg, now, before, maxRetries), moves);
            Guarding(g) ==>
              && g.w.server.Holds(cfg.val(cfg.me))
              && |g.w.leases| == g.grant + 1 && g.w.leases[g.grant].client == cfg.me
              && (forall c, e :: Next(cfg.val, g.w, Acquire(c, e)) == g.w)
              && g.w.server.entry.until == Deadline(cfg, g)
              && (g.synced && Deadline(cfg, g).Some? ==>
                    0 <= g.expiresAt - Deadline(cfg, g).value < g.replied - g.renewed + SECOND)
    ensures var g := AdvanceAll(cfg, CallIn(cfg, now, before, maxRetries), moves);
            g.phase.Joined? ==> Advance(cfg, g, Unlock).w.server.entry == Absent
  {
    AdvanceAllKeepsSafe(cfg, CallIn(cfg, now, before, maxRetries), moves);
  }

  lemma FreeForOthers(cfg: Config, g: Guarded, other: Client, expiration: nat)
    requires Indexed(g.w) && !g.w.server.Live() && other != cfg.me
    ensures var g' := Advance(cfg, g, Others(Acquire(other, expiration)));
            && g'.phase == g.phase && g'.grant == g.grant
            && g'.w.leases == g.w.leases + [g'.w.leases[|g.w.leases|]]
            && g'.w.leases[|g.w.leases|].client == other
  {
  }

  /**
   At the first moment that a renewal comes too late, while the call still counts on its lock, any other client
   that asks for it is granted it.
   */
  lemma LateMeansFree(cfg: Config, now: int, before: seq<Step>, maxRetries: nat, moves: seq<Move>, move: Move,
                      other: Client, expiration: nat)
    requires Distinct(cfg.val) && other != cfg.me
    requires Timely(cfg, CallIn(cfg, now, before, maxRetries), moves)
    ensures var g := Advance(cfg, AdvanceAll(cfg, CallIn(cfg, now, before, maxRetries), moves), move);
            var g' := Advance(cfg, g, Others(Acquire(other, expiration)));
            !InTime(cfg, g) ==>
              && Guarding(g')
              && |g'.w.leases| > |g.w.leases| && g'.w.leases[|g.w.leases|].client == other
  {
    AdvanceAllKeepsSafe(cfg, CallIn(cfg, now, before, maxRetries), moves);
    var g := AdvanceAll(cfg, CallIn(cfg, now, before, maxRetries), moves);
    AdvanceKeepsSafe(cfg, g, move);
    if !InTime(cfg, Advance(cfg, g, move)) {
      FreeForOthers(cfg, Advance(cfg, g, move), other, expiration);
    }
  }

  lemma {:induction false} RefresherOutlivesNothing(cfg: Config, g: Guarded, moves: seq<Move>)
    requires Indexed(g.w)
    requires !g.refresher.Off? ==> g.phase.Running? || g.phase.Stopping?
    ensures var g' := AdvanceAll(cfg, g, moves); !g'.refresher.Off? ==> g'.phase.Running? || g'.phase.Stopping?
    decreases |moves|
  {
    if moves == [] {
    } else {
      RefresherOutlivesNothing(cfg, Advance(cfg, g, moves[0]), moves[1..]);
    }
  }

  /** Timely or not, once ReleaseLock has been executed this call sends nothing more. */
  lemma SilentAfterRelease(cfg: Config, now: int, before: seq<Step>, maxRetries: nat, moves: seq<Move>, move: Move)
    requires AdvanceAll(cfg, CallIn(cfg, now, before, maxRetries), moves).phase.Released?
    requires !move.Others?
    ensures var g := AdvanceAll(cfg, CallIn(cfg, now, before, maxRetries), moves); Advance(cfg, g, move) == g
  {
    RefresherOutlivesNothing(cfg, CallIn(cfg, now, before, maxRetries), moves);
  }

  /**
   After a renewal the client believes in a lease of `expiration`, but once the gap since an extend reaches the
   whole-second floor the lock is free for anyone, even though ExpiresAt has not passed.
   */
  lemma FloorIsTight(cfg: Config, g: Guarded, other: Client, d: nat)
    requires Indexed(g.w) && g.refresher.Waiting?
    requires g.w.server.Holds(cfg.val(cfg.me))
    requires other != cfg.me && Floor(cfg) <= d < cfg.expiration
    ensures var g1 := Advance(cfg, Advance(cfg, g, Refresh), ExtendReply);
            var g2 := Advance(cfg, g1, Others(Tick(d)));
            var g3 := Advance(cfg, g2, Others(Acquire(other, SECOND)));
            && g1.synced && g3.w.server.now < g3.expiresAt
            && g3.w.server.Holds(cfg.val(other))
            && |g3.w.leases| == |g2.w.leases| + 1
  {
  }
}
