/** The batch completion counter of crawler/distributed/batch_middleware.go. */
module Batches {
  import opened Arithmetic

  // ---------------------------------------------------------------------------------------------
  // The Go type, undisturbed
  // ---------------------------------------------------------------------------------------------

  /** The counter key of one batch, 0 when Redis does not have it, and the batch events in the completed queue. */
  datatype Store = Store(processed: nat, events: nat)

  /** One result of a batch of size `size`, when nothing fails or interleaves. */
  function ProcessOne(s: Store, size: int): Store {
    if s.processed + 1 >= size then Store(0, s.events + 1) else s.(processed := s.processed + 1)
  }

  function ProcessMany(s: Store, size: int, k: nat): Store {
    if k == 0 then s else ProcessOne(ProcessMany(s, size, k - 1), size)
  }

  class BatchAggregatorMiddleware {
    var processed: map<string, nat>
    var events: seq<string>

    constructor ()
      ensures processed == map[] && events == []
    {
      processed, events := map[], [];
    }

    function Count(batchID: string): nat
      reads this
    {
      if batchID in processed then processed[batchID] else 0
    }

    /** A result of a batch; results without a batch id publish their own event instead. */
    method Process(batchID: string, taskID: string, batchSize: int)
      modifies this
      ensures batchID == "" ==> events == old(events) + [taskID] && processed == old(processed)
      ensures batchID != "" ==>
                var s := ProcessOne(Store(old(Count(batchID)), 0), batchSize);
                && Count(batchID) == s.processed
                && events == old(events) + (if s.events == 1 then [batchID] else [])
      ensures batchID != "" ==>
                if old(Count(batchID)) + 1 >= batchSize then
                  batchID !in processed && events == old(events) + [batchID]
                else
                  Count(batchID) == old(Count(batchID)) + 1 && events == old(events)
      ensures forall b :: b != batchID ==> Count(b) == old(Count(b))
    {
      if batchID == "" {
        events := events + [taskID];
        return;
      }
      var count := Count(batchID) + 1;
      processed := processed[batchID := count];
      if count >= batchSize {
        events := events + [batchID];
        processed := processed - {batchID};
      }
    }
  }

  /** Processed one after another, k results publish exactly the completed batches and leave the rest counted. */
  lemma {:induction false} SequentialCount(size: int, k: nat)
    requires size >= 1
    ensures ProcessMany(Store(0, 0), size, k) == Store(k % size, k / size)
  {
    if k == 0 {
      DivModUnique(size, 0, 0, 0);
    } else {
      SequentialCount(size, k - 1);
      DivModStep(size, k - 1);
    }
  }

  // ---------------------------------------------------------------------------------------------
  // Many processors at once
  // ---------------------------------------------------------------------------------------------

  /** A processor of one result: before INCR; told to publish; told to delete the key; done. */
  datatype Pc = Fresh | Publishing | Deleting | Finished

  /**
   `incremented`, `attempts`, `deletes` and `lapses` count the INCRs, the publishing attempts, the DELs that
   reached the server and the expiries of the key.
   */
  datatype World = World(
    processed: nat,
    pcs: seq<Pc>,
    incremented: nat,
    attempts: nat,
    published: nat,
    deletes: nat,
    lapses: nat)

  datatype Step =
    | Incr(p: nat, ok: bool)
    | Publish(p: nat, ok: bool)
    | Del(p: nat, ok: bool)
    | Lapse

  /** `ok` is whether Redis executed the command; a step whose processor is elsewhere changes nothing. */
  function Next(size: int, w: World, step: Step): World {
    match step
    case Incr(p, ok) =>
      if p >= |w.pcs| || w.pcs[p] != Fresh then w
      else if !ok then w.(pcs := w.pcs[p := Finished])
      else
        var count := w.processed + 1;
        w.(processed := count, incremented := w.incremented + 1,
           pcs := w.pcs[p := if count >= size then Publishing else Finished])
    case Publish(p, ok) =>
      if p >= |w.pcs| || w.pcs[p] != Publishing then w
      else
        w.(attempts := w.attempts + 1, published := w.published + if ok then 1 else 0, pcs := w.pcs[p := Deleting])
    case Del(p, ok) =>
      if p >= |w.pcs| || w.pcs[p] != Deleting then w
      else if !ok then w.(pcs := w.pcs[p := Finished])
      else w.(processed := 0, deletes := w.deletes + 1, pcs := w.pcs[p := Finished])
    case Lapse => w.(processed := 0, lapses := w.lapses + 1)
  }

  /** A processor that nobody interrupts does what Process does undisturbed. */
  lemma UninterruptedIsProcessOne(size: int, w: World, p: nat)
    requires p < |w.pcs| && w.pcs[p] == Fresh
    ensures var w' := Next(size, Next(size, Next(size, w, Incr(p, true)), Publish(p, true)), Del(p, true));
            Store(w'.processed, w'.published) == ProcessOne(Store(w.processed, w.published), size)
  {
  }

  function Run(size: int, w: World, steps: seq<Step>): World {
    if steps == [] then w else Next(size, Run(size, w, steps[..|steps| - 1]), steps[|steps| - 1])
  }

  /** `k` results of one batch, none processed yet. */
  function Start(k: nat): World {
    World(0, seq(k, _ => Fresh), 0, 0, 0, 0, 0)
  }

  function CountPc(pcs: seq<Pc>, pc: Pc): nat {
    if pcs == [] then 0 else (if pcs[|pcs| - 1] == pc then 1 else 0) + CountPc(pcs[..|pcs| - 1], pc)
  }

  lemma {:induction false} CountUpdate(pcs: seq<Pc>, p: nat, to: Pc, pc: Pc)
    requires p < |pcs|
    ensures CountPc(pcs[p := to], pc)
         == CountPc(pcs, pc) - (if pcs[p] == pc then 1 else 0) + (if to == pc then 1 else 0)
  {
    var n := |pcs| - 1;
    if p == n {
      assert pcs[p := to][..n] == pcs[..n];
    } else {
      assert pcs[p := to][..n] == pcs[..n][p := to];
      CountUpdate(pcs[..n], p, to, pc);
    }
  }

  lemma {:induction false} CountFresh(k: nat, pc: Pc)
    ensures CountPc(seq(k, _ => Fresh), pc) == if pc == Fresh then k else 0
  {
    if k > 0 {
      CountFresh(k - 1, pc);
      assert seq(k, _ => Fresh)[..k - 1] == seq(k - 1, _ => Fresh);
    }
  }

  /** Processors that saw the batch complete, whether or not they have published yet. */
  function Completers(w: World): nat {
    w.attempts + CountPc(w.pcs, Publishing)
  }

  ghost predicate Inv(size: int, k: nat, w: World) {
    && |w.pcs| == k
    && w.incremented + CountPc(w.pcs, Fresh) <= k
    && w.deletes + CountPc(w.pcs, Deleting) <= w.attempts
    && w.published <= w.attempts
    // at most size - 1 increments between two resets of the counter see an incomplete batch
    && w.incremented - Completers(w) <= (size - 1) * (w.deletes + w.lapses) + Least(w.processed, size - 1)
    // the first completer has seen size increments
    && (Completers(w) > 0 ==> w.incremented >= Completers(w) + size - 1)
    && (Completers(w) == 0 && w.lapses == 0 ==> w.processed == w.incremented)
    && w.processed <= w.incremented
  }

  lemma PcMoves(pcs: seq<Pc>, p: nat, to: Pc)
    requires p < |pcs| && pcs[p] != to
    ensures forall pc :: CountPc(pcs[p := to], pc)
                      == CountPc(pcs, pc) - (if pcs[p] == pc then 1 else 0) + (if to == pc then 1 else 0)
  {
    forall pc ensures CountPc(pcs[p := to], pc)
                   == CountPc(pcs, pc) - (if pcs[p] == pc then 1 else 0) + (if to == pc then 1 else 0) {
      CountUpdate(pcs, p, to, pc);
    }
  }

  lemma ResetAdds(size: int, resets: int)
    ensures (size - 1) * (resets + 1) == (size - 1) * resets + (size - 1)
  {
  }

  lemma IncrKeepsInv(size: int, k: nat, w: World, p: nat, ok: bool)
    requires size >= 1 && Inv(size, k, w)
    ensures Inv(size, k, Next(size, w, Incr(p, ok)))
  {
    var w' := Next(size, w, Incr(p, ok));
    if p < k && w.pcs[p] == Fresh {
      PcMoves(w.pcs, p, w'.pcs[p]);
    }
  }

  lemma PublishKeepsInv(size: int, k: nat, w: World, p: nat, ok: bool)
    requires size >= 1 && Inv(size, k, w)
    ensures Inv(size, k, Next(size, w, Publish(p, ok)))
  {
    if p < k && w.pcs[p] == Publishing {
      PcMoves(w.pcs, p, Deleting);
    }
  }

  lemma DelKeepsInv(size: int, k: nat, w: World, p: nat, ok: bool)
    requires size >= 1 && Inv(size, k, w)
    ensures Inv(size, k, Next(size, w, Del(p, ok)))
  {
    if p < k && w.pcs[p] == Deleting {
      ResetAdds(size, w.deletes + w.lapses);
      PcMoves(w.pcs, p, Finished);
    }
  }

  lemma NextKeepsInv(size: int, k: nat, w: World, step: Step)
    requires size >= 1 && Inv(size, k, w)
    ensures Inv(size, k, Next(size, w, step))
  {
    match step
    case Incr(p, ok) => IncrKeepsInv(size, k, w, p, ok);
    case Publish(p, ok) => PublishKeepsInv(size, k, w, p, ok);
    case Del(p, ok) => DelKeepsInv(size, k, w, p, ok);
    case Lapse => ResetAdds(size, w.deletes + w.lapses);
  }

  lemma {:induction false} RunKeepsInv(size: int, k: nat, steps: seq<Step>)
    requires size >= 1
    ensures Inv(size, k, Run(size, Start(k), steps))
  {
    if steps == [] {
      CountFresh(k, Fresh);
      CountFresh(k, Publishing);
      CountFresh(k, Deleting);
    } else {
      RunKeepsInv(size, k, steps[..|steps| - 1]);
      NextKeepsInv(size, k, Run(size, Start(k), steps[..|steps| - 1]), steps[|steps| - 1]);
    }
  }

  lemma QuotientAtMost(size: int, n: nat, a: nat)
    requires size >= 1 && n <= size * a + size - 1
    ensures n / size <= a
  {
    var q := n / size;
    assert q * size <= n;
    if q > a {
      ProductAtLeast(q - a, size);
    }
  }

  /**
   No completed batch is missed, whatever interleaves and whatever fails: so long as the key does not lapse,
   every `size` counted results make a processor try to publish, and nobody tries before `size` results were
   counted nor more often than once per result from the `size`-th on.  Each lapse forgets at most `size - 1` results.
   */
  lemma NoBatchMissed(size: int, k: nat, steps: seq<Step>)
    requires size >= 1
    ensures var w := Run(size, Start(k), steps);
            && (w.lapses == 0 ==> w.incremented / size <= Completers(w))
            && w.incremented <= size * Completers(w) + (size - 1) * (w.lapses + 1)
            && (Completers(w) > 0 ==> Completers(w) <= w.incremented - size + 1 <= k - size + 1)
            && w.published <= w.attempts <= Completers(w)
  {
    RunKeepsInv(size, k, steps);
    var w := Run(size, Start(k), steps);
    IncrementBound(size, w.incremented, Completers(w), w.deletes, w.lapses, Least(w.processed, size - 1));
    if w.lapses == 0 {
      QuotientAtMost(size, w.incremented, Completers(w));
    }
  }

  lemma IncrementBound(size: int, n: int, a: int, deletes: int, lapses: int, open: int)
    requires size >= 1 && deletes <= a && open <= size - 1
    requires n - a <= (size - 1) * (deletes + lapses) + open
    ensures n <= size * a + (size - 1) * (lapses + 1)
  {
    ProductMonotone(size - 1, deletes + lapses, a + lapses);
    assert (size - 1) * (a + lapses) == size * a - a + (size - 1) * lapses;
    ResetAdds(size, lapses);
  }

  lemma ProductMonotone(c: nat, x: int, y: int)
    requires x <= y
    ensures c * x <= c * y
  {
    assert c * y - c * x == c * (y - x);
  }

  /** Everything has run to the end and no command failed. */
  ghost predicate Clean(w: World) {
    && w.lapses == 0
    && w.published == w.attempts
    && w.incremented == |w.pcs|
    && forall p :: 0 <= p < |w.pcs| ==> w.pcs[p] == Finished
  }

  lemma {:induction false} NonePending(pcs: seq<Pc>, pc: Pc)
    requires pc != Finished && forall p :: 0 <= p < |pcs| ==> pcs[p] == Finished
    ensures CountPc(pcs, pc) == 0
  {
    if pcs != [] {
      NonePending(pcs[..|pcs| - 1], pc);
    }
  }

  /** At least as many batch events as completed batches, and at most one for every result from the `size`-th on. */
  lemma EveryBatchPublished(size: int, k: nat, steps: seq<Step>)
    requires size >= 1 && Clean(Run(size, Start(k), steps))
    ensures var w := Run(size, Start(k), steps);
            && k / size <= w.published
            && (k < size ==> w.published == 0)
            && (k >= size ==> w.published <= k - size + 1)
            && (k == size ==> w.published == 1)
  {
    var w := Run(size, Start(k), steps);
    RunKeepsInv(size, k, steps);
    NoBatchMissed(size, k, steps);
    NonePending(w.pcs, Publishing);
    if k == size {
      DivModUnique(size, k, 1, 0);
    }
  }

  /** An exactly-once event is published only after every result of its batch has been counted. */
  lemma EventComesLast(size: int, steps: seq<Step>)
    requires size >= 1
    ensures var w := Run(size, Start(size), steps);
            w.published <= 1 && (w.attempts > 0 ==> w.attempts == 1 && w.incremented == size)
  {
    RunKeepsInv(size, size, steps);
  }

  lemma RunSnoc(size: int, w: World, steps: seq<Step>, last: Step)
    ensures Run(size, w, steps + [last]) == Next(size, Run(size, w, steps), last)
  {
    assert (steps + [last])[..|steps|] == steps;
  }

  /**
   A schedule with the latest possible DELs: the first `n` processors increment, then `published` of the completers
   among them publish, then `deleted` of those delete.
   */
  function LateDeletes(size: nat, n: nat, published: nat, deleted: nat): seq<Step>
    requires size >= 2
    decreases deleted, published, n
  {
    if deleted > 0 then LateDeletes(size, n, published, deleted - 1) + [Del(size + deleted - 2, true)]
    else if published > 0 then LateDeletes(size, n, published - 1, 0) + [Publish(size + published - 2, true)]
    else if n > 0 then LateDeletes(size, n - 1, 0, 0) + [Incr(n - 1, true)]
    else []
  }

  function LatePc(size: nat, n: nat, published: nat, deleted: nat, p: nat): Pc {
    if p >= n then Fresh
    else if p + 1 < size + deleted then Finished
    else if p + 1 < size + published then Deleting
    else Publishing
  }

  ghost predicate Late(size: nat, k: nat, n: nat, published: nat, deleted: nat, w: World) {
    && |w.pcs| == k
    && w.incremented == n && w.attempts == published && w.published == published && w.lapses == 0
    && (published == 0 ==> w.processed == n)
    && forall p :: 0 <= p < k ==> w.pcs[p] == LatePc(size, n, published, deleted, p)
  }

  lemma LateIncr(size: nat, k: nat, n: nat, w: World)
    requires size >= 2 && n < k && Late(size, k, n, 0, 0, w)
    ensures Late(size, k, n + 1, 0, 0, Next(size, w, Incr(n, true)))
  {
  }

  lemma LatePublish(size: nat, k: nat, n: nat, published: nat, w: World)
    requires size >= 2 && size + published <= n <= k && Late(size, k, n, published, 0, w)
    ensures Late(size, k, n, published + 1, 0, Next(size, w, Publish(size + published - 1, true)))
  {
    var p := size + published - 1;
    assert w.pcs[p] == Publishing;
  }

  lemma LateDel(size: nat, k: nat, n: nat, published: nat, deleted: nat, w: World)
    requires size >= 2 && deleted < published && size + published <= n + 1 <= k + 1
    requires Late(size, k, n, published, deleted, w)
    ensures Late(size, k, n, published, deleted + 1, Next(size, w, Del(size + deleted - 1, true)))
  {
    var p := size + deleted - 1;
    assert w.pcs[p] == Deleting;
  }

  lemma {:induction false} LateIncrs(size: nat, k: nat, n: nat)
    requires size >= 2 && n <= k
    ensures Late(size, k, n, 0, 0, Run(size, Start(k), LateDeletes(size, n, 0, 0)))
  {
    if n > 0 {
      var before := LateDeletes(size, n - 1, 0, 0);
      LateIncrs(size, k, n - 1);
      LateIncr(size, k, n - 1, Run(size, Start(k), before));
      RunSnoc(size, Start(k), before, Incr(n - 1, true));
    }
  }

  lemma {:induction false} LatePublishes(size: nat, k: nat, published: nat)
    requires size >= 2 && size + published <= k + 1
    ensures Late(size, k, k, published, 0, Run(size, Start(k), LateDeletes(size, k, published, 0)))
  {
    if published == 0 {
      LateIncrs(size, k, k);
    } else {
      var before := LateDeletes(size, k, published - 1, 0);
      LatePublishes(size, k, published - 1);
      LatePublish(size, k, k, published - 1, Run(size, Start(k), before));
      RunSnoc(size, Start(k), before, Publish(size + published - 2, true));
    }
  }

  lemma {:induction false} LateDels(size: nat, k: nat, published: nat, deleted: nat)
    requires size >= 2 && size + published <= k + 1 && deleted <= published
    ensures Late(size, k, k, published, deleted, Run(size, Start(k), LateDeletes(size, k, published, deleted)))
  {
    if deleted == 0 {
      LatePublishes(size, k, published);
    } else {
      var before := LateDeletes(size, k, published, deleted - 1);
      LateDels(size, k, published, deleted - 1);
      LateDel(size, k, k, published, deleted - 1, Run(size, Start(k), before));
      RunSnoc(size, Start(k), before, Del(size + deleted - 2, true));
    }
  }

  /** More than one batch's worth of results: a run to the end that publishes once for every result past a batch. */
  lemma LateResultPublishesAgain(size: nat, k: nat)
    requires 2 <= size < k
    ensures var w := Run(size, Start(k), LateDeletes(size, k, k - size + 1, k - size + 1));
            Clean(w) && w.published == k - size + 1 > k / size
  {
    LateDels(size, k, k - size + 1, k - size + 1);
    FewerBatches(size, k);
  }

  lemma FewerBatches(size: nat, k: nat)
    requires 2 <= size < k
    ensures k / size < k - size + 1
  {
    var q, r := k / size, k % size;
    assert k == q * size + r && r < size;
    if q == 0 {
      assert false;
    } else if q >= 2 {
      ProductAtLeast(q - 1, size - 1);
      assert (q - 1) * (size - 1) == q * size - size + 1 - q;
    }
  }

  /** Events are exactly the completed batches, in every run to the end without failures. */
  ghost predicate ExactlyOnce(size: int, k: nat)
    requires size >= 1
  {
    forall steps :: Clean(Run(size, Start(k), steps)) ==> Run(size, Start(k), steps).published == k / size
  }

  /** One event per completed batch is certain exactly when no batch can be followed by a further result. */
  lemma ExactlyOnceIff(size: int, k: nat)
    requires size >= 1
    ensures ExactlyOnce(size, k) <==> size == 1 || k <= size
  {
    if size == 1 || k <= size {
      forall steps | Clean(Run(size, Start(k), steps))
        ensures Run(size, Start(k), steps).published == k / size
      {
        EveryBatchPublished(size, k, steps);
        if k < size {
          DivModUnique(size, k, 0, k);
        } else if k == size {
          DivModUnique(size, k, 1, 0);
        }
      }
    } else {
      LateResultPublishesAgain(size, k);
    }
  }
}
