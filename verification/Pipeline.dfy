/** DeduplicatorProcessor and BatchProcessor of crawler/pipeline/processors.go. */
module Pipelines {
  import opened Arithmetic
  import opened Sequences
  import opened Values
  import opened Wrappers

  // ---------------------------------------------------------------------------------------------
  // Deduplication.  `key` is the processor's getKey: the key field's text, or a hash of the whole map.
  // ---------------------------------------------------------------------------------------------

  type KeyOf = map<string, Value> -> string

  predicate IsNew(key: KeyOf, seen: set<string>, v: Value) {
    v.Obj? ==> key(v.fields) !in seen
  }

  /** The keys seen once `items` have gone through. */
  function Seen(key: KeyOf, seen: set<string>, items: seq<Value>): set<string> {
    seen + set v | v in items && v.Obj? :: key(v.fields)
  }

  /** What passes of `items`. */
  function Unique(key: KeyOf, seen: set<string>, items: seq<Value>): seq<Value> {
    if items == [] then []
    else
      var n := |items| - 1;
      Unique(key, seen, items[..n]) + if IsNew(key, Seen(key, seen, items[..n]), items[n]) then [items[n]] else []
  }

  class DeduplicatorProcessor {
    const key: KeyOf
    var seen: set<string>

    constructor (key: KeyOf)
      ensures this.key == key && seen == {}
    {
      this.key, seen := key, {};
    }

    method ProcessMap(m: Value) returns (result: Option<Value>)
      requires m.Obj?
      modifies this
      ensures result == if Unique(key, old(seen), [m]) == [m] then Some(m) else None
      ensures result == None ==> Unique(key, old(seen), [m]) == []
      ensures seen == Seen(key, old(seen), [m])
    {
      assert [m][..0] == [];
      var k := key(m.fields);
      if k in seen {
        return None;
      }
      seen := seen + {k};
      return Some(m);
    }

    method ProcessSlice(items: seq<Value>) returns (unique: seq<Value>)
      modifies this
      ensures unique == Unique(key, old(seen), items)
      ensures seen == Seen(key, old(seen), items)
    {
      unique := [];
      for i := 0 to |items|
        invariant unique == Unique(key, old(seen), items[..i])
        invariant seen == Seen(key, old(seen), items[..i])
      {
        assert items[..i + 1][..i] == items[..i];
        if items[i].Obj? {
          var k := key(items[i].fields);
          if k !in seen {
            seen := seen + {k};
            unique := unique + [items[i]];
          }
        } else {
          unique := unique + [items[i]];
        }
      }
      assert items[..|items|] == items;
    }
  }

  lemma SeenConcat(key: KeyOf, seen: set<string>, a: seq<Value>, b: seq<Value>)
    ensures Seen(key, seen, a + b) == Seen(key, Seen(key, seen, a), b)
  {
  }

  lemma {:induction false} UniqueConcat(key: KeyOf, seen: set<string>, a: seq<Value>, b: seq<Value>)
    ensures Unique(key, seen, a + b) == Unique(key, seen, a) + Unique(key, Seen(key, seen, a), b)
    decreases |b|
  {
    if b == [] {
      assert a + b == a;
    } else {
      var n := |b| - 1;
      assert (a + b)[..|a + b| - 1] == a + b[..n];
      UniqueConcat(key, seen, a, b[..n]);
      SeenConcat(key, seen, a, b[..n]);
    }
  }

  /** The outputs of one call after another, joined; each call starts from the keys that the one before it left. */
  function UniqueByChunks(key: KeyOf, seen: set<string>, chunks: seq<seq<Value>>): seq<Value>
    decreases |chunks|
  {
    if chunks == [] then []
    else Unique(key, seen, chunks[0]) + UniqueByChunks(key, Seen(key, seen, chunks[0]), chunks[1..])
  }

  /** However the input is cut into slices, the outputs join to the output on the whole. */
  lemma {:induction false} ChunksDoNotMatter(key: KeyOf, seen: set<string>, chunks: seq<seq<Value>>)
    ensures UniqueByChunks(key, seen, chunks) == Unique(key, seen, Concat(chunks))
    decreases |chunks|
  {
    if chunks != [] {
      ChunksDoNotMatter(key, Seen(key, seen, chunks[0]), chunks[1..]);
      UniqueConcat(key, seen, chunks[0], Concat(chunks[1..]));
    }
  }

  /** Not a map, or the first map with its key. */
  ghost predicate FirstOccurrence(key: KeyOf, items: seq<Value>, i: int)
    requires 0 <= i < |items|
  {
    items[i].Obj? ==> forall j :: 0 <= j < i && items[j].Obj? ==> key(items[j].fields) != key(items[i].fields)
  }

  /** `at` are the positions, in order, of exactly the first occurrences. */
  ghost predicate FirstPositions(key: KeyOf, items: seq<Value>, at: seq<int>) {
    && (forall k :: 0 <= k < |at| ==> 0 <= at[k] < |items| && FirstOccurrence(key, items, at[k]))
    && (forall k, l :: 0 <= k < l < |at| ==> at[k] < at[l])
    && (forall i :: 0 <= i < |items| && FirstOccurrence(key, items, i) ==> i in at)
  }

  lemma FirstInPrefix(key: KeyOf, items: seq<Value>, n: nat, i: nat)
    requires i < n <= |items|
    ensures FirstOccurrence(key, items, i) <==> FirstOccurrence(key, items[..n], i)
  {
    assert forall j :: 0 <= j <= i ==> items[j] == items[..n][j];
  }

  /** An item passes exactly when it is the first of its key. */
  lemma NewIsFirst(key: KeyOf, items: seq<Value>, n: nat)
    requires n < |items|
    ensures IsNew(key, Seen(key, {}, items[..n]), items[n]) <==> FirstOccurrence(key, items, n)
  {
    if items[n].Obj? {
      var front, k := items[..n], key(items[n].fields);
      if j :| 0 <= j < n && items[j].Obj? && key(items[j].fields) == k {
        assert front[j] in front && front[j] == items[j];
      } else {
        forall v | v in front && v.Obj? ensures key(v.fields) != k {
          var j :| 0 <= j < n && front[j] == v;
          assert items[j] == v;
        }
      }
    }
  }

  lemma PositionsGrow(key: KeyOf, items: seq<Value>, at: seq<int>, n: nat)
    requires |items| == n + 1 && FirstPositions(key, items[..n], at)
    ensures FirstPositions(key, items, if FirstOccurrence(key, items, n) then at + [n] else at)
  {
    forall k | 0 <= k < |at| ensures 0 <= at[k] < n && FirstOccurrence(key, items, at[k]) {
      FirstInPrefix(key, items, n, at[k]);
    }
    forall i | 0 <= i < n && FirstOccurrence(key, items, i) ensures i in at {
      FirstInPrefix(key, items, n, i);
    }
  }

  /** `out` is what stands at the positions `at`. */
  ghost predicate Selects(items: seq<Value>, at: seq<int>, out: seq<Value>) {
    |out| == |at| && forall k :: 0 <= k < |at| ==> 0 <= at[k] < |items| && out[k] == items[at[k]]
  }

  lemma SelectsGrow(items: seq<Value>, at: seq<int>, out: seq<Value>, n: nat)
    requires |items| == n + 1 && Selects(items[..n], at, out)
    ensures Selects(items, at, out) && Selects(items, at + [n], out + [items[n]])
  {
  }

  /** The output is the input at the positions of the first occurrences. */
  lemma {:induction false} UniqueIsFirstOccurrences(key: KeyOf, items: seq<Value>) returns (at: seq<int>)
    ensures FirstPositions(key, items, at) && Selects(items, at, Unique(key, {}, items))
  {
    if items == [] {
      at := [];
    } else {
      var n := |items| - 1;
      at := UniqueIsFirstOccurrences(key, items[..n]);
      PositionsGrow(key, items, at, n);
      SelectsGrow(items, at, Unique(key, {}, items[..n]), n);
      NewIsFirst(key, items, n);
      if FirstOccurrence(key, items, n) {
        at := at + [n];
      } else {
        assert Unique(key, {}, items[..n]) + [] == Unique(key, {}, items[..n]);
      }
    }
  }

  // ---------------------------------------------------------------------------------------------
  // Batching
  // ---------------------------------------------------------------------------------------------

  datatype Op = Add(v: Value) | Flush

  /** What the processor has been handed so far, batch by batch, and what waits. */
  datatype Batching = Batching(passed: seq<seq<Value>>, batch: seq<Value>)

  function Step(size: nat, s: Batching, op: Op): Batching {
    match op
    case Add(v) =>
      var batch := s.batch + [v];
      if |batch| >= size then Batching(s.passed + [batch], []) else s.(batch := batch)
    case Flush => if |s.batch| > 0 then Batching(s.passed + [s.batch], []) else s
  }

  function Run(size: nat, ops: seq<Op>): Batching {
    if ops == [] then Batching([], []) else Step(size, Run(size, ops[..|ops| - 1]), ops[|ops| - 1])
  }

  class BatchProcessor {
    const batchSize: nat
    var batch: seq<Value>
    /** The batches handed to the processor function. */
    ghost var passed: seq<seq<Value>>

    ghost function View(): Batching
      reads this
    {
      Batching(passed, batch)
    }

    constructor (batchSize: nat)
      ensures this.batchSize == batchSize && View() == Run(batchSize, [])
    {
      this.batchSize, batch, passed := batchSize, [], [];
    }

    /** The result is the batch that the processor function gets, if it is called. */
    method Process(data: Value) returns (handed: Option<seq<Value>>)
      modifies this
      ensures View() == Step(batchSize, old(View()), Add(data))
      ensures handed == if |old(batch)| + 1 >= batchSize then Some(old(batch) + [data]) else None
      ensures if handed.Some? then batch == [] && passed == old(passed) + [handed.value]
              else batch == old(batch) + [data] && passed == old(passed)
    {
      batch := batch + [data];
      if |batch| >= batchSize {
        handed := Some(batch);
        passed := passed + [batch];
        batch := [];
      } else {
        handed := None;
      }
    }

    method FlushBatch() returns (handed: Option<seq<Value>>)
      modifies this
      ensures View() == Step(batchSize, old(View()), Flush)
      ensures handed == if old(batch) != [] then Some(old(batch)) else None
      ensures batch == []
      ensures passed == old(passed) + if handed.Some? then [handed.value] else []
    {
      if |batch| > 0 {
        handed := Some(batch);
        passed := passed + [batch];
        batch := [];
      } else {
        handed := None;
      }
    }
  }

  function Inputs(ops: seq<Op>): seq<Value> {
    if ops == [] then []
    else Inputs(ops[..|ops| - 1]) + if ops[|ops| - 1].Add? then [ops[|ops| - 1].v] else []
  }

  /** A batch size of 0 acts like 1. */
  function Full(size: nat): nat {
    if size == 0 then 1 else size
  }

  function Held(s: Batching): seq<Value> {
    Concat(s.passed) + s.batch
  }

  lemma StepHolds(size: nat, s: Batching, op: Op)
    ensures Held(Step(size, s, op)) == Held(s) + if op.Add? then [op.v] else []
  {
    match op
    case Add(v) =>
      var c, batch := Concat(s.passed), s.batch + [v];
      assert c + batch == Held(s) + [v];
      ConcatSnoc(s.passed, batch);
      assert c + batch + [] == c + batch;
    case Flush =>
      var c := Concat(s.passed);
      ConcatSnoc(s.passed, s.batch);
      assert c + s.batch + [] == c + s.batch;
  }

  ghost predicate WellSized(size: nat, s: Batching) {
    |s.batch| < Full(size) && forall i :: 0 <= i < |s.passed| ==> 0 < |s.passed[i]| <= Full(size)
  }

  /** Nothing is lost, doubled or reordered, flushes or not, and no batch exceeds its size. */
  lemma {:induction false} BatchesAreTheInput(size: nat, ops: seq<Op>)
    ensures Held(Run(size, ops)) == Inputs(ops)
    ensures WellSized(size, Run(size, ops))
  {
    if ops != [] {
      var n := |ops| - 1;
      BatchesAreTheInput(size, ops[..n]);
      StepHolds(size, Run(size, ops[..n]), ops[n]);
    }
  }

  /** A flush leaves nothing waiting, so all inputs before it have been handed over. */
  lemma FlushedIsAll(size: nat, ops: seq<Op>)
    ensures var s := Run(size, ops + [Flush]);
            s.batch == [] && Concat(s.passed) == Inputs(ops)
  {
    assert (ops + [Flush])[..|ops|] == ops;
    BatchesAreTheInput(size, ops + [Flush]);
    var s := Run(size, ops + [Flush]);
    assert Concat(s.passed) + [] == Concat(s.passed);
    assert Inputs(ops) + [] == Inputs(ops);
  }

  /** Without a flush every batch is full, so n inputs make n / size batches and leave n mod size waiting. */
  lemma {:induction false} UnflushedBatchesAreFull(size: nat, ops: seq<Op>)
    requires forall i :: 0 <= i < |ops| ==> ops[i].Add?
    ensures var s := Run(size, ops);
            && (forall i :: 0 <= i < |s.passed| ==> |s.passed[i]| == Full(size))
            && |s.passed| == |ops| / Full(size) && |s.batch| == |ops| % Full(size)
  {
    if ops == [] {
      DivModUnique(Full(size), 0, 0, 0);
    } else {
      UnflushedBatchesAreFull(size, ops[..|ops| - 1]);
      DivModStep(Full(size), |ops| - 1);
    }
  }
}
