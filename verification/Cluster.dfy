/** The task rebalancer of crawler/distributed/cluster.go. */
module Clusters {
  import opened Sums
  import opened Wrappers

  type NodeId = string
  type TaskId = string

  function Abs(x: int): int {
    if x < 0 then -x else x
  }

  /** Go's integer division, which truncates toward zero. */
  function TruncDiv(a: int, b: int): int
    requires b > 0
  {
    if a >= 0 then a / b else -((-a) / b)
  }

  /** `mean` is `total` divided by `n`, less the fraction. */
  predicate Mean(mean: int, total: int, n: int) {
    && (total >= 0 ==> mean * n <= total < (mean + 1) * n)
    && (total <= 0 ==> (mean - 1) * n < total <= mean * n)
  }

  lemma TruncDivIsMean(a: int, b: int)
    requires b > 0
    ensures Mean(TruncDiv(a, b), a, b)
  {
    var q := if a >= 0 then a / b else (-a) / b;
    assert (q + 1) * b == q * b + b && (-q) * b == -(q * b) && (-q - 1) * b == -(q * b) - b;
    if a == 0 {
      assert q == 0;
    }
  }

  /** There is only one such number. */
  lemma MeanIsUnique(p: int, q: int, total: int, n: int)
    requires n > 0 && Mean(p, total, n) && Mean(q, total, n)
    ensures p == q
  {
    if p < q {
      MultiplesApart(p, q, n);
    } else if q < p {
      MultiplesApart(q, p, n);
    }
  }

  lemma MultiplesApart(p: int, q: int, n: int)
    requires n > 0 && p < q
    ensures (p + 1) * n <= q * n && p * n <= (q - 1) * n
  {
    assert q * n - (p + 1) * n == (q - p - 1) * n;
    assert (q - 1) * n - p * n == (q - p - 1) * n;
    assert (q - p - 1) * n >= 0;
  }

  // ---------------------------------------------------------------------------------------------
  // Totals
  // ---------------------------------------------------------------------------------------------

  ghost function CountAt(counts: map<NodeId, int>): NodeId -> int {
    k => if k in counts then counts[k] else 0
  }

  ghost function DistanceAt(counts: map<NodeId, int>, ideal: int): NodeId -> int {
    k => if k in counts then Abs(counts[k] - ideal) else 0
  }

  ghost function QueuedAt(queues: map<NodeId, seq<TaskId>>): NodeId -> multiset<TaskId> {
    k => if k in queues then multiset(queues[k]) else multiset{}
  }

  ghost function Total(counts: map<NodeId, int>): int {
    Sum(counts.Keys, CountAt(counts))
  }

  /** How far the cluster is from the ideal distribution. */
  ghost function Imbalance(counts: map<NodeId, int>, ideal: int): int {
    Sum(counts.Keys, DistanceAt(counts, ideal))
  }

  /** Every task in every queue. */
  ghost function Queued(queues: map<NodeId, seq<TaskId>>): multiset<TaskId> {
    Union(queues.Keys, QueuedAt(queues))
  }

  /** The total is the sum of the counts, node by node. */
  lemma TotalGrows(counts: map<NodeId, int>, k: NodeId, count: int)
    requires k !in counts
    ensures Total(map[]) == 0 && Total(counts[k := count]) == Total(counts) + count
  {
    var counts' := counts[k := count];
    assert counts'.Keys - {k} == counts.Keys;
    SumSplit(counts'.Keys, CountAt(counts'), k);
    SumSame(counts.Keys, CountAt(counts), CountAt(counts'));
  }

  lemma MovedCount(counts: map<NodeId, int>, ideal: int, source: NodeId, target: NodeId)
    requires source in counts && target in counts
    requires counts[target] < ideal < counts[source]
    ensures var counts' := counts[source := counts[source] - 1][target := counts[target] + 1];
            && counts'.Keys == counts.Keys
            && Total(counts') == Total(counts)
            && Imbalance(counts', ideal) == Imbalance(counts, ideal) - 2
  {
    var counts' := counts[source := counts[source] - 1][target := counts[target] + 1];
    assert counts'.Keys == counts.Keys;
    SumTransfer(counts.Keys, CountAt(counts), CountAt(counts'), source, target);
    SumTransfer(counts.Keys, DistanceAt(counts, ideal), DistanceAt(counts', ideal), source, target);
  }

  lemma OneQueueChanged(queues: map<NodeId, seq<TaskId>>, k: NodeId, q: seq<TaskId>) returns (rest: multiset<TaskId>)
    requires k in queues
    ensures Queued(queues) == multiset(queues[k]) + rest
    ensures Queued(queues[k := q]) == multiset(q) + rest
  {
    var queues' := queues[k := q];
    assert queues'.Keys == queues.Keys;
    UnionSplit(queues.Keys, QueuedAt(queues), k);
    UnionSplit(queues.Keys, QueuedAt(queues'), k);
    UnionSame(queues.Keys - {k}, QueuedAt(queues), QueuedAt(queues'));
    rest := Union(queues.Keys - {k}, QueuedAt(queues));
  }

  // ---------------------------------------------------------------------------------------------
  // What a migration promises
  // ---------------------------------------------------------------------------------------------

  /** Every node moves toward the ideal and none past it. */
  ghost predicate Banded(before: map<NodeId, int>, after: map<NodeId, int>, ideal: int) {
    && after.Keys == before.Keys
    && forall k :: k in before ==> InBand(before[k], after[k], ideal)
  }

  predicate InBand(before: int, after: int, ideal: int) {
    if before >= ideal then ideal <= after <= before else before <= after <= ideal
  }

  predicate IsFull(counts: map<NodeId, int>, k: NodeId, ideal: int) {
    k !in counts || counts[k] >= ideal
  }

  predicate AllFull(counts: map<NodeId, int>, nodes: seq<NodeId>, ideal: int) {
    forall j :: 0 <= j < |nodes| ==> IsFull(counts, nodes[j], ideal)
  }

  /** How many of `nodes` cannot take a task: at the ideal already, or without metrics. */
  function FullNodes(counts: map<NodeId, int>, nodes: seq<NodeId>, ideal: int): nat {
    if nodes == [] then 0
    else
      var last := |nodes| - 1;
      FullNodes(counts, nodes[..last], ideal) + if IsFull(counts, nodes[last], ideal) then 1 else 0
  }

  lemma {:induction false} FullNodesBound(counts: map<NodeId, int>, nodes: seq<NodeId>, ideal: int)
    ensures FullNodes(counts, nodes, ideal) <= |nodes|
    ensures FullNodes(counts, nodes, ideal) == |nodes| <==> AllFull(counts, nodes, ideal)
  {
    if nodes != [] {
      var last := |nodes| - 1;
      FullNodesBound(counts, nodes[..last], ideal);
      assert forall j :: 0 <= j < last ==> nodes[j] == nodes[..last][j];
    }
  }

  lemma {:induction false} FullNodesPrefix(counts: map<NodeId, int>, nodes: seq<NodeId>, ideal: int, n: nat)
    requires n <= |nodes|
    ensures FullNodes(counts, nodes[..n], ideal) <= FullNodes(counts, nodes, ideal)
  {
    if n == |nodes| {
      assert nodes[..n] == nodes;
    } else {
      var front := nodes[..|nodes| - 1];
      FullNodesPrefix(counts, front, ideal, n);
      assert front[..n] == nodes[..n];
    }
  }

  ghost predicate NoDuplicates(nodes: seq<NodeId>) {
    forall i, j :: 0 <= i < j < |nodes| ==> nodes[i] != nodes[j]
  }

  /** The manager's bookkeeping, and Redis: queues, assignment records, and what failed pushes did. */
  datatype State = State(
    counts: map<NodeId, int>,
    queues: map<NodeId, seq<TaskId>>,
    assignment: map<TaskId, NodeId>,
    pushFailures: nat,
    lost: multiset<TaskId>)

  ghost predicate Valid(s: State) {
    s.counts.Keys <= s.queues.Keys
  }

  /** No task is duplicated, and none disappears but those a failed push-back lost. */
  ghost predicate Conserved(s: State, s': State) {
    && s'.queues.Keys == s.queues.Keys
    && Queued(s'.queues) + s'.lost == Queued(s.queues) + s.lost
  }

  /** A record that changed names a node that was below the ideal and whose queue holds the task. */
  ghost predicate Recorded(s: State, s': State, ideal: int) {
    && s.assignment.Keys <= s'.assignment.Keys
    && forall x {:trigger s'.assignment[x]} :: x in s'.assignment ==>
         (x in s.assignment && s'.assignment[x] == s.assignment[x]) || NamesHolder(s', x, s'.assignment[x], ideal)
  }

  ghost predicate NamesHolder(s: State, x: TaskId, k: NodeId, ideal: int) {
    k in s.counts && s.counts[k] <= ideal && k in s.queues && x in s.queues[k]
  }

  function LastOf(s: State, source: NodeId): TaskId
    requires source in s.queues && s.queues[source] != []
  {
    s.queues[source][|s.queues[source]| - 1]
  }

  /** RPOP. */
  function Popped(s: State, source: NodeId): State
    requires source in s.queues && s.queues[source] != []
  {
    s.(queues := s.queues[source := s.queues[source][..|s.queues[source]| - 1]])
  }

  /** LPUSH. */
  function Pushed(s: State, k: NodeId, task: TaskId): State
    requires k in s.queues
  {
    s.(queues := s.queues[k := [task] + s.queues[k]])
  }

  /** One task went from the tail of the source's list to the head of the target's; SET may have failed. */
  function Moved(s: State, source: NodeId, target: NodeId, recorded: bool): State
    requires source in s.queues && target in s.queues && s.queues[source] != []
  {
    var task := LastOf(s, source);
    Assigned(Pushed(Popped(s, source), target, task), task, target, recorded)
  }

  function Assigned(s: State, task: TaskId, target: NodeId, recorded: bool): State {
    if recorded then s.(assignment := s.assignment[task := target]) else s
  }

  /** The push failed, and the task went back to the head of its own list. */
  function PutBack(s: State, source: NodeId): State
    requires source in s.queues && s.queues[source] != []
  {
    Pushed(Popped(s, source), source, LastOf(s, source)).(pushFailures := s.pushFailures + 1)
  }

  /** The push failed, and so did the push back. */
  function Dropped(s: State, source: NodeId): State
    requires source in s.queues && s.queues[source] != []
  {
    Popped(s, source).(pushFailures := s.pushFailures + 1, lost := s.lost + multiset{LastOf(s, source)})
  }

  lemma PoppedQueues(s: State, source: NodeId)
    requires source in s.queues && s.queues[source] != []
    ensures Queued(s.queues) == Queued(Popped(s, source).queues) + multiset{LastOf(s, source)}
  {
    var q := s.queues[source];
    assert q == q[..|q| - 1] + [q[|q| - 1]];
    var rest := OneQueueChanged(s.queues, source, q[..|q| - 1]);
  }

  lemma PushedQueues(s: State, k: NodeId, task: TaskId)
    requires k in s.queues
    ensures Queued(Pushed(s, k, task).queues) == Queued(s.queues) + multiset{task}
  {
    var rest := OneQueueChanged(s.queues, k, [task] + s.queues[k]);
  }

  /** The counts after one task moved. */
  function Counted(s: State, source: NodeId, target: NodeId): State
    requires source in s.counts && target in s.counts
  {
    s.(counts := s.counts[source := s.counts[source] - 1][target := s.counts[target] + 1])
  }

  // ---------------------------------------------------------------------------------------------
  // Migrations as logs of what happened to each popped task
  // ---------------------------------------------------------------------------------------------

  datatype Event =
    | Move(source: NodeId, target: NodeId, recorded: bool)
    | Return(source: NodeId)
    | Lose(source: NodeId)

  /** How many of the writes of one popped task failed. */
  function FailedWrites(e: Event): nat {
    match e
    case Move(_, _, recorded) => if recorded then 0 else 1
    case Return(_) => 1
    case Lose(_) => 2
  }

  datatype Log = Start | Then(log: Log, event: Event)

  /** A task is popped only from a node above the ideal, and pushed only to a node below it. */
  ghost predicate Enabled(s: State, e: Event, ideal: int) {
    && e.source in s.counts && e.source in s.queues && s.queues[e.source] != [] && ideal < s.counts[e.source]
    && (e.Move? ==> e.target in s.counts && e.target in s.queues && s.counts[e.target] < ideal)
  }

  function Happen(s: State, e: Event, ideal: int): State
    requires Enabled(s, e, ideal)
  {
    match e
    case Move(source, target, recorded) => Counted(Moved(s, source, target, recorded), source, target)
    case Return(source) => PutBack(s, source)
    case Lose(source) => Dropped(s, source)
  }

  /**
   Where the task goes that an event pops from the tail of its source: to the head of the target's list, with its
   record unless SET failed, and one count from source to target; or back to the head of its own list; or nowhere.
   */
  lemma EventEffects(s: State, e: Event, ideal: int)
    requires Enabled(s, e, ideal)
    ensures var s', q := Happen(s, e, ideal), s.queues[e.source];
            var rest, task := q[..|q| - 1], q[|q| - 1];
            match e
            case Move(source, target, recorded) =>
              && s'.queues == s.queues[source := rest][target := [task] + s.queues[target]]
              && s'.assignment == (if recorded then s.assignment[task := target] else s.assignment)
              && s'.counts == s.counts[source := s.counts[source] - 1][target := s.counts[target] + 1]
              && s'.pushFailures == s.pushFailures && s'.lost == s.lost
            case Return(source) =>
              s' == s.(queues := s.queues[source := [task] + rest], pushFailures := s.pushFailures + 1)
            case Lose(source) =>
              s' == s.(queues := s.queues[source := rest], pushFailures := s.pushFailures + 1,
                       lost := s.lost + multiset{task})
  {
    var q := s.queues[e.source];
    var back := [q[|q| - 1]] + q[..|q| - 1];
    assert s.queues[e.source := q[..|q| - 1]][e.source := back] == s.queues[e.source := back];
  }

  /** The log leads from `s0` to `s`. */
  ghost predicate Leads(s0: State, log: Log, s: State, ideal: int) {
    match log
    case Start => s == s0
    case Then(before, e) =>
      exists m :: Leads(s0, before, m, ideal) && Enabled(m, e, ideal) && s == Happen(m, e, ideal)
  }

  function Moves(log: Log): nat {
    match log
    case Start => 0
    case Then(before, e) => Moves(before) + if e.Move? then 1 else 0
  }

  /** How many writes failed along the log. */
  function FailedIn(log: Log): nat {
    match log
    case Start => 0
    case Then(before, e) => FailedIn(before) + FailedWrites(e)
  }

  /** What a migration keeps. */
  ghost predicate Kept(s: State, s': State, ideal: int) {
    && Valid(s')
    && Conserved(s, s')
    && Total(s'.counts) == Total(s.counts)
    && Banded(s.counts, s'.counts, ideal)
    && Recorded(s, s', ideal)
  }

  lemma BandedTransitive(c0: map<NodeId, int>, c1: map<NodeId, int>, c2: map<NodeId, int>, ideal: int)
    requires Banded(c0, c1, ideal) && Banded(c1, c2, ideal)
    ensures Banded(c0, c2, ideal)
  {
  }

  lemma RecordedTransitive(s0: State, s1: State, s2: State, ideal: int)
    requires Recorded(s0, s1, ideal) && Recorded(s1, s2, ideal)
    requires forall x, k :: NamesHolder(s1, x, k, ideal) ==> NamesHolder(s2, x, k, ideal)
    ensures Recorded(s0, s2, ideal)
  {
    forall x | x in s2.assignment && !(x in s0.assignment && s2.assignment[x] == s0.assignment[x])
      ensures NamesHolder(s2, x, s2.assignment[x], ideal)
    {
      if x in s1.assignment && s2.assignment[x] == s1.assignment[x] {
        assert NamesHolder(s1, x, s1.assignment[x], ideal);
      }
    }
  }

  /** A node that a record names is not above the ideal, so nothing is popped from it. */
  lemma HolderStays(s: State, e: Event, ideal: int, x: TaskId, k: NodeId)
    requires Enabled(s, e, ideal) && NamesHolder(s, x, k, ideal)
    ensures NamesHolder(Happen(s, e, ideal), x, k, ideal)
  {
    var s' := Happen(s, e, ideal);
    assert k != e.source;
    if e.Move? && k == e.target {
      assert s'.queues[k][1..] == s.queues[k];
    } else {
      assert s'.queues[k] == s.queues[k];
    }
  }

  lemma EventIsRecorded(s: State, e: Event, ideal: int)
    requires Enabled(s, e, ideal)
    ensures Recorded(s, Happen(s, e, ideal), ideal)
  {
    var s' := Happen(s, e, ideal);
    if e.Move? {
      var task := LastOf(s, e.source);
      assert s'.queues[e.target][0] == task;
      assert NamesHolder(s', task, e.target, ideal);
    }
  }

  lemma EventIsBanded(s: State, e: Event, ideal: int)
    requires Enabled(s, e, ideal)
    ensures Banded(s.counts, Happen(s, e, ideal).counts, ideal)
  {
  }

  lemma PopPushConserves(s: State, source: NodeId, k: NodeId)
    requires source in s.queues && k in s.queues && s.queues[source] != []
    ensures var s' := Pushed(Popped(s, source), k, LastOf(s, source));
            s'.queues.Keys == s.queues.Keys && Queued(s'.queues) == Queued(s.queues)
  {
    PoppedQueues(s, source);
    PushedQueues(Popped(s, source), k, LastOf(s, source));
  }

  lemma MoveConserves(s: State, source: NodeId, target: NodeId, recorded: bool)
    requires source in s.queues && target in s.queues && s.queues[source] != []
    ensures Conserved(s, Moved(s, source, target, recorded))
  {
    PopPushConserves(s, source, target);
  }

  lemma PutBackConserves(s: State, source: NodeId)
    requires source in s.queues && s.queues[source] != []
    ensures Conserved(s, PutBack(s, source))
  {
    PopPushConserves(s, source, source);
  }

  lemma DropConserves(s: State, source: NodeId)
    requires source in s.queues && s.queues[source] != []
    ensures Conserved(s, Dropped(s, source))
  {
    PoppedQueues(s, source);
  }

  lemma EventConserves(s: State, e: Event, ideal: int)
    requires Enabled(s, e, ideal)
    ensures Conserved(s, Happen(s, e, ideal))
  {
    match e
    case Move(source, target, recorded) => MoveConserves(s, source, target, recorded);
    case Return(source) => PutBackConserves(s, source);
    case Lose(source) => DropConserves(s, source);
  }

  lemma EventCounts(s: State, e: Event, ideal: int)
    requires Enabled(s, e, ideal)
    ensures Total(Happen(s, e, ideal).counts) == Total(s.counts)
    ensures Imbalance(Happen(s, e, ideal).counts, ideal) == Imbalance(s.counts, ideal) - if e.Move? then 2 else 0
  {
    if e.Move? {
      MovedCount(s.counts, ideal, e.source, e.target);
    }
  }

  /** Conservation, banding and the gain of a whole migration, for every pattern of failures. */
  lemma {:induction false} LogKeeps(s0: State, log: Log, s: State, ideal: int)
    requires Valid(s0) && Leads(s0, log, s, ideal)
    ensures Kept(s0, s, ideal)
    ensures Imbalance(s.counts, ideal) == Imbalance(s0.counts, ideal) - 2 * Moves(log)
  {
    match log
    case Start =>
    case Then(before, e) =>
      var m :| Leads(s0, before, m, ideal) && Enabled(m, e, ideal) && s == Happen(m, e, ideal);
      LogKeeps(s0, before, m, ideal);
      EventConserves(m, e, ideal);
      EventCounts(m, e, ideal);
      assert Banded(s0.counts, s.counts, ideal) by {
        EventIsBanded(m, e, ideal);
        BandedTransitive(s0.counts, m.counts, s.counts, ideal);
      }
      assert Recorded(s0, s, ideal) by {
        EventIsRecorded(m, e, ideal);
        forall x, k | NamesHolder(m, x, k, ideal) ensures NamesHolder(s, x, k, ideal) {
          HolderStays(m, e, ideal, x, k);
        }
        RecordedTransitive(s0, m, s, ideal);
      }
  }

  /** Where the loop of one turn stands: `skipped` targets before `targetIndex` were full from the start. */
  ghost predicate Scanned(c0: map<NodeId, int>, c: map<NodeId, int>, source: NodeId, targets: seq<NodeId>, ideal: int,
                          targetIndex: nat, skipped: nat)
    requires targetIndex <= |targets|
  {
    && AllFull(c, targets[..targetIndex], ideal)
    && skipped <= FullNodes(c0, targets[..targetIndex], ideal)
    && forall j :: targetIndex <= j < |targets| ==> Untouched(c0, c, source, targets[j], ideal, j == targetIndex)
  }

  ghost predicate Untouched(c0: map<NodeId, int>, c: map<NodeId, int>, source: NodeId, u: NodeId, ideal: int,
                            current: bool)
  {
    u in c && u in c0 && u != source ==> c[u] == c0[u] || (current && c[u] < ideal)
  }

  lemma AllFullExtends(c: map<NodeId, int>, targets: seq<NodeId>, ideal: int, n: nat)
    requires n < |targets| && AllFull(c, targets[..n], ideal) && IsFull(c, targets[n], ideal)
    ensures AllFull(c, targets[..n + 1], ideal)
  {
    assert targets[..n + 1] == targets[..n] + [targets[n]];
  }

  lemma ScannedSkips(c0: map<NodeId, int>, c: map<NodeId, int>, source: NodeId, targets: seq<NodeId>, ideal: int,
                     targetIndex: nat, skipped: nat)
    requires targetIndex < |targets| && Scanned(c0, c, source, targets, ideal, targetIndex, skipped)
    requires c.Keys == c0.Keys && IsFull(c, targets[targetIndex], ideal)
    requires source in c0 && c0[source] >= ideal
    ensures Scanned(c0, c, source, targets, ideal, targetIndex + 1, skipped + 1)
  {
    var visited := targets[..targetIndex + 1];
    assert visited[..targetIndex] == targets[..targetIndex];
    assert Untouched(c0, c, source, targets[targetIndex], ideal, true);
    assert IsFull(c0, targets[targetIndex], ideal);
    AllFullExtends(c, targets, ideal, targetIndex);
    forall j | targetIndex + 1 <= j < |targets|
      ensures Untouched(c0, c, source, targets[j], ideal, j == targetIndex + 1)
    {
      assert Untouched(c0, c, source, targets[j], ideal, j == targetIndex);
    }
  }

  lemma ScannedMoves(c0: map<NodeId, int>, c: map<NodeId, int>, source: NodeId, targets: seq<NodeId>, ideal: int,
                     targetIndex: nat, skipped: nat)
    requires targetIndex < |targets| && Scanned(c0, c, source, targets, ideal, targetIndex, skipped)
    requires NoDuplicates(targets)
    requires var u := targets[targetIndex]; u in c && source in c && c[u] < ideal < c[source]
    ensures var u := targets[targetIndex];
            var c' := c[source := c[source] - 1][u := c[u] + 1];
            Scanned(c0, c', source, targets, ideal, if c'[u] >= ideal then targetIndex + 1 else targetIndex, skipped)
  {
    var u := targets[targetIndex];
    var c' := c[source := c[source] - 1][u := c[u] + 1];
    forall j | 0 <= j < targetIndex ensures IsFull(c', targets[..targetIndex][j], ideal) {
      assert IsFull(c, targets[..targetIndex][j], ideal);
    }
    forall j | targetIndex < j < |targets|
      ensures forall current :: Untouched(c0, c', source, targets[j], ideal, current)
    {
      assert Untouched(c0, c, source, targets[j], ideal, j == targetIndex);
    }
    if c'[u] >= ideal {
      AllFullExtends(c', targets, ideal, targetIndex);
      var visited := targets[..targetIndex + 1];
      assert visited[..targetIndex] == targets[..targetIndex];
      FullNodesPrefix(c0, visited, ideal, targetIndex);
    }
  }

  /** The inner loop's variables; `skipped` and `failed` count its passes by outcome. */
  datatype Loop = Loop(i: nat, targetIndex: nat, moved: nat, skipped: nat, failed: nat)

  /** Where one turn stands that began in `s0`. */
  ghost predicate Turning(s0: State, s: State, source: NodeId, targets: seq<NodeId>, ideal: int, l: Loop) {
    && source in s0.counts && source in s.counts && source in s0.queues && source in s.queues
    && s.counts.Keys == s0.counts.Keys && s.queues.Keys == s0.queues.Keys
    && s.counts[source] == s0.counts[source] - l.moved
    && l.i == l.moved + l.skipped + l.failed
    && l.targetIndex <= |targets|
    && s.pushFailures == s0.pushFailures + l.failed
    && |s0.queues[source]| <= |s.queues[source]| + l.moved + l.failed
  }

  /** A turn leaves alone whatever is neither its source nor a target below the ideal. */
  ghost predicate OthersAlone(s: State, s': State, source: NodeId, targets: seq<NodeId>, ideal: int) {
    forall k :: k in s.counts && k in s'.counts && k in s.queues && k in s'.queues && k != source
                && (k !in targets || s.counts[k] >= ideal)
      ==> s'.counts[k] == s.counts[k] && s'.queues[k] == s.queues[k]
  }

  /** The loop's variables after a popped task went where `e` says. */
  function Passed(l: Loop, e: Event, full: bool): Loop {
    if e.Move? then Loop(l.i + 1, if full then l.targetIndex + 1 else l.targetIndex, l.moved + 1, l.skipped, l.failed)
    else Loop(l.i + 1, l.targetIndex, l.moved, l.skipped, l.failed + 1)
  }

  lemma PassKeepsTurning(s0: State, s: State, source: NodeId, targets: seq<NodeId>, ideal: int, l: Loop, e: Event)
    requires Turning(s0, s, source, targets, ideal, l) && l.targetIndex < |targets|
    requires Enabled(s, e, ideal) && e.source == source && (e.Move? ==> e.target == targets[l.targetIndex])
    ensures var s' := Happen(s, e, ideal);
            Turning(s0, s', source, targets, ideal, Passed(l, e, e.Move? && s'.counts[e.target] >= ideal))
  {
  }

  lemma PassLeavesOthers(s0: State, s: State, source: NodeId, targets: seq<NodeId>, ideal: int, e: Event)
    requires OthersAlone(s0, s, source, targets, ideal)
    requires s.counts.Keys == s0.counts.Keys && s.queues.Keys == s0.queues.Keys
    requires Enabled(s, e, ideal) && e.source == source && (e.Move? ==> e.target in targets)
    ensures OthersAlone(s0, Happen(s, e, ideal), source, targets, ideal)
  {
  }

  lemma PassKeepsScanned(c0: map<NodeId, int>, s: State, source: NodeId, targets: seq<NodeId>, ideal: int, l: Loop,
                         e: Event)
    requires Enabled(s, e, ideal) && e.source == source && l.targetIndex < |targets|
    requires NoDuplicates(targets) && (e.Move? ==> e.target == targets[l.targetIndex])
    requires Scanned(c0, s.counts, source, targets, ideal, l.targetIndex, l.skipped)
    ensures var s' := Happen(s, e, ideal);
            var l' := Passed(l, e, e.Move? && s'.counts[e.target] >= ideal);
            Scanned(c0, s'.counts, source, targets, ideal, l'.targetIndex, l'.skipped)
  {
    if e.Move? {
      ScannedMoves(c0, s.counts, source, targets, ideal, l.targetIndex, l.skipped);
    }
  }

  lemma LeadsOn(s0: State, log: Log, s: State, e: Event, ideal: int)
    requires Leads(s0, log, s, ideal) && Enabled(s, e, ideal)
    ensures Leads(s0, Then(log, e), Happen(s, e, ideal), ideal)
  {
  }

  /** The inner loop's invariant: the turn began in `t0`, the migration in `s0`. */
  ghost predicate TurnInv(s0: State, log: Log, t0: State, s: State, source: NodeId, targets: seq<NodeId>, ideal: int,
                          l: Loop)
  {
    && Valid(s)
    && Leads(s0, log, s, ideal)
    && Turning(t0, s, source, targets, ideal, l)
    && OthersAlone(t0, s, source, targets, ideal)
    && (NoDuplicates(targets) ==> Scanned(t0.counts, s.counts, source, targets, ideal, l.targetIndex, l.skipped))
  }

  lemma SkipKeepsTurnInv(s0: State, log: Log, t0: State, s: State, source: NodeId, targets: seq<NodeId>, ideal: int,
                         l: Loop)
    requires TurnInv(s0, log, t0, s, source, targets, ideal, l)
    requires ideal <= t0.counts[source] && l.targetIndex < |targets| && IsFull(s.counts, targets[l.targetIndex], ideal)
    ensures TurnInv(s0, log, t0, s, source, targets, ideal,
                    l.(i := l.i + 1, targetIndex := l.targetIndex + 1, skipped := l.skipped + 1))
  {
    if NoDuplicates(targets) {
      ScannedSkips(t0.counts, s.counts, source, targets, ideal, l.targetIndex, l.skipped);
    }
  }

  lemma PassKeepsTurnInv(s0: State, log: Log, t0: State, s: State, s': State, source: NodeId, targets: seq<NodeId>,
                         ideal: int, l: Loop, e: Event)
    requires TurnInv(s0, log, t0, s, source, targets, ideal, l) && l.targetIndex < |targets|
    requires Enabled(s, e, ideal) && e.source == source && (e.Move? ==> e.target == targets[l.targetIndex])
    requires s' == Happen(s, e, ideal)
    ensures TurnInv(s0, Then(log, e), t0, s', source, targets, ideal,
                    Passed(l, e, e.Move? && s'.counts[e.target] >= ideal))
  {
    PassKeepsTurning(t0, s, source, targets, ideal, l, e);
    PassLeavesOthers(t0, s, source, targets, ideal, e);
    LeadsOn(s0, log, s, e, ideal);
    if NoDuplicates(targets) {
      PassKeepsScanned(t0.counts, s, source, targets, ideal, l, e);
    }
  }

  // ---------------------------------------------------------------------------------------------
  // The outer loop
  // ---------------------------------------------------------------------------------------------

  ghost predicate LongEnough(s: State, sources: seq<NodeId>, ideal: int) {
    forall j :: 0 <= j < |sources| && sources[j] in s.counts && sources[j] in s.queues
      ==> |s.queues[sources[j]]| >= s.counts[sources[j]] - ideal
  }

  /** Whether the turn of `k` is over, it started above the ideal, and it stopped this close to it. */
  ghost predicate Drained(s0: State, s: State, k: NodeId, targets: seq<NodeId>, ideal: int) {
    k in s0.counts && s0.counts[k] > ideal && k in s.counts ==>
      ideal <= s.counts[k] <= ideal + |targets| - 1 + s.pushFailures - s0.pushFailures
  }

  /** A source whose turn is to come is as it was. */
  ghost predicate Waiting(s0: State, s: State, k: NodeId, ideal: int) {
    k in s0.counts && s0.counts[k] > ideal && k in s0.queues ==>
      k in s.counts && s.counts[k] == s0.counts[k] && k in s.queues && s.queues[k] == s0.queues[k]
  }

  ghost predicate Progress(s0: State, s: State, sources: seq<NodeId>, targets: seq<NodeId>, ideal: int, n: nat)
    requires n <= |sources|
  {
    && (forall j :: n <= j < |sources| ==> Waiting(s0, s, sources[j], ideal))
    && (AllFull(s.counts, targets, ideal) || forall j :: 0 <= j < n ==> Drained(s0, s, sources[j], targets, ideal))
  }

  ghost predicate Outside(s: State, s': State, sources: seq<NodeId>, targets: seq<NodeId>) {
    forall k :: k in s.counts && k in s'.counts && k in s.queues && k in s'.queues && k !in sources && k !in targets
      ==> s'.counts[k] == s.counts[k] && s'.queues[k] == s.queues[k]
  }

  /** What MigrateFrom promises about one turn. */
  ghost predicate Turned(t: State, t': State, source: NodeId, targets: seq<NodeId>, ideal: int) {
    && t'.counts.Keys == t.counts.Keys && t'.queues.Keys == t.queues.Keys
    && t'.pushFailures >= t.pushFailures
    && OthersAlone(t, t', source, targets, ideal)
    && (source in t.counts ==> t'.counts[source] >= ideal || t'.counts[source] == t.counts[source])
  }

  /** The budget went to moves, to failed pushes, and to targets that were full from the start. */
  ghost predicate BudgetSpent(t: State, t': State, source: NodeId, targets: seq<NodeId>, ideal: int) {
    source in t.counts && source in t'.counts && source in t.queues
    && |t.queues[source]| >= t.counts[source] - ideal > 0
    ==> || AllFull(t'.counts, targets, ideal)
        || t'.counts[source] <= ideal + FullNodes(t.counts, targets, ideal) + t'.pushFailures - t.pushFailures
  }

  lemma FullStaysFull(t: State, t': State, source: NodeId, targets: seq<NodeId>, ideal: int)
    requires Valid(t) && Turned(t, t', source, targets, ideal) && AllFull(t.counts, targets, ideal)
    ensures AllFull(t'.counts, targets, ideal)
  {
    forall j | 0 <= j < |targets| ensures IsFull(t'.counts, targets[j], ideal) {
      assert IsFull(t.counts, targets[j], ideal);
    }
  }

  lemma TurnKeepsProgress(s0: State, t: State, t': State, sources: seq<NodeId>, targets: seq<NodeId>, ideal: int,
                          n: nat)
    requires Valid(s0) && Valid(t) && t.counts.Keys == s0.counts.Keys && t.pushFailures >= s0.pushFailures
    requires n < |sources| && NoDuplicates(sources) && LongEnough(s0, sources, ideal)
    requires Progress(s0, t, sources, targets, ideal, n)
    requires Turned(t, t', sources[n], targets, ideal) && BudgetSpent(t, t', sources[n], targets, ideal)
    ensures Progress(s0, t', sources, targets, ideal, n + 1)
  {
    var source := sources[n];
    forall j | n + 1 <= j < |sources| ensures Waiting(s0, t', sources[j], ideal) {
      assert Waiting(s0, t, sources[j], ideal) && sources[n] != sources[j];
    }
    if AllFull(t.counts, targets, ideal) {
      FullStaysFull(t, t', source, targets, ideal);
    } else if !AllFull(t'.counts, targets, ideal) {
      FullNodesBound(t.counts, targets, ideal);
      assert Waiting(s0, t, source, ideal);
      forall j | 0 <= j < n + 1 ensures Drained(s0, t', sources[j], targets, ideal) {
        if j < n {
          assert Drained(s0, t, sources[j], targets, ideal) && sources[j] != sources[n];
        }
      }
    }
  }

  lemma TurnEnds(s0: State, log: Log, t0: State, t: State, source: NodeId, targets: seq<NodeId>, ideal: int, l: Loop)
    requires source in t0.counts && l.i <= t0.counts[source] - ideal
    requires TurnInv(s0, log, t0, t, source, targets, ideal, l)
    ensures Turned(t0, t, source, targets, ideal)
    ensures NoDuplicates(targets)
            && (l.i == t0.counts[source] - ideal || l.targetIndex == |targets| || t.queues[source] == [])
            ==> BudgetSpent(t0, t, source, targets, ideal)
  {
    FullNodesPrefix(t0.counts, targets, ideal, l.targetIndex);
    if l.targetIndex == |targets| {
      assert targets[..l.targetIndex] == targets;
    }
  }

  lemma ActiveSumKept(s: State, s': State, active: set<NodeId>, sources: seq<NodeId>, targets: seq<NodeId>)
    requires Valid(s) && active <= s.counts.Keys && s'.counts.Keys == s.counts.Keys && s'.queues.Keys == s.queues.Keys
    requires forall k :: k in sources || k in targets ==> k in active
    requires Outside(s, s', sources, targets) && Total(s'.counts) == Total(s.counts)
    ensures Sum(active, CountAt(s'.counts)) == Sum(active, CountAt(s.counts))
  {
    var all := s.counts.Keys;
    SumPart(all, active, CountAt(s.counts));
    SumPart(all, active, CountAt(s'.counts));
    SumSame(all - active, CountAt(s.counts), CountAt(s'.counts));
  }

  // ---------------------------------------------------------------------------------------------
  // Measuring the load; Go's random map order is an arbitrary choice of the next node
  // ---------------------------------------------------------------------------------------------

  method SumCounts(taskCounts: map<NodeId, int>) returns (total: int)
    ensures total == Total(taskCounts)
  {
    total := 0;
    var rest := taskCounts.Keys;
    while rest != {}
      invariant rest <= taskCounts.Keys
      invariant total + Sum(rest, CountAt(taskCounts)) == Total(taskCounts)
    {
      var k :| k in rest;
      SumSplit(rest, CountAt(taskCounts), k);
      total := total + taskCounts[k];
      rest := rest - {k};
    }
  }

  method Classify(taskCounts: map<NodeId, int>, ideal: int) returns (overloaded: seq<NodeId>, underloaded: seq<NodeId>)
    ensures NoDuplicates(overloaded) && NoDuplicates(underloaded)
    ensures forall k :: k in overloaded <==> k in taskCounts && taskCounts[k] > ideal + 10
    ensures forall k :: k in underloaded <==> k in taskCounts && taskCounts[k] < ideal - 10
  {
    overloaded, underloaded := [], [];
    var rest := taskCounts.Keys;
    while rest != {}
      invariant rest <= taskCounts.Keys
      invariant NoDuplicates(overloaded) && NoDuplicates(underloaded)
      invariant forall k :: k in overloaded <==> k in taskCounts && k !in rest && taskCounts[k] > ideal + 10
      invariant forall k :: k in underloaded <==> k in taskCounts && k !in rest && taskCounts[k] < ideal - 10
    {
      var k :| k in rest;
      if taskCounts[k] > ideal + 10 {
        overloaded := overloaded + [k];
      } else if taskCounts[k] < ideal - 10 {
        underloaded := underloaded + [k];
      }
      rest := rest - {k};
    }
  }

  /**
   The first half of rebalanceTasks: the ideal share of the active nodes, and who is more than 10 tasks away from it.
   */
  method Measure(active: set<NodeId>, counts: map<NodeId, int>)
    returns (ideal: int, overloaded: seq<NodeId>, underloaded: seq<NodeId>)
    requires active != {} && active <= counts.Keys
    ensures Mean(ideal, Sum(active, CountAt(counts)), |active|)
    ensures NoDuplicates(overloaded) && NoDuplicates(underloaded)
    ensures forall k :: k in overloaded <==> k in active && counts[k] > ideal + 10
    ensures forall k :: k in underloaded <==> k in active && counts[k] < ideal - 10
  {
    var taskCounts := map k | k in active :: counts[k];
    assert taskCounts.Keys == active;
    var total := SumCounts(taskCounts);
    SumSame(active, CountAt(taskCounts), CountAt(counts));
    ideal := TruncDiv(total, |active|);
    TruncDivIsMean(total, |active|);
    overloaded, underloaded := Classify(taskCounts, ideal);
  }

  // ---------------------------------------------------------------------------------------------
  // The cluster manager
  // ---------------------------------------------------------------------------------------------

  class ClusterManager {
    /** The known nodes that report metrics, with Metrics.TasksInQueue. */
    var tasksInQueue: map<NodeId, int>
    var active: set<NodeId>
    /** The Redis task lists, head first; a list that Redis does not have is the empty list. */
    var queues: map<NodeId, seq<TaskId>>
    /** The node_id of each Redis assignment record. */
    var assignment: map<TaskId, NodeId>

    /** Redis commands that failed, by kind, and tasks that were popped and could not be pushed anywhere. */
    ghost var popFailures: nat
    ghost var writeFailures: nat
    ghost var pushFailures: nat
    ghost var lost: multiset<TaskId>

    ghost function View(): State
      reads this
    {
      State(tasksInQueue, queues, assignment, pushFailures, lost)
    }

    constructor (tasksInQueue: map<NodeId, int>, active: set<NodeId>, queues: map<NodeId, seq<TaskId>>)
      ensures View() == State(tasksInQueue, queues, map[], 0, multiset{}) && this.active == active
      ensures popFailures == 0 && writeFailures == 0
    {
      this.tasksInQueue, this.active, this.queues, assignment := tasksInQueue, active, queues, map[];
      popFailures, writeFailures, pushFailures, lost := 0, 0, 0, multiset{};
    }

    method RPop(k: NodeId) returns (task: Option<TaskId>)
      requires k in queues
      modifies this`queues, this`popFailures
      ensures task == None ==>
                && View() == old(View())
                && popFailures == old(popFailures) + if old(queues[k]) == [] then 0 else 1
      ensures task.Some? ==>
                && popFailures == old(popFailures)
                && old(queues[k]) != []
                && View() == Popped(old(View()), k)
                && task.value == LastOf(old(View()), k)
    {
      var q := queues[k];
      var up: bool := *;
      if q == [] {
        return None;
      }
      if !up {
        popFailures := popFailures + 1;
        return None;
      }
      queues := queues[k := q[..|q| - 1]];
      return Some(q[|q| - 1]);
    }

    method LPush(k: NodeId, task: TaskId) returns (ok: bool)
      requires k in queues
      modifies this`queues, this`writeFailures
      ensures View() == if ok then Pushed(old(View()), k, task) else old(View())
      ensures writeFailures == old(writeFailures) + if ok then 0 else 1
    {
      ok := *;
      if ok {
        queues := queues[k := [task] + queues[k]];
      } else {
        writeFailures := writeFailures + 1;
      }
    }

    method SetAssignment(task: TaskId, target: NodeId) returns (ok: bool)
      modifies this`assignment, this`writeFailures
      ensures View() == Assigned(old(View()), task, target, ok)
      ensures writeFailures == old(writeFailures) + if ok then 0 else 1
    {
      ok := *;
      if ok {
        assignment := assignment[task := target];
      } else {
        writeFailures := writeFailures + 1;
      }
    }

    /** After a failed push. */
    method ReturnTask(source: NodeId, task: TaskId) returns (e: Event)
      requires source in queues
      modifies this`queues, this`writeFailures, this`pushFailures, this`lost
      ensures e == Return(source) || e == Lose(source)
      ensures e == Return(source) ==>
                && writeFailures == old(writeFailures)
                && View() == Pushed(old(View()), source, task).(pushFailures := old(pushFailures) + 1)
      ensures e == Lose(source) ==>
                && writeFailures == old(writeFailures) + 1
                && View() == old(View()).(pushFailures := old(pushFailures) + 1, lost := old(lost) + multiset{task})
    {
      pushFailures := pushFailures + 1;
      var returned := LPush(source, task);
      if returned {
        return Return(source);
      }
      lost := lost + multiset{task};
      return Lose(source);
    }

    /** After a successful push; a failure of SET is ignored. */
    method RecordMove(source: NodeId, target: NodeId, task: TaskId) returns (recorded: bool)
      requires source in tasksInQueue && target in tasksInQueue && source != target
      modifies this`tasksInQueue, this`assignment, this`writeFailures
      ensures View() == Counted(Assigned(old(View()), task, target, recorded), source, target)
      ensures writeFailures == old(writeFailures) + if recorded then 0 else 1
    {
      recorded := SetAssignment(task, target);
      tasksInQueue := tasksInQueue[source := tasksInQueue[source] - 1];
      tasksInQueue := tasksInQueue[target := tasksInQueue[target] + 1];
    }

    /** Pop, push, and push back on failure; None when there was nothing to pop. */
    method MoveTask(source: NodeId, target: NodeId, ideal: int) returns (event: Option<Event>)
      requires Valid(View()) && source in tasksInQueue && target in tasksInQueue
      requires tasksInQueue[target] < ideal < tasksInQueue[source]
      modifies this`tasksInQueue, this`queues, this`assignment, this`popFailures, this`writeFailures,
               this`pushFailures, this`lost
      ensures event == None ==>
                && View() == old(View()) && writeFailures == old(writeFailures)
                && popFailures == old(popFailures) + if old(queues[source]) == [] then 0 else 1
      ensures event.Some? ==>
                && popFailures == old(popFailures)
                && event.value.source == source && (event.value.Move? ==> event.value.target == target)
                && Enabled(old(View()), event.value, ideal)
                && View() == Happen(old(View()), event.value, ideal)
                && writeFailures == old(writeFailures) + FailedWrites(event.value)
    {
      var popped := RPop(source);
      if popped == None {
        return None;
      }
      var task := popped.value;
      var pushed := LPush(target, task);
      if !pushed {
        var e := ReturnTask(source, task);
        return Some(e);
      }
      var recorded := RecordMove(source, target, task);
      return Some(Move(source, target, recorded));
    }

    /**
     One pass of the inner loop, `l0` being its variables before; on `stop` nothing was popped.  The turn began in
     `t0`, the migration in `s0`.
     */
    method Pass(source: NodeId, underloaded: seq<NodeId>, targetIndex: nat, ideal: int,
                ghost s0: State, ghost log0: Log, ghost t0: State, ghost l0: Loop)
      returns (stop: bool, next: nat, ghost log: Log, ghost l: Loop)
      requires TurnInv(s0, log0, t0, View(), source, underloaded, ideal, l0)
      requires l0.targetIndex == targetIndex < |underloaded| && l0.i < t0.counts[source] - ideal
      modifies this`tasksInQueue, this`queues, this`assignment, this`popFailures, this`writeFailures,
               this`pushFailures, this`lost
      ensures TurnInv(s0, log, t0, View(), source, underloaded, ideal, l) && l.targetIndex == next
      ensures writeFailures - FailedIn(log) == old(writeFailures) - FailedIn(log0)
      ensures !stop ==> l.i == l0.i + 1 && popFailures == old(popFailures)
      ensures stop ==> l == l0 && popFailures == old(popFailures) + if queues[source] == [] then 0 else 1
    {
      log, l, next := log0, l0, targetIndex;
      var target := underloaded[targetIndex];
      ghost var t := View();
      if target !in tasksInQueue || ideal - tasksInQueue[target] <= 0 {
        SkipKeepsTurnInv(s0, log0, t0, t, source, underloaded, ideal, l0);
        next := targetIndex + 1;
        l := l0.(i := l0.i + 1, targetIndex := next, skipped := l0.skipped + 1);
        return false, next, log, l;
      }
      var event := MoveTask(source, target, ideal);
      if event == None {
        return true, next, log, l;
      }
      PassKeepsTurnInv(s0, log0, t0, t, View(), source, underloaded, ideal, l0, event.value);
      var full := event.value.Move? && tasksInQueue[target] >= ideal;
      log, l := Then(log0, event.value), Passed(l0, event.value, full);
      if full {
        next := targetIndex + 1;
      }
      return false, next, log, l;
    }

    /** One overloaded node's turn, `log0` being the log of the turns before it. */
    method MigrateFrom(source: NodeId, underloaded: seq<NodeId>, ideal: int, ghost s0: State, ghost log0: Log)
      returns (ghost log: Log)
      requires Valid(View()) && Leads(s0, log0, View(), ideal)
      modifies this`tasksInQueue, this`queues, this`assignment, this`popFailures, this`writeFailures,
               this`pushFailures, this`lost
      ensures Valid(View()) && Leads(s0, log, View(), ideal)
      ensures Turned(old(View()), View(), source, underloaded, ideal)
      ensures writeFailures - FailedIn(log) == old(writeFailures) - FailedIn(log0)
      ensures popFailures >= old(popFailures)
      ensures NoDuplicates(underloaded) && popFailures == old(popFailures)
              ==> BudgetSpent(old(View()), View(), source, underloaded, ideal)
    {
      log := log0;
      if source !in tasksInQueue {
        return;
      }
      var excess := tasksInQueue[source] - ideal;
      if excess <= 0 {
        return;
      }
      ghost var t0, l := View(), Loop(0, 0, 0, 0, 0);
      var targetIndex, i := 0, 0;
      var stop := false;
      while i < excess && targetIndex < |underloaded| && !stop
        invariant l.i == i <= excess && l.targetIndex == targetIndex <= |underloaded|
        invariant TurnInv(s0, log, t0, View(), source, underloaded, ideal, l)
        invariant writeFailures - FailedIn(log) == old(writeFailures) - FailedIn(log0)
        invariant if stop then popFailures == old(popFailures) + if queues[source] == [] then 0 else 1
                  else popFailures == old(popFailures)
        decreases excess - i, !stop
      {
        stop, targetIndex, log, l := Pass(source, underloaded, targetIndex, ideal, s0, log, t0, l);
        if !stop {
          i := i + 1;
        }
      }
      TurnEnds(s0, log, t0, View(), source, underloaded, ideal, l);
    }

    /** migrateTasksBetweenNodes. */
    method MigrateTasksBetweenNodes(overloaded: seq<NodeId>, underloaded: seq<NodeId>, ideal: int)
      returns (ghost log: Log)
      requires Valid(View())
      modifies this`tasksInQueue, this`queues, this`assignment, this`popFailures, this`writeFailures,
               this`pushFailures, this`lost
      ensures Leads(old(View()), log, View(), ideal)
      ensures Kept(old(View()), View(), ideal)
      ensures Imbalance(tasksInQueue, ideal) == old(Imbalance(tasksInQueue, ideal)) - 2 * Moves(log)
      ensures Outside(old(View()), View(), overloaded, underloaded)
      ensures writeFailures == old(writeFailures) + FailedIn(log)
      ensures popFailures >= old(popFailures)
      ensures NoDuplicates(overloaded) && NoDuplicates(underloaded)
              && popFailures == old(popFailures) && LongEnough(old(View()), overloaded, ideal)
              ==> Progress(old(View()), View(), overloaded, underloaded, ideal, |overloaded|)
    {
      ghost var s0 := View();
      log := Start;
      var n := 0;
      while n < |overloaded|
        invariant 0 <= n <= |overloaded|
        invariant Valid(View()) && tasksInQueue.Keys == s0.counts.Keys && pushFailures >= s0.pushFailures
        invariant Leads(s0, log, View(), ideal)
        invariant queues.Keys == s0.queues.Keys && Outside(s0, View(), overloaded, underloaded)
        invariant popFailures >= old(popFailures) && writeFailures == old(writeFailures) + FailedIn(log)
        invariant NoDuplicates(overloaded) && NoDuplicates(underloaded)
                  && popFailures == old(popFailures) && LongEnough(s0, overloaded, ideal)
                  ==> Progress(s0, View(), overloaded, underloaded, ideal, n)
      {
        ghost var t := View();
        log := MigrateFrom(overloaded[n], underloaded, ideal, s0, log);
        if NoDuplicates(overloaded) && NoDuplicates(underloaded)
           && popFailures == old(popFailures) && LongEnough(s0, overloaded, ideal) {
          TurnKeepsProgress(s0, t, View(), overloaded, underloaded, ideal, n);
        }
        n := n + 1;
      }
      LogKeeps(s0, log, View(), ideal);
    }

    /**
     rebalanceTasks.  The source reads Metrics of every active node unchecked, hence the first requires.
     */
    method RebalanceTasks() returns (ideal: int, overloaded: seq<NodeId>, underloaded: seq<NodeId>, ghost log: Log)
      requires active <= tasksInQueue.Keys && Valid(View())
      modifies this`tasksInQueue, this`queues, this`assignment, this`popFailures, this`writeFailures,
               this`pushFailures, this`lost
      ensures |active| < 2 ==> View() == old(View())
      ensures |active| >= 2 ==>
                && Mean(ideal, Sum(active, CountAt(old(tasksInQueue))), |active|)
                && NoDuplicates(overloaded) && NoDuplicates(underloaded)
                && (forall k :: k in overloaded <==> k in active && old(tasksInQueue)[k] > ideal + 10)
                && (forall k :: k in underloaded <==> k in active && old(tasksInQueue)[k] < ideal - 10)
                && Leads(old(View()), log, View(), ideal)
                && Kept(old(View()), View(), ideal)
                && Imbalance(tasksInQueue, ideal) == old(Imbalance(tasksInQueue, ideal)) - 2 * Moves(log)
                && Outside(old(View()), View(), overloaded, underloaded)
      ensures |active| >= 2 ==> writeFailures == old(writeFailures) + FailedIn(log)
      // the ideal the next call computes from the same active nodes is the same
      ensures |active| >= 2 ==> Sum(active, CountAt(tasksInQueue)) == Sum(active, CountAt(old(tasksInQueue)))
      ensures |active| >= 2 && popFailures == old(popFailures) && LongEnough(old(View()), overloaded, ideal)
              ==> Progress(old(View()), View(), overloaded, underloaded, ideal, |overloaded|)
    {
      ideal, overloaded, underloaded, log := 0, [], [], Start;
      if |active| < 2 {
        return;
      }
      ghost var s0 := View();
      ideal, overloaded, underloaded := Measure(active, tasksInQueue);
      if |overloaded| > 0 && |underloaded| > 0 {
        log := MigrateTasksBetweenNodes(overloaded, underloaded, ideal);
        ActiveSumKept(s0, View(), active, overloaded, underloaded);
      } else {
        LogKeeps(s0, Start, View(), ideal);
      }
    }
  }
}
