/** Task dispatch and the assignment tables of crawler/distributed/coordinator.go. */
module Coordinators {
  import opened Arithmetic
  import opened Durations
  import opened Wrappers

  type TaskId = string
  type NodeId = string

  datatype Status = Assigned | Retrying | Failed

  datatype Task = Task(id: TaskId, retryCount: int, maxRetries: int, startedAt: Option<int>, status: Status)

  /** An element of the pending queue: a task in JSON, or text that does not decode as a task, such as a bare id. */
  datatype Payload = Encoded(t: Task) | Text(s: string)

  datatype NodeInfo = NodeInfo(active: bool, updatedAt: int)

  /** The pending queue, head first; the two tables; and the failure records in Redis. */
  datatype State = State(
    queue: seq<Payload>,
    assignments: map<TaskId, NodeId>,
    pending: map<TaskId, Task>,
    failures: map<TaskId, string>)

  // ---------------------------------------------------------------------------------------------
  // Steps on the state
  // ---------------------------------------------------------------------------------------------

  /** How many payloads LRANGE 0 BatchSize-1 returns; a negative end index counts from the tail. */
  function BatchLength(batchSize: int, n: nat): nat {
    if batchSize >= 1 then if batchSize < n then batchSize else n
    else if n + batchSize > 0 then n + batchSize else 0
  }

  /** One popped payload, sent to `node`. */
  function Offer(s: State, payload: Payload, node: NodeId, ok: bool): State {
    match payload
    case Text(_) => s
    case Encoded(t) =>
      if ok then s.(assignments := s.assignments[t.id := node], pending := s.pending[t.id := t])
      else s.(queue := s.queue + [payload])
  }

  /** The node that the payload at position `i` of a batch is offered to. */
  function Receiver(active: seq<NodeId>, i: nat): NodeId
    requires |active| > 0
  {
    active[i % |active|]
  }

  /** Payload i goes to active node i modulo their number; `oks[i]` is whether that send succeeds. */
  function OfferAll(s: State, popped: seq<Payload>, active: seq<NodeId>, oks: seq<bool>): State
    requires |active| > 0 && |oks| == |popped|
  {
    if popped == [] then s
    else
      var n := |popped| - 1;
      Offer(OfferAll(s, popped[..n], active, oks[..n]), popped[n], Receiver(active, n), oks[n])
  }

  /** The tasks whose send failed, in order. */
  function Unsent(popped: seq<Payload>, oks: seq<bool>): seq<Payload>
    requires |oks| == |popped|
  {
    if popped == [] then []
    else
      var n := |popped| - 1;
      Unsent(popped[..n], oks[..n]) + if popped[n].Encoded? && !oks[n] then [popped[n]] else []
  }

  function Distribute(s: State, batchSize: int, active: seq<NodeId>, oks: seq<bool>): State
    requires |oks| == BatchLength(batchSize, |s.queue|)
  {
    if |active| == 0 then s
    else OfferAll(s.(queue := s.queue[|oks|..]), s.queue[..|oks|], active, oks)
  }

  function Completed(s: State, id: TaskId): State {
    s.(assignments := s.assignments - {id}, pending := s.pending - {id})
  }

  function FailOne(s: State, id: TaskId, reason: string): State {
    if id !in s.pending then s
    else
      var t := s.pending[id];
      if t.retryCount < t.maxRetries then
        s.(pending := s.pending[id := t.(retryCount := t.retryCount + 1, status := Retrying)],
           queue := s.queue + [Text(id)])
      else
        s.(pending := s.pending[id := t.(status := Failed)], failures := s.failures[id := reason])
  }

  function FailAll(s: State, ids: seq<TaskId>, reason: string): State {
    if ids == [] then s else FailOne(FailAll(s, ids[..|ids| - 1], reason), ids[|ids| - 1], reason)
  }

  function Texts(ids: seq<TaskId>): seq<Payload> {
    seq(|ids|, i requires 0 <= i < |ids| => Text(ids[i]))
  }

  /** The assigned tasks of dead nodes lose their assignment, and their bare ids are queued. */
  function Reassign(s: State, ids: seq<TaskId>): State {
    s.(assignments := s.assignments - (set id | id in ids), queue := s.queue + Texts(ids))
  }

  predicate Stranded(s: State, nodes: map<NodeId, NodeInfo>, now: int, id: TaskId) {
    && id in s.assignments && id in s.pending
    && s.assignments[id] in nodes && Dead(nodes[s.assignments[id]], now)
  }

  predicate Dead(n: NodeInfo, now: int) {
    !n.active && now - n.updatedAt > 60 * SECOND
  }

  predicate TimedOut(t: Task, now: int, timeout: int) {
    t.startedAt.Some? && now - t.startedAt.value > timeout
  }

  ghost predicate Lists(ids: seq<TaskId>, all: set<TaskId>) {
    Distinct(ids) && forall id :: id in ids <==> id in all
  }

  ghost predicate Distinct(ids: seq<TaskId>) {
    forall i, j :: 0 <= i < j < |ids| ==> ids[i] != ids[j]
  }

  // ---------------------------------------------------------------------------------------------
  // The Go type
  // ---------------------------------------------------------------------------------------------

  /** Every assignment has its task, and every task is filed under its own id. */
  ghost predicate Consistent(s: State) {
    && s.assignments.Keys <= s.pending.Keys
    && forall id :: id in s.pending ==> s.pending[id].id == id
  }

  lemma {:induction false} OfferAllKeepsConsistent(s: State, popped: seq<Payload>, active: seq<NodeId>, oks: seq<bool>)
    requires |active| > 0 && |oks| == |popped| && Consistent(s)
    ensures Consistent(OfferAll(s, popped, active, oks))
  {
    if popped != [] {
      OfferAllKeepsConsistent(s, popped[..|popped| - 1], active, oks[..|popped| - 1]);
    }
  }

  lemma {:induction false} FailAllKeepsConsistent(s: State, ids: seq<TaskId>, reason: string)
    requires Consistent(s)
    ensures Consistent(FailAll(s, ids, reason)) && FailAll(s, ids, reason).pending.Keys == s.pending.Keys
  {
    if ids != [] {
      FailAllKeepsConsistent(s, ids[..|ids| - 1], reason);
    }
  }

  /** The active nodes, in the order in which Go's map delivers them. */
  method ActiveNodes(nodes: map<NodeId, NodeInfo>) returns (active: seq<NodeId>)
    ensures Lists(active, set k | k in nodes && nodes[k].active)
  {
    active := [];
    var rest := nodes.Keys;
    while rest != {}
      invariant rest <= nodes.Keys
      invariant Distinct(active) && forall k :: k in active <==> k in nodes && nodes[k].active && k !in rest
    {
      var k :| k in rest;
      if nodes[k].active {
        active := active + [k];
      }
      rest := rest - {k};
    }
  }

  class Coordinator {
    var queue: seq<Payload>
    var taskAssignments: map<TaskId, NodeId>
    var pendingTasks: map<TaskId, Task>
    var failures: map<TaskId, string>
    /** How many sends to nodes failed. */
    ghost var sendFailures: nat
    const batchSize: int
    const taskTimeout: int

    constructor (batchSize: int, taskTimeout: int)
      ensures View() == State([], map[], map[], map[]) && sendFailures == 0
      ensures this.batchSize == batchSize && this.taskTimeout == taskTimeout
    {
      queue, taskAssignments, pendingTasks, failures, sendFailures := [], map[], map[], map[], 0;
      this.batchSize, this.taskTimeout := batchSize, taskTimeout;
    }

    function View(): State
      reads this
    {
      State(queue, taskAssignments, pendingTasks, failures)
    }

    method SendToNode(t: Task, node: NodeId) returns (ok: bool)
      modifies this`sendFailures
      ensures sendFailures == old(sendFailures) + if ok then 0 else 1
    {
      ok := *;
      if !ok {
        sendFailures := sendFailures + 1;
      }
    }

    /** The send and the recording of assignTaskToNode. */
    method AssignTaskToNode(t: Task, node: NodeId) returns (ok: bool)
      modifies this`taskAssignments, this`pendingTasks, this`sendFailures
      ensures sendFailures == old(sendFailures) + if ok then 0 else 1
      ensures taskAssignments == if ok then old(taskAssignments)[t.id := node] else old(taskAssignments)
      ensures pendingTasks == if ok then old(pendingTasks)[t.id := t] else old(pendingTasks)
    {
      ok := SendToNode(t, node);
      if ok {
        taskAssignments := taskAssignments[t.id := node];
        pendingTasks := pendingTasks[t.id := t];
      }
    }

    /** A payload that does not decode is dropped; one that cannot be sent goes back to the tail of the queue. */
    method OfferPayload(payload: Payload, node: NodeId) returns (ok: bool)
      modifies this`queue, this`taskAssignments, this`pendingTasks, this`sendFailures
      ensures View() == Offer(old(View()), payload, node, ok)
      ensures sendFailures == old(sendFailures) + if payload.Encoded? && !ok then 1 else 0
    {
      if payload.Text? {
        return false;
      }
      ok := AssignTaskToNode(payload.t, node);
      if !ok {
        queue := queue + [payload];
      }
    }

    /**
     `oks` is how the sends went; the entry of a payload that does not decode means nothing.  LRANGE 0 BatchSize-1
     selects the first BatchSize payloads, but with a nonpositive BatchSize all except the last -BatchSize.
     */
    method DistributeTaskBatch(nodes: map<NodeId, NodeInfo>) returns (active: seq<NodeId>, oks: seq<bool>)
      requires Consistent(View())
      modifies this`queue, this`taskAssignments, this`pendingTasks, this`sendFailures
      ensures Distinct(active) && forall k :: k in active <==> k in nodes && nodes[k].active
      ensures |oks| <= |old(queue)|
      ensures batchSize >= 1 ==> |oks| <= batchSize && (|oks| < batchSize ==> |oks| == |old(queue)|)
      ensures batchSize <= 0 ==> |oks| == 0 >= |old(queue)| + batchSize || |oks| == |old(queue)| + batchSize
      ensures |oks| == BatchLength(batchSize, |old(queue)|)
      ensures View() == Distribute(old(View()), batchSize, active, oks)
      ensures sendFailures == old(sendFailures) + if active == [] then 0 else |Unsent(old(queue)[..|oks|], oks)|
      ensures Consistent(View())
    {
      active := ActiveNodes(nodes);
      var n := BatchLength(batchSize, |queue|);
      if |active| == 0 {
        oks := seq(n, _ => false);
        return;
      }
      var taskDataList := queue[..n];
      queue := queue[n..];
      ghost var s0 := View();
      oks := [];
      var i := 0;
      while i < |taskDataList|
        invariant 0 <= i == |oks| <= |taskDataList|
        invariant View() == OfferAll(s0, taskDataList[..i], active, oks)
        invariant sendFailures == old(sendFailures) + |Unsent(taskDataList[..i], oks)|
      {
        var node := active[i % |active|];
        assert taskDataList[..i + 1][..i] == taskDataList[..i];
        var ok := OfferPayload(taskDataList[i], node);
        oks := oks + [ok];
        assert oks[..i] == oks[..|oks| - 1];
        i := i + 1;
      }
      assert taskDataList[..i] == taskDataList;
      OfferAllKeepsConsistent(s0, taskDataList, active, oks);
    }

    method HandleTaskFailure(id: TaskId, reason: string)
      modifies this`queue, this`pendingTasks, this`failures
      ensures View() == FailOne(old(View()), id, reason)
      ensures id !in old(pendingTasks) ==> View() == old(View())
      ensures id in old(pendingTasks) ==>
                var t := old(pendingTasks[id]);
                if t.retryCount < t.maxRetries then
                  && pendingTasks == old(pendingTasks)[id := t.(retryCount := t.retryCount + 1, status := Retrying)]
                  && queue == old(queue) + [Text(id)] && failures == old(failures)
                else
                  && pendingTasks == old(pendingTasks)[id := t.(status := Failed)]
                  && queue == old(queue) && failures == old(failures)[id := reason]
    {
      if id !in pendingTasks {
        return;
      }
      var t := pendingTasks[id];
      if t.retryCount < t.maxRetries {
        pendingTasks := pendingTasks[id := t.(retryCount := t.retryCount + 1, status := Retrying)];
        queue := queue + [Text(id)];
      } else {
        pendingTasks := pendingTasks[id := t.(status := Failed)];
        failures := failures[id := reason];
      }
    }

    /** A result with an error is dropped like any other: by then the failure path no longer finds the task. */
    method HandleTaskResult(id: TaskId, error: string)
      requires Consistent(View())
      modifies this`queue, this`taskAssignments, this`pendingTasks, this`failures
      ensures View() == Completed(old(View()), id) && Consistent(View())
      ensures pendingTasks == old(pendingTasks) - {id} && taskAssignments == old(taskAssignments) - {id}
      ensures queue == old(queue) && failures == old(failures)
    {
      pendingTasks := pendingTasks - {id};
      taskAssignments := taskAssignments - {id};
      if error != "" {
        HandleTaskFailure(id, error);
      }
    }

    /** `ids` is the order in which Go's map delivers the tasks that have timed out. */
    method CheckTaskTimeouts(now: int) returns (ghost ids: seq<TaskId>)
      requires Consistent(View())
      modifies this`queue, this`pendingTasks, this`failures
      ensures Distinct(ids)
      ensures forall id ::
                id in ids <==> && id in old(pendingTasks) && old(pendingTasks)[id].startedAt.Some?
                               && now - old(pendingTasks)[id].startedAt.value > taskTimeout
      ensures View() == FailAll(old(View()), ids, "timeout") && Consistent(View())
    {
      var tasks := pendingTasks;
      ids := [];
      var rest := tasks.Keys;
      while rest != {}
        invariant rest <= tasks.Keys
        invariant Distinct(ids)
        invariant forall id ::
                    id in ids <==> id in tasks && TimedOut(tasks[id], now, taskTimeout) && id !in rest
        invariant View() == FailAll(old(View()), ids, "timeout")
      {
        var id :| id in rest;
        if TimedOut(tasks[id], now, taskTimeout) {
          HandleTaskFailure(id, "timeout");
          ids := ids + [id];
        }
        rest := rest - {id};
      }
      FailAllKeepsConsistent(old(View()), ids, "timeout");
    }

    /** `ids` is the order in which Go's map delivers the stranded tasks. */
    method CheckAndReassignTasks(nodes: map<NodeId, NodeInfo>, now: int) returns (ghost ids: seq<TaskId>)
      requires Consistent(View())
      modifies this`queue, this`taskAssignments
      ensures Distinct(ids)
      ensures forall id ::
                id in ids <==>
                && id in old(taskAssignments) && id in old(pendingTasks)
                && var node := old(taskAssignments)[id];
                   node in nodes && !nodes[node].active && now - nodes[node].updatedAt > 60 * SECOND
      ensures View() == Reassign(old(View()), ids) && Consistent(View())
      ensures taskAssignments == old(taskAssignments) - (set id | id in ids)
      ensures old(queue) <= queue && |queue| == |old(queue)| + |ids|
      ensures forall i :: 0 <= i < |ids| ==> queue[|old(queue)| + i] == Text(ids[i])
    {
      var s := View();
      var tasksToReassign: seq<TaskId> := [];
      var rest := taskAssignments.Keys;
      while rest != {}
        invariant rest <= s.assignments.Keys
        invariant Distinct(tasksToReassign)
        invariant forall id :: id in tasksToReassign <==> Stranded(s, nodes, now, id) && id !in rest
        invariant taskAssignments == s.assignments - (set id | id in tasksToReassign)
        invariant queue == s.queue
      {
        var id :| id in rest;
        if Stranded(s, nodes, now, id) {
          tasksToReassign := tasksToReassign + [id];
          taskAssignments := taskAssignments - {id};
        }
        rest := rest - {id};
      }
      ids := tasksToReassign;
      var i := 0;
      while i < |tasksToReassign|
        invariant 0 <= i <= |tasksToReassign|
        invariant queue == s.queue + Texts(tasksToReassign[..i])
        invariant taskAssignments == s.assignments - (set id | id in tasksToReassign)
      {
        queue := queue + [Text(tasksToReassign[i])];
        i := i + 1;
      }
      assert tasksToReassign[..i] == tasksToReassign;
    }
  }

  // ---------------------------------------------------------------------------------------------
  // What a batch does
  // ---------------------------------------------------------------------------------------------

  predicate SentAt(popped: seq<Payload>, oks: seq<bool>, i: int)
    requires |oks| == |popped| && 0 <= i < |popped|
  {
    popped[i].Encoded? && oks[i]
  }

  /** The last sent payload of a task is at `i`. */
  ghost predicate LastSent(popped: seq<Payload>, oks: seq<bool>, i: int)
    requires |oks| == |popped| && 0 <= i < |popped|
  {
    && SentAt(popped, oks, i)
    && forall j :: i < j < |popped| && SentAt(popped, oks, j) ==> popped[j].t.id != popped[i].t.id
  }

  ghost predicate Sent(popped: seq<Payload>, oks: seq<bool>, id: TaskId)
    requires |oks| == |popped|
  {
    exists i :: 0 <= i < |popped| && SentAt(popped, oks, i) && popped[i].t.id == id
  }

  lemma {:induction false} OfferAllQueues(s: State, popped: seq<Payload>, active: seq<NodeId>, oks: seq<bool>)
    requires |active| > 0 && |oks| == |popped|
    ensures OfferAll(s, popped, active, oks).queue == s.queue + Unsent(popped, oks)
    ensures OfferAll(s, popped, active, oks).failures == s.failures
  {
    if popped != [] {
      OfferAllQueues(s, popped[..|popped| - 1], active, oks[..|popped| - 1]);
    }
  }

  ghost predicate Filed(s: State, t: Task, node: NodeId) {
    t.id in s.assignments && s.assignments[t.id] == node && t.id in s.pending && s.pending[t.id] == t
  }

  lemma {:induction false} OfferAllFiles(s: State, popped: seq<Payload>, active: seq<NodeId>, oks: seq<bool>, i: nat)
    requires |active| > 0 && |oks| == |popped|
    requires i < |popped| && LastSent(popped, oks, i)
    ensures Filed(OfferAll(s, popped, active, oks), popped[i].t, Receiver(active, i))
  {
    var n := |popped| - 1;
    if i < n {
      var before, oks' := popped[..n], oks[..n];
      forall j | i < j < n && SentAt(before, oks', j) ensures before[j].t.id != before[i].t.id {
        assert SentAt(popped, oks, j);
      }
      assert LastSent(before, oks', i);
      OfferAllFiles(s, before, active, oks', i);
    }
  }

  ghost predicate SameEntries(s: State, s': State, id: TaskId) {
    && (id in s'.assignments <==> id in s.assignments)
    && (id in s'.assignments && id in s.assignments ==> s'.assignments[id] == s.assignments[id])
    && (id in s'.pending <==> id in s.pending)
    && (id in s'.pending && id in s.pending ==> s'.pending[id] == s.pending[id])
  }

  lemma {:induction false} OfferAllLeaves(s: State, popped: seq<Payload>, active: seq<NodeId>, oks: seq<bool>,
                                          id: TaskId)
    requires |active| > 0 && |oks| == |popped| && !Sent(popped, oks, id)
    ensures SameEntries(s, OfferAll(s, popped, active, oks), id)
  {
    if popped != [] {
      var n := |popped| - 1;
      var before, oks' := popped[..n], oks[..n];
      forall i | 0 <= i < n && SentAt(before, oks', i) ensures before[i].t.id != id {
        assert SentAt(popped, oks, i);
      }
      OfferAllLeaves(s, before, active, oks', id);
      if popped[n].Encoded? && oks[n] {
        assert SentAt(popped, oks, n);
      }
    }
  }

  ghost predicate DistinctIds(popped: seq<Payload>) {
    forall i, j :: 0 <= i < j < |popped| && popped[i].Encoded? && popped[j].Encoded? ==>
                     popped[i].t.id != popped[j].t.id
  }

  /**
   Dispatch conserves tasks: the queue is the rest of the old one and the unsent payloads in order, every sent
   task is in both tables under the node its position selects, and no other task's entries move.
   */
  lemma DispatchConserves(s: State, batchSize: int, active: seq<NodeId>, oks: seq<bool>)
    requires |active| > 0 && |oks| == BatchLength(batchSize, |s.queue|)
    requires DistinctIds(s.queue[..|oks|])
    ensures var popped, s' := s.queue[..|oks|], Distribute(s, batchSize, active, oks);
            && s'.queue == s.queue[|oks|..] + Unsent(popped, oks)
            && (forall i :: 0 <= i < |oks| && SentAt(popped, oks, i) ==> Filed(s', popped[i].t, Receiver(active, i)))
            && (forall i :: 0 <= i < |oks| && popped[i].Encoded? && !oks[i] ==> popped[i] in s'.queue)
            && (forall id :: !Sent(popped, oks, id) ==> SameEntries(s, s', id))
  {
    var popped := s.queue[..|oks|];
    var rest := s.(queue := s.queue[|oks|..]);
    var s' := OfferAll(rest, popped, active, oks);
    OfferAllQueues(rest, popped, active, oks);
    forall i | 0 <= i < |oks| && SentAt(popped, oks, i) ensures Filed(s', popped[i].t, Receiver(active, i)) {
      OfferAllFiles(rest, popped, active, oks, i);
    }
    forall i | 0 <= i < |oks| && popped[i].Encoded? && !oks[i] ensures popped[i] in Unsent(popped, oks) {
      UnsentHolds(popped, oks, i);
    }
    forall id | !Sent(popped, oks, id) ensures SameEntries(s, s', id) {
      OfferAllLeaves(rest, popped, active, oks, id);
    }
  }

  lemma {:induction false} UnsentHolds(popped: seq<Payload>, oks: seq<bool>, i: nat)
    requires |oks| == |popped| && i < |popped| && popped[i].Encoded? && !oks[i]
    ensures popped[i] in Unsent(popped, oks)
  {
    var n := |popped| - 1;
    if i < n {
      UnsentHolds(popped[..n], oks[..n], i);
    }
  }

  /** How many payloads of a batch of `k` are offered to `node`. */
  function OffersTo(active: seq<NodeId>, k: nat, node: NodeId): nat
    requires |active| > 0
  {
    if k == 0 then 0 else OffersTo(active, k - 1, node) + if Receiver(active, k - 1) == node then 1 else 0
  }

  lemma {:induction false} OffersToNode(active: seq<NodeId>, k: nat, j: nat, q: nat, r: nat)
    requires Distinct(active) && j < |active| && r < |active| && k == q * |active| + r
    ensures OffersTo(active, k, active[j]) == q + if j < r then 1 else 0
    decreases k
  {
    var n := |active|;
    if k == 0 {
      DivModUnique(n, 0, q, r);
    } else if r > 0 {
      DivModUnique(n, k - 1, q, r - 1);
      OffersToNode(active, k - 1, j, q, r - 1);
    } else {
      assert k - 1 == (q - 1) * n + (n - 1);
      DivModUnique(n, k - 1, q - 1, n - 1);
      OffersToNode(active, k - 1, j, q - 1, n - 1);
    }
  }

  /** How many tasks of a batch the assignment table has under `node`. */
  function Load(s: State, popped: seq<Payload>, node: NodeId): nat {
    if popped == [] then 0
    else
      var n := |popped| - 1;
      var p := popped[n];
      Load(s, popped[..n], node)
      + if p.Encoded? && p.t.id in s.assignments && s.assignments[p.t.id] == node then 1 else 0
  }

  lemma {:induction false} LoadIsOffers(s: State, popped: seq<Payload>, active: seq<NodeId>, node: NodeId)
    requires |active| > 0
    requires forall i :: 0 <= i < |popped| ==> popped[i].Encoded? && Filed(s, popped[i].t, Receiver(active, i))
    ensures Load(s, popped, node) == OffersTo(active, |popped|, node)
  {
    if popped != [] {
      LoadIsOffers(s, popped[..|popped| - 1], active, node);
    }
  }

  /** Of `k` offers each of `n` nodes gets k/n, and the first k mod n of them one more. */
  function Share(k: nat, n: nat, j: nat): nat
    requires n > 0
  {
    k / n + if j < k % n then 1 else 0
  }

  /** Round robin is fair to the nodes. */
  lemma RoundRobinIsFair(active: seq<NodeId>, k: nat, j: nat)
    requires Distinct(active) && j < |active|
    ensures OffersTo(active, k, active[j]) == Share(k, |active|, j)
  {
    OffersToNode(active, k, j, k / |active|, k % |active|);
  }

  /** A batch of distinct tasks that are all sent loads the nodes in the assignment table just as fairly. */
  lemma DispatchIsFair(s: State, batchSize: int, active: seq<NodeId>, oks: seq<bool>, j: nat)
    requires Distinct(active) && j < |active| && |oks| == BatchLength(batchSize, |s.queue|)
    requires DistinctIds(s.queue[..|oks|])
    requires forall i :: 0 <= i < |oks| ==> SentAt(s.queue[..|oks|], oks, i)
    ensures Load(Distribute(s, batchSize, active, oks), s.queue[..|oks|], active[j]) == Share(|oks|, |active|, j)
  {
    var s' := Distribute(s, batchSize, active, oks);
    DispatchConserves(s, batchSize, active, oks);
    LoadIsOffers(s', s.queue[..|oks|], active, active[j]);
    RoundRobinIsFair(active, |oks|, j);
  }

  // ---------------------------------------------------------------------------------------------
  // Whole runs
  // ---------------------------------------------------------------------------------------------

  datatype Step =
    | Submit(payload: Payload)
    | Dispatch(batchSize: int, active: seq<NodeId>, oks: seq<bool>)
    | Result(id: TaskId)
    | Timeouts(ids: seq<TaskId>)
    | Reassigning(ids: seq<TaskId>)

  function Next(s: State, step: Step): State {
    match step
    case Submit(payload) => s.(queue := s.queue + [payload])
    case Dispatch(batchSize, active, oks) =>
      if |oks| == BatchLength(batchSize, |s.queue|) then Distribute(s, batchSize, active, oks) else s
    case Result(id) => Completed(s, id)
    case Timeouts(ids) => FailAll(s, ids, "timeout")
    case Reassigning(ids) => Reassign(s, ids)
  }

  function Run(s: State, steps: seq<Step>): State {
    if steps == [] then s else Next(Run(s, steps[..|steps| - 1]), steps[|steps| - 1])
  }

  lemma NextKeepsConsistent(s: State, step: Step)
    requires Consistent(s)
    ensures Consistent(Next(s, step))
  {
    match step
    case Dispatch(batchSize, active, oks) =>
      if |oks| == BatchLength(batchSize, |s.queue|) && |active| > 0 {
        OfferAllKeepsConsistent(s.(queue := s.queue[|oks|..]), s.queue[..|oks|], active, oks);
      }
    case Timeouts(ids) => FailAllKeepsConsistent(s, ids, "timeout");
    case _ =>
  }

  /** In every run every assigned task is pending. */
  lemma {:induction false} AssignedIsPending(steps: seq<Step>)
    ensures var s := Run(State([], map[], map[], map[]), steps);
            Consistent(s) && s.assignments.Keys <= s.pending.Keys
  {
    if steps != [] {
      AssignedIsPending(steps[..|steps| - 1]);
      NextKeepsConsistent(Run(State([], map[], map[], map[]), steps[..|steps| - 1]), steps[|steps| - 1]);
    }
  }

  /** No copy of the task itself is waiting, only its bare id perhaps. */
  ghost predicate Unqueued(s: State, id: TaskId) {
    forall p :: p in s.queue && p.Encoded? ==> p.t.id != id
  }

  lemma {:induction false} UnsentComesFrom(popped: seq<Payload>, oks: seq<bool>)
    requires |oks| == |popped|
    ensures forall p :: p in Unsent(popped, oks) ==> p in popped
  {
    if popped != [] {
      UnsentComesFrom(popped[..|popped| - 1], oks[..|popped| - 1]);
    }
  }

  lemma {:induction false} FailAllLeaves(s: State, ids: seq<TaskId>, id: TaskId)
    ensures var s' := FailAll(s, ids, "timeout");
            && s'.assignments == s.assignments && s'.pending.Keys == s.pending.Keys
            && (Unqueued(s, id) ==> Unqueued(s', id))
  {
    if ids != [] {
      FailAllLeaves(s, ids[..|ids| - 1], id);
    }
  }

  /** The assignment of `id` is neither made nor changed. */
  ghost predicate Unassigning(s: State, s': State, id: TaskId) {
    id in s'.assignments ==> id in s.assignments && s'.assignments[id] == s.assignments[id]
  }

  ghost predicate Submits(step: Step, id: TaskId) {
    step.Submit? && step.payload.Encoded? && step.payload.t.id == id
  }

  lemma DispatchKeepsUnqueued(s: State, batchSize: int, active: seq<NodeId>, oks: seq<bool>, id: TaskId)
    requires Unqueued(s, id) && |oks| == BatchLength(batchSize, |s.queue|) && |active| > 0
    ensures Unqueued(Distribute(s, batchSize, active, oks), id)
    ensures SameEntries(s, Distribute(s, batchSize, active, oks), id)
  {
    var popped := s.queue[..|oks|];
    var rest := s.(queue := s.queue[|oks|..]);
    OfferAllQueues(rest, popped, active, oks);
    UnsentComesFrom(popped, oks);
    forall i | 0 <= i < |popped| && SentAt(popped, oks, i) ensures popped[i].t.id != id {
      assert popped[i] in s.queue;
    }
    OfferAllLeaves(rest, popped, active, oks, id);
  }

  lemma NextKeepsUnqueued(s: State, step: Step, id: TaskId)
    requires Unqueued(s, id) && !Submits(step, id)
    ensures Unqueued(Next(s, step), id) && Unassigning(s, Next(s, step), id)
    ensures id in s.pending && step != Result(id) ==> id in Next(s, step).pending
  {
    match step
    case Dispatch(batchSize, active, oks) =>
      if |oks| == BatchLength(batchSize, |s.queue|) && |active| > 0 {
        DispatchKeepsUnqueued(s, batchSize, active, oks, id);
      }
    case Timeouts(ids) => FailAllLeaves(s, ids, id);
    case Reassigning(ids) =>
    case _ =>
  }

  /**
   Requeueing by bare id does not bring a task back: once no copy of a task but its id is queued, as after it was
   dispatched and then timed out or its node died, no run assigns it again, to this node or another, unless the task
   itself is submitted anew; it stays pending until a result for it arrives.
   */
  lemma {:induction false} BareIdIsNeverDispatched(s: State, steps: seq<Step>, id: TaskId)
    requires Unqueued(s, id) && forall i :: 0 <= i < |steps| ==> !Submits(steps[i], id)
    ensures Unqueued(Run(s, steps), id) && Unassigning(s, Run(s, steps), id)
    ensures id in s.pending && Result(id) !in steps ==> id in Run(s, steps).pending
  {
    if steps != [] {
      var n := |steps| - 1;
      BareIdIsNeverDispatched(s, steps[..n], id);
      NextKeepsUnqueued(Run(s, steps[..n]), steps[n], id);
    }
  }

  // ---------------------------------------------------------------------------------------------
  // The retry budget
  // ---------------------------------------------------------------------------------------------

  function Retries(t: Task): nat {
    if t.retryCount < t.maxRetries then t.maxRetries - t.retryCount else 0
  }

  /** How many of the first `k` failures are retried. */
  function Requeued(t: Task, k: nat): nat {
    if k < Retries(t) then k else Retries(t)
  }

  /** A pending task after `k` failures. */
  function Worn(t: Task, k: nat): Task {
    t.(retryCount := t.retryCount + Requeued(t, k),
       status := if k == 0 then t.status else if k <= Retries(t) then Retrying else Failed)
  }

  /** After `k` failures of `id`, which was pending as `t` in `s0`. */
  ghost predicate WornIn(s0: State, s: State, id: TaskId, t: Task, k: nat) {
    && id in s.pending && s.pending[id] == Worn(t, k)
    && (id in s.failures <==> id in s0.failures || k > Retries(t))
  }

  function Copies(s: State, id: TaskId): nat {
    multiset(s.queue)[Text(id)]
  }

  lemma FailOneWears(s0: State, s: State, id: TaskId, t: Task, k: nat, failing: TaskId)
    requires WornIn(s0, s, id, t, k)
    ensures var s', k' := FailOne(s, failing, "timeout"), if failing == id then k + 1 else k;
            WornIn(s0, s', id, t, k') && Copies(s', id) == Copies(s, id) + Requeued(t, k') - Requeued(t, k)
  {
  }

  /** How often `id` fails in a step. */
  function Failures(step: Step, id: TaskId): nat {
    if step.Timeouts? then multiset(step.ids)[id] else 0
  }

  lemma {:induction false} FailAllWears(s0: State, s: State, id: TaskId, t: Task, k: nat, ids: seq<TaskId>)
    requires WornIn(s0, s, id, t, k)
    ensures var s', k' := FailAll(s, ids, "timeout"), k + multiset(ids)[id];
            WornIn(s0, s', id, t, k') && Copies(s', id) == Copies(s, id) + Requeued(t, k') - Requeued(t, k)
  {
    if ids != [] {
      var n := |ids| - 1;
      assert ids == ids[..n] + [ids[n]];
      FailAllWears(s0, s, id, t, k, ids[..n]);
      FailOneWears(s0, FailAll(s, ids[..n], "timeout"), id, t, k + multiset(ids[..n])[id], ids[n]);
    }
  }

  /** How many bare ids a step pops, less those that it queues otherwise than for a failure. */
  function Elsewhere(s: State, step: Step, id: TaskId): int {
    match step
    case Submit(payload) => if payload == Text(id) then -1 else 0
    case Dispatch(batchSize, active, oks) =>
      if |oks| == BatchLength(batchSize, |s.queue|) && active != [] then multiset(s.queue[..|oks|])[Text(id)] else 0
    case Reassigning(ids) => -(multiset(ids)[id] as int)
    case _ => 0
  }

  function TotalFailures(steps: seq<Step>, id: TaskId): nat {
    if steps == [] then 0 else TotalFailures(steps[..|steps| - 1], id) + Failures(steps[|steps| - 1], id)
  }

  function TotalElsewhere(s: State, steps: seq<Step>, id: TaskId): int {
    if steps == [] then 0
    else
      var before := steps[..|steps| - 1];
      TotalElsewhere(s, before, id) + Elsewhere(Run(s, before), steps[|steps| - 1], id)
  }

  lemma {:induction false} UnsentHasNoText(popped: seq<Payload>, oks: seq<bool>, id: TaskId)
    requires |oks| == |popped|
    ensures multiset(Unsent(popped, oks))[Text(id)] == 0
  {
    if popped != [] {
      UnsentHasNoText(popped[..|popped| - 1], oks[..|popped| - 1], id);
    }
  }

  lemma DispatchPops(s: State, batchSize: int, active: seq<NodeId>, oks: seq<bool>, id: TaskId)
    requires |oks| == BatchLength(batchSize, |s.queue|) && |active| > 0
    ensures var s' := Distribute(s, batchSize, active, oks);
            && Copies(s', id) == Copies(s, id) - multiset(s.queue[..|oks|])[Text(id)]
            && s'.failures == s.failures
  {
    var popped, rest := s.queue[..|oks|], s.queue[|oks|..];
    OfferAllQueues(s.(queue := rest), popped, active, oks);
    UnsentHasNoText(popped, oks, id);
    assert s.queue == popped + rest;
  }

  lemma {:induction false} TextsCount(ids: seq<TaskId>, id: TaskId)
    ensures multiset(Texts(ids))[Text(id)] == multiset(ids)[id]
  {
    if ids != [] {
      var n := |ids| - 1;
      TextsCount(ids[..n], id);
      assert ids == ids[..n] + [ids[n]];
      assert Texts(ids) == Texts(ids[..n]) + [Text(ids[n])];
    }
  }

  lemma NextWears(s0: State, s: State, step: Step, id: TaskId, t: Task, k: nat)
    requires WornIn(s0, s, id, t, k) && Unqueued(s, id) && !Submits(step, id) && step != Result(id)
    ensures var s', k' := Next(s, step), k + Failures(step, id);
            && WornIn(s0, s', id, t, k')
            && Copies(s', id) == Copies(s, id) + Requeued(t, k') - Requeued(t, k) - Elsewhere(s, step, id)
  {
    match step
    case Submit(payload) =>
    case Dispatch(batchSize, active, oks) =>
      if |oks| == BatchLength(batchSize, |s.queue|) && |active| > 0 {
        DispatchKeepsUnqueued(s, batchSize, active, oks, id);
        DispatchPops(s, batchSize, active, oks, id);
      }
    case Result(_) =>
    case Timeouts(ids) => FailAllWears(s0, s, id, t, k, ids);
    case Reassigning(ids) => TextsCount(ids, id);
  }

  lemma {:induction false} BudgetRun(s: State, steps: seq<Step>, id: TaskId)
    requires id in s.pending && Unqueued(s, id)
    requires Result(id) !in steps && forall i :: 0 <= i < |steps| ==> !Submits(steps[i], id)
    ensures var t, s', k := s.pending[id], Run(s, steps), TotalFailures(steps, id);
            && WornIn(s, s', id, t, k)
            && Copies(s', id) == Copies(s, id) + Requeued(t, k) - TotalElsewhere(s, steps, id)
  {
    if steps != [] {
      var n := |steps| - 1;
      BudgetRun(s, steps[..n], id);
      BareIdIsNeverDispatched(s, steps[..n], id);
      NextWears(s, Run(s, steps[..n]), steps[n], id, s.pending[id], TotalFailures(steps[..n], id));
    }
  }

  /**
   The retry budget, over every run in which a pending task is neither submitted anew nor gets a result: `k` failures
   use up its retries one by one and queue its bare id each time, and only the first failure after that records it
   as failed.
   */
  lemma FailuresUseUpRetries(s: State, steps: seq<Step>, id: TaskId)
    requires id in s.pending && Unqueued(s, id)
    requires Result(id) !in steps && forall i :: 0 <= i < |steps| ==> !Submits(steps[i], id)
    ensures var t, s', k := s.pending[id], Run(s, steps), TotalFailures(steps, id);
            var r := if t.retryCount < t.maxRetries then t.maxRetries - t.retryCount else 0;
            && id in s'.pending
            && s'.pending[id] == t.(retryCount := t.retryCount + (if k < r then k else r),
                                    status := if k == 0 then t.status else if k <= r then Retrying else Failed)
            && (id in s'.failures <==> id in s.failures || k > r)
            && multiset(s'.queue)[Text(id)]
            == multiset(s.queue)[Text(id)] + (if k < r then k else r) - TotalElsewhere(s, steps, id)
  {
    BudgetRun(s, steps, id);
  }
}
