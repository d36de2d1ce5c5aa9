/**
 Concurrency limits: concurrency-queue.ts and concurrency-control.service.ts, both in
 packages/cli/src/concurrency. Production runs and evaluation runs have a queue each.

 `Gate` is one queue and whether the service is enabled. A caller that is
 let through holds a slot until it releases it; one that is not waits in the queue.
 */
module Concurrency {
  import opened Prelude

  type ExecutionId = string

  /** One call of `ActiveExecutions.add`, and the reservation object that call creates. */
  type Token = nat

  datatype Mode = Webhook | Trigger | Chat | Evaluation | Manual | Retry | Integrated | Internal | Cli | ErrorMode

  /** The modes that share the production queue. */
  predicate Production(mode: Mode) {
    mode.Webhook? || mode.Trigger? || mode.Chat?
  }

  datatype Waiter = Waiter(token: Token, id: ExecutionId)

  datatype Gate = Gate(enabled: bool, limit: Option<nat>, capacity: int, waiting: seq<Waiter>)

  function Open(limit: Option<nat>): Gate {
    Gate(limit.Some?, limit, limit.GetOr(0), [])
  }

  predicate Limits(g: Gate, mode: Mode) {
    g.enabled && g.limit.Some? && Production(mode)
  }

  /** `enqueue`, if there is a queue to enter: let through at once, or queued. */
  function Enter(g: Gate, w: Waiter): (Gate, bool) {
    if !g.enabled || g.limit.None? then (g, true)
    else if g.capacity - 1 < 0 then (g.(capacity := g.capacity - 1, waiting := g.waiting + [w]), false)
    else (g.(capacity := g.capacity - 1), true)
  }

  /** `dequeue`: hand the slot back, letting the first waiter through. */
  function Leave(g: Gate): (Gate, Option<Waiter>) {
    if !g.enabled || g.limit.None? then (g, None) else ResolveNext(g.(capacity := g.capacity + 1))
  }

  /** `throttle`, as the production queue sees it. */
  function Throttle(g: Gate, mode: Mode, w: Waiter): (Gate, bool) {
    if !Production(mode) then (g, true) else Enter(g, w)
  }

  /** `release`, as the production queue sees it. */
  function Release(g: Gate, mode: Mode): (Gate, Option<Waiter>) {
    if !Production(mode) then (g, None) else Leave(g)
  }

  function ResolveNext(g: Gate): (Gate, Option<Waiter>) {
    if g.waiting == [] then (g, None) else (g.(waiting := g.waiting[1..]), Some(g.waiting[0]))
  }

  /** The position of the first waiter for that execution; the length if there is none. */
  function IndexOf(waiting: seq<Waiter>, id: ExecutionId): (i: nat)
    ensures i <= |waiting|
    ensures i < |waiting| ==> waiting[i].id == id
    ensures forall k :: 0 <= k < i ==> waiting[k].id != id
  {
    if waiting == [] || waiting[0].id == id then 0 else 1 + IndexOf(waiting[1..], id)
  }

  /** Drop a waiter, whose own promise then never settles, and let the next one through. */
  function Drop(g: Gate, id: ExecutionId): (Gate, Option<Waiter>) {
    var i := IndexOf(g.waiting, id);
    if !g.enabled || g.limit.None? || i == |g.waiting| then (g, None)
    else ResolveNext(g.(capacity := g.capacity + 1, waiting := g.waiting[..i] + g.waiting[i + 1..]))
  }

  /** `remove`, as the production queue sees it. */
  function Remove(g: Gate, mode: Mode, id: ExecutionId): (Gate, Option<Waiter>) {
    if !Production(mode) then (g, None) else Drop(g, id)
  }

  function Disable(g: Gate): Gate {
    g.(enabled := false)
  }

  /** What resolving a capped evaluation queue does to the production queue. */
  function Enable(g: Gate): Gate {
    g.(enabled := true)
  }

  /** Drop waiters in turn; each removal lets the next one through. */
  function DropAll(g: Gate, ids: seq<ExecutionId>): (Gate, seq<Waiter>) {
    if ids == [] then (g, [])
    else
      var (g', through) := DropAll(g, ids[..|ids| - 1]);
      var (g'', w) := Drop(g', ids[|ids| - 1]);
      (g'', through + (if w.Some? then [w.value] else []))
  }

  /** The ids of the waiters, each once, in the order of the queue. */
  function QueuedIds(waiting: seq<Waiter>): seq<ExecutionId> {
    if waiting == [] then []
    else
      var front, id := QueuedIds(waiting[..|waiting| - 1]), waiting[|waiting| - 1].id;
      if id in front then front else front + [id]
  }

  lemma {:induction false} DropAllWhileDisabled(g: Gate, ids: seq<ExecutionId>)
    requires !g.enabled
    ensures DropAll(g, ids) == (g, [])
  {
    if ids != [] {
      var none: seq<Waiter> := [];
      DropAllWhileDisabled(g, ids[..|ids| - 1]);
      assert none + none == none;
    }
  }

  /**
   What a shutdown does to the queue: it disables the service before it empties the queue,
   which therefore stays as it is.
   */
  function CloseDown(g: Gate): (g': Gate)
    ensures g' == Disable(g)
  {
    DropAllWhileDisabled(Disable(g), QueuedIds(g.waiting));
    DropAll(Disable(g), QueuedIds(g.waiting)).0
  }

  // ----- How many are let through -----

  /** Slots in use beyond the queue's own account of who waits. */
  function InUse(g: Gate): int
    requires g.limit.Some?
  {
    g.limit.value - g.capacity - |g.waiting|
  }

  /** The queue as `enqueue` and `dequeue` alone keep it: waiters exactly when it is full. */
  ghost predicate Balanced(g: Gate) {
    g.limit.Some? && InUse(g) <= g.limit.value && (g.waiting != [] ==> InUse(g) == g.limit.value)
  }

  lemma ThrottleKeepsBalance(g: Gate, mode: Mode, w: Waiter)
    requires Balanced(g)
    ensures Balanced(Throttle(g, mode, w).0)
    ensures Limits(g, mode) ==> (Throttle(g, mode, w).1 <==> InUse(g) < g.limit.value)
  {
  }

  lemma ReleaseKeepsBalance(g: Gate, mode: Mode)
    requires Balanced(g)
    ensures Balanced(Release(g, mode).0)
  {
  }

  /**
   Removing a waiter frees no slot, yet lets the next one through: it exceeds the limit
   exactly when anyone else is waiting.
   */
  lemma RemoveExceedsIff(g: Gate, mode: Mode, id: ExecutionId)
    requires Balanced(g) && Limits(g, mode) && IndexOf(g.waiting, id) < |g.waiting|
    ensures InUse(Remove(g, mode, id).0) > g.limit.value <==> |g.waiting| > 1
    ensures InUse(Remove(g, mode, id).0) == InUse(g) + (if |g.waiting| > 1 then 1 else 0)
  {
  }

  /** Held back exactly if the mode shares the limit and no capacity is left, and then behind everybody else. */
  lemma ThrottleOutcome(g: Gate, mode: Mode, w: Waiter)
    ensures var (g', through) := Throttle(g, mode, w);
            var limited := mode in {Webhook, Trigger, Chat} && g.enabled && g.limit.Some?;
            && (through <==> !(limited && g.capacity <= 0))
            && g' == Gate(g.enabled, g.limit, if limited then g.capacity - 1 else g.capacity,
                          if through then g.waiting else g.waiting + [w])
  {
  }

  /** A slot that comes back goes to whoever has waited longest. */
  lemma ReleaseOutcome(g: Gate, mode: Mode)
    ensures var (g', w) := Release(g, mode);
            var limited := mode in {Webhook, Trigger, Chat} && g.enabled && g.limit.Some?;
            && (w.Some? <==> limited && g.waiting != [])
            && (if w.Some? then [w.value] else []) + g'.waiting == g.waiting
            && g' == Gate(g.enabled, g.limit, if limited then g.capacity + 1 else g.capacity, g'.waiting)
  {
    assert g.waiting != [] ==> [g.waiting[0]] + g.waiting[1..] == g.waiting;
  }

  /**
   Removing takes the first waiter with that id out of the queue and lets the next one through:
   what it lets through, and then what is left, are the others in their order.
   */
  lemma DropOutcome(g: Gate, id: ExecutionId, i: nat)
    requires g.enabled && g.limit.Some? && i < |g.waiting| && g.waiting[i].id == id
    requires forall k :: 0 <= k < i ==> g.waiting[k].id != id
    ensures var (g', w) := Drop(g, id); var left := (if w.Some? then [w.value] else []) + g'.waiting;
            && (w.Some? <==> |g.waiting| > 1)
            && |left| == |g.waiting| - 1
            && (forall k :: 0 <= k < |left| ==> left[k] == g.waiting[if k < i then k else k + 1])
            && g' == Gate(true, g.limit, g.capacity + 1, g'.waiting)
  {
    var left := g.waiting[..i] + g.waiting[i + 1..];
    assert left != [] ==> [left[0]] + left[1..] == left;
  }

  lemma DropMisses(g: Gate, id: ExecutionId)
    requires !g.enabled || g.limit.None? || forall k :: 0 <= k < |g.waiting| ==> g.waiting[k].id != id
    ensures Drop(g, id) == (g, None)
  {
  }

  /** With a limit of one and two waiting, removing either of them lets the other one through. */
  lemma RemovalExceedsLimit(a: Waiter, b: Waiter, c: Waiter)
    ensures var g1 := Throttle(Open(Some(1)), Webhook, a).0;
            var g3 := Throttle(Throttle(g1, Webhook, b).0, Webhook, c).0;
            && Balanced(g3) && Limits(g3, Webhook) && g3.waiting == [b, c]
            && InUse(g3) == 1 && InUse(Remove(g3, Webhook, b.id).0) == 2
  {
    var g1 := Throttle(Open(Some(1)), Webhook, a).0;
    var g3 := Throttle(Throttle(g1, Webhook, b).0, Webhook, c).0;
    RemoveExceedsIff(g3, Webhook, b.id);
  }

  // ----- Emptying an enabled queue -----

  ghost predicate DistinctIds(waiting: seq<Waiter>) {
    forall i, j :: 0 <= i < j < |waiting| ==> waiting[i].id != waiting[j].id
  }

  lemma {:induction false} QueuedIdsInOrder(waiting: seq<Waiter>)
    requires DistinctIds(waiting)
    ensures |QueuedIds(waiting)| == |waiting|
    ensures forall k :: 0 <= k < |waiting| ==> QueuedIds(waiting)[k] == waiting[k].id
  {
    if waiting != [] { QueuedIdsInOrder(waiting[..|waiting| - 1]); }
  }

  /** How far the queue has moved after `n` removals: each second one finds its waiter gone. */
  function Moved(n: nat, length: nat): nat {
    if n + n % 2 <= length then n + n % 2 else length
  }

  /** The queue `g` after `n` removals, and who has been let through. */
  ghost predicate Thinned(g: Gate, n: nat, g': Gate, through: seq<Waiter>)
    requires n <= |g.waiting|
  {
    && g' == Gate(true, g.limit, g.capacity + (n + 1) / 2, g.waiting[Moved(n, |g.waiting|)..])
    && |through| == Moved(n, |g.waiting|) / 2
    && forall k :: 0 <= k < |through| ==> through[k] == g.waiting[2 * k + 1]
  }

  /** An even removal finds its waiter first in line, and lets the next one through. */
  lemma EvenRemovalThins(g: Gate, n: nat, g': Gate, through: seq<Waiter>)
    requires g.enabled && g.limit.Some? && n < |g.waiting| && n % 2 == 0 && Thinned(g, n, g', through)
    ensures var (g'', w) := Drop(g', g.waiting[n].id);
            Thinned(g, n + 1, g'', through + (if w.Some? then [w.value] else []))
  {
    hide Drop;
    assert g'.waiting == g.waiting[n..] && g'.waiting[0] == g.waiting[n];
    DropFirst(g', g.waiting[n].id);
    if |g'.waiting| > 1 {
      assert g'.waiting[1] == g.waiting[n + 1];
      assert g.waiting[n..][2..] == g.waiting[n + 2..];
    } else {
      assert g.waiting[n..][1..] == g.waiting[n + 1..];
    }
  }

  /** An odd one finds its waiter gone. */
  lemma OddRemovalThins(g: Gate, n: nat, g': Gate, through: seq<Waiter>)
    requires g.enabled && g.limit.Some? && DistinctIds(g.waiting) && n < |g.waiting| && n % 2 == 1
    requires Thinned(g, n, g', through)
    ensures var (g'', w) := Drop(g', g.waiting[n].id);
            Thinned(g, n + 1, g'', through + (if w.Some? then [w.value] else []))
  {
    hide Drop;
    assert g'.waiting == g.waiting[n + 1..];
    forall k | 0 <= k < |g'.waiting| ensures g'.waiting[k].id != g.waiting[n].id {
      assert g'.waiting[k] == g.waiting[n + 1 + k];
    }
    DropMisses(g', g.waiting[n].id);
    var none: seq<Waiter> := [];
    assert through + none == through;
  }

  lemma {:induction false} AfterRemovals(g: Gate, ids: seq<ExecutionId>, n: nat)
    requires g.enabled && g.limit.Some? && DistinctIds(g.waiting) && n <= |ids| == |g.waiting|
    requires forall k :: 0 <= k < |ids| ==> ids[k] == g.waiting[k].id
    ensures Thinned(g, n, DropAll(g, ids[..n]).0, DropAll(g, ids[..n]).1)
  {
    hide Drop;
    if n > 0 {
      AfterRemovals(g, ids, n - 1);
      assert ids[..n][..n - 1] == ids[..n - 1];
      if n % 2 == 0 {
        OddRemovalThins(g, n - 1, DropAll(g, ids[..n - 1]).0, DropAll(g, ids[..n - 1]).1);
      } else {
        EvenRemovalThins(g, n - 1, DropAll(g, ids[..n - 1]).0, DropAll(g, ids[..n - 1]).1);
      }
    }
  }

  lemma DropFirst(g: Gate, id: ExecutionId)
    requires g.enabled && g.limit.Some? && g.waiting != [] && g.waiting[0].id == id
    ensures Drop(g, id) == (Gate(true, g.limit, g.capacity + 1, g.waiting[if |g.waiting| > 1 then 2 else 1..]),
                            if |g.waiting| > 1 then Some(g.waiting[1]) else None)
  {
    assert g.waiting[..0] + g.waiting[1..] == g.waiting[1..];
  }

  /**
   Emptying an enabled queue, whose waiters have distinct ids, does not drop them all: every
   second one is let through.
   */
  lemma EmptyingLetsHalfThrough(g: Gate)
    requires g.enabled && g.limit.Some? && DistinctIds(g.waiting)
    ensures var (g', through) := DropAll(g, QueuedIds(g.waiting));
            && g'.waiting == [] && |through| == |g.waiting| / 2
            && forall k :: 0 <= k < |through| ==> through[k] == g.waiting[2 * k + 1]
  {
    QueuedIdsInOrder(g.waiting);
    var ids := QueuedIds(g.waiting);
    AfterRemovals(g, ids, |ids|);
    assert ids[..|ids|] == ids;
  }

  /** packages/cli/src/concurrency/concurrency-queue.ts */
  class ConcurrencyQueue {
    const limit: nat
    var capacity: int
    var queue: seq<Waiter>

    constructor (limit: nat)
      ensures this.limit == limit && capacity == limit && queue == []
    {
      this.limit, capacity, queue := limit, limit, [];
    }

    ghost function AsGate(enabled: bool): Gate
      reads this
    {
      Gate(enabled, Some(limit), capacity, queue)
    }

    method Enqueue(w: Waiter) returns (through: bool)
      modifies this
      ensures (AsGate(true), through) == Enter(old(AsGate(true)), w)
    {
      capacity := capacity - 1;
      if capacity < 0 {
        queue := queue + [w];
        return false;
      }
      return true;
    }

    method Dequeue() returns (next: Option<Waiter>)
      modifies this
      ensures (AsGate(true), next) == Leave(old(AsGate(true)))
    {
      capacity := capacity + 1;
      next := ShiftNext();
    }

    method RemoveWaiter(id: ExecutionId) returns (next: Option<Waiter>)
      modifies this
      ensures (AsGate(true), next) == Drop(old(AsGate(true)), id)
    {
      var index := FindIndex(id);
      next := None;
      if index < |queue| {
        queue := queue[..index] + queue[index + 1..];
        capacity := capacity + 1;
        next := ShiftNext();
      }
    }

    /** `getAll` and then `remove` of each. */
    method RemoveAllWaiters() returns (through: seq<Waiter>)
      modifies this
      ensures (AsGate(true), through) == DropAll(old(AsGate(true)), QueuedIds(old(queue)))
    {
      var ids := [];
      for i := 0 to |queue|
        invariant ids == QueuedIds(queue[..i])
      {
        assert queue[..i + 1][..i] == queue[..i];
        if queue[i].id !in ids { ids := ids + [queue[i].id]; }
      }
      assert queue[..|queue|] == queue;
      assert AsGate(true) == old(AsGate(true));
      through := RemoveEach(ids);
    }

    method RemoveEach(ids: seq<ExecutionId>) returns (through: seq<Waiter>)
      modifies this
      ensures (AsGate(true), through) == DropAll(old(AsGate(true)), ids)
    {
      hide Drop, AsGate;
      through := [];
      ghost var start := AsGate(true);
      for i := 0 to |ids|
        invariant (AsGate(true), through) == DropAll(start, ids[..i])
      {
        assert ids[..i + 1][..i] == ids[..i];
        var next := RemoveWaiter(ids[i]);
        through := through + if next.Some? then [next.value] else [];
      }
      assert ids[..|ids|] == ids;
    }

    method FindIndex(id: ExecutionId) returns (index: nat)
      ensures index == IndexOf(queue, id)
    {
      index := 0;
      while index < |queue| && queue[index].id != id
        invariant index <= |queue|
        invariant IndexOf(queue, id) == index + IndexOf(queue[index..], id)
      {
        assert queue[index..][1..] == queue[index + 1..];
        index := index + 1;
      }
    }

    method ShiftNext() returns (next: Option<Waiter>)
      modifies this`queue
      ensures (AsGate(true), next) == ResolveNext(old(AsGate(true)))
    {
      next := None;
      if |queue| > 0 {
        next := Some(queue[0]);
        queue := queue[1..];
      }
    }
  }

  /** packages/cli/src/concurrency/concurrency-control.service.ts */
  class ConcurrencyControl {
    const queueMode: bool
    const production: ConcurrencyQueue?
    var isEnabled: bool
    var evalQueueResolved: bool
    var evaluation: ConcurrencyQueue?

    /** Limits as configured, absent when unlimited; an evaluation limit not configured is resolved later. */
    constructor (queueMode: bool, limit: Option<nat>, evaluationLimit: Option<nat>)
      ensures Valid() && this.queueMode == queueMode
      ensures AsGate() == Open(if queueMode then None else limit)
                          .(enabled := !queueMode && (limit.Some? || evaluationLimit.Some?))
      ensures EvaluationGate() == Open(if queueMode then None else evaluationLimit).(enabled := AsGate().enabled)
      ensures evalQueueResolved <==> !queueMode && evaluationLimit.Some?
      ensures production != null ==> fresh(production)
      ensures evaluation != null ==> fresh(evaluation)
    {
      this.queueMode := queueMode;
      if !queueMode && limit.Some? {
        production := new ConcurrencyQueue(limit.value);
      } else {
        production := null;
      }
      if !queueMode && evaluationLimit.Some? {
        evaluation := new ConcurrencyQueue(evaluationLimit.value);
      } else {
        evaluation := null;
      }
      evalQueueResolved := !queueMode && evaluationLimit.Some?;
      isEnabled := !queueMode && (limit.Some? || evaluationLimit.Some?);
    }

    ghost predicate Valid()
      reads this`evaluation
    {
      production != null ==> evaluation != production
    }

    ghost function GateOf(queue: ConcurrencyQueue?): Gate
      reads this`isEnabled, queue
    {
      if queue == null then Gate(isEnabled, None, 0, []) else queue.AsGate(isEnabled)
    }

    ghost function AsGate(): Gate
      reads this`isEnabled, production
    {
      GateOf(production)
    }

    ghost function EvaluationGate(): Gate
      reads this`isEnabled, this`evaluation, evaluation
    {
      GateOf(evaluation)
    }

    /** The queue of a mode, if it has one. */
    function GetQueue(mode: Mode): ConcurrencyQueue?
      reads this`evaluation
    {
      if Production(mode) then production else if mode.Evaluation? then evaluation else null
    }

    /**
     The first evaluation run resolves the cap on evaluation runs. A cap enables the service,
     even one that has been disabled.
     */
    method EnsureEvalQueueResolved(cap: Option<nat>)
      requires Valid()
      modifies this`isEnabled, this`evalQueueResolved, this`evaluation
      ensures Valid() && evalQueueResolved
      ensures var capped := !old(evalQueueResolved) && !queueMode && cap.Some?;
              && AsGate() == (if capped then Enable(old(AsGate())) else old(AsGate()))
              && EvaluationGate() == (if capped then Open(cap) else old(EvaluationGate()))
    {
      if evalQueueResolved { return; }
      evalQueueResolved := true;
      if queueMode || cap.None? { return; }
      evaluation := new ConcurrencyQueue(cap.value);
      isEnabled := true;
    }

    /** `throttle`, once the evaluation queue is resolved. */
    method ThrottleOne(mode: Mode, w: Waiter) returns (through: bool)
      requires Valid()
      modifies GetQueue(mode)
      ensures mode.Evaluation? ==>
              AsGate() == old(AsGate()) && (EvaluationGate(), through) == Enter(old(EvaluationGate()), w)
      ensures !mode.Evaluation? ==>
                EvaluationGate() == old(EvaluationGate()) && (AsGate(), through) == Throttle(old(AsGate()), mode, w)
    {
      var queue := GetQueue(mode);
      if !isEnabled || queue == null { return true; }
      through := queue.Enqueue(w);
    }

    method ReleaseOne(mode: Mode) returns (next: Option<Waiter>)
      requires Valid()
      modifies GetQueue(mode)
      ensures mode.Evaluation? ==> AsGate() == old(AsGate()) && (EvaluationGate(), next) == Leave(old(EvaluationGate()))
      ensures !mode.Evaluation? ==>
                EvaluationGate() == old(EvaluationGate()) && (AsGate(), next) == Release(old(AsGate()), mode)
    {
      var queue := GetQueue(mode);
      if !isEnabled || queue == null { return None; }
      next := queue.Dequeue();
    }

    method RemoveOne(mode: Mode, id: ExecutionId) returns (next: Option<Waiter>)
      requires Valid()
      modifies GetQueue(mode)
      ensures mode.Evaluation? ==>
              AsGate() == old(AsGate()) && (EvaluationGate(), next) == Drop(old(EvaluationGate()), id)
      ensures !mode.Evaluation? ==>
                EvaluationGate() == old(EvaluationGate()) && (AsGate(), next) == Remove(old(AsGate()), mode, id)
    {
      var queue := GetQueue(mode);
      if !isEnabled || queue == null { return None; }
      next := queue.RemoveWaiter(id);
    }

    /**
     `removeAll`: empties both queues, and says whose rows are cancelled; nothing at all
     while the service is disabled.
     */
    method RemoveAll(toCancel: set<ExecutionId>) returns (through: seq<Waiter>, cancelled: set<ExecutionId>)
      requires Valid()
      modifies production, evaluation
      ensures cancelled == if isEnabled then toCancel else {}
      ensures var (gate, first) := DropAll(old(AsGate()), QueuedIds(old(AsGate()).waiting));
              var (evaluationGate, second) := DropAll(old(EvaluationGate()), QueuedIds(old(EvaluationGate()).waiting));
              AsGate() == gate && EvaluationGate() == evaluationGate && through == first + second
    {
      if !isEnabled {
        DropAllWhileDisabled(AsGate(), QueuedIds(AsGate().waiting));
        DropAllWhileDisabled(EvaluationGate(), QueuedIds(EvaluationGate().waiting));
        return [], {};
      }
      through := [];
      if production != null {
        through := production.RemoveAllWaiters();
      }
      if evaluation != null {
        var more := evaluation.RemoveAllWaiters();
        through := through + more;
      }
      cancelled := toCancel;
    }

    method DisableAll()
      modifies this`isEnabled
      ensures AsGate() == Disable(old(AsGate())) && EvaluationGate() == Disable(old(EvaluationGate()))
    {
      isEnabled := false;
    }
  }
}
