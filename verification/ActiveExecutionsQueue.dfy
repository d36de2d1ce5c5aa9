/**
 Who waits for capacity, who is let through, and in which order: the production queue of one
 process over any run, removals included.
 */
module ActiveExecutionsQueue {
  import opened Prelude
  import opened Concurrency
  import opened ActiveExecutions
  import opened ActiveExecutionsRuns

  // ----- Reserving -----

  /**
   An add is held back exactly if its mode is one of the three that share the limit, the
   service is enabled with a limit, and no room is left. It then waits behind everybody else.
   */
  lemma ReserveOutcome(s: State, t: Token)
    requires Inv(s) && t in s.attempts && s.attempts[t].phase.Opening?
    ensures var s' := Next(s, Reserve(t)); var a := s.attempts[t];
            var limited := a.mode in {Webhook, Trigger, Chat} && s.gate.enabled && s.gate.limit.Some?;
            var held := limited && s.gate.capacity <= 0;
            && s'.attempts == s.attempts[t := Attempt(a.id, a.mode, if held then Throttled else PastReserve)]
            && s'.acquired == (if held || a.mode == Evaluation then s.acquired else s.acquired[t := a.mode])
            && s'.gate.waiting == (if held then s.gate.waiting + [Waiter(t, a.id)] else s.gate.waiting)
            && s'.gate.capacity == s.gate.capacity - (if limited then 1 else 0)
            && (limited && !s.shutDown ==>
                  (held <==> |Slots(s.acquired)| + |s.gate.waiting| >= s.gate.limit.value))
  {
    hide Slots, Throttle, Queue, Tokens, ReleasedOnce, Accounted;
    ThrottleOutcome(s.gate, s.attempts[t].mode, Waiter(t, s.attempts[t].id));
  }

  // ----- Removing -----

  predicate InQueue(g: Gate, t: Token) {
    exists i :: 0 <= i < |g.waiting| && g.waiting[i].token == t
  }

  /** Waiting for a slot, in a queue that has forgotten it. */
  predicate Stuck(s: State, t: Token) {
    t in s.attempts && s.attempts[t].phase.Throttled? && !InQueue(s.gate, t)
  }

  lemma AdmitLeaves(s: State, w: Option<Waiter>, t: Token)
    ensures t in s.attempts && (w.None? || w.value.token != t) ==>
              t in Admit(s, w).attempts && Admit(s, w).attempts[t] == s.attempts[t]
    ensures Admit(s, w).gate == s.gate
    ensures w.Some? && w.value.token in s.attempts ==>
              && w.value.token in Admit(s, w).attempts && Admit(s, w).attempts[w.value.token].phase == PastReserve
              && w.value.token in Admit(s, w).acquired
  {
  }

  ghost predicate Distinct(waiting: seq<Waiter>) {
    forall i, j :: 0 <= i < j < |waiting| ==> waiting[i].token != waiting[j].token
  }

  /** Who is next once position `i` has been taken out. */
  function First(i: nat): nat {
    if i == 0 then 1 else 0
  }

  /** After a removal at position `i`: what is at each position of the queue, and who is let through. */
  lemma QueueAfterDrop(g: Gate, id: ExecutionId, i: nat)
    requires Distinct(g.waiting) && g.enabled && g.limit.Some? && i < |g.waiting| && g.waiting[i].id == id
    requires forall k :: 0 <= k < i ==> g.waiting[k].id != id
    ensures var (g', w) := Drop(g, id);
            && w == (if |g.waiting| > 1 then Some(g.waiting[First(i)]) else None)
            && |g'.waiting| == (if |g.waiting| > 1 then |g.waiting| - 2 else 0)
            && (forall k :: 0 <= k < |g'.waiting| ==> g'.waiting[k] == g.waiting[if k + 1 < i then k + 1 else k + 2])
            && !InQueue(g', g.waiting[i].token)
            && (w.Some? ==> !InQueue(g', w.value.token))
  {
    hide Drop;
    var (g', w) := Drop(g, id);
    DropOutcome(g, id, i);
    var left := (if w.Some? then [w.value] else []) + g'.waiting;
    assert w.Some? ==> w.value == left[0];
    forall k | 0 <= k < |g'.waiting| ensures g'.waiting[k] == g.waiting[if k + 1 < i then k + 1 else k + 2] {
      assert g'.waiting[k] == left[k + 1];
    }
  }

  lemma DistinctTokens(s: State)
    requires Inv(s)
    ensures Distinct(s.gate.waiting)
    ensures forall k :: 0 <= k < |s.gate.waiting| ==> Queued(s.attempts, s.gate.waiting[k])
  {
  }

  /** Everybody else in the queue, but for the one let through, is still in it. */
  lemma OthersStayQueued(g: Gate, id: ExecutionId, i: nat, k: nat)
    requires Distinct(g.waiting) && g.enabled && g.limit.Some? && i < |g.waiting| && g.waiting[i].id == id
    requires forall k :: 0 <= k < i ==> g.waiting[k].id != id
    requires k < |g.waiting| && k != i && k != First(i)
    ensures g.waiting[k] in Drop(g, id).0.waiting
  {
    hide Drop;
    QueueAfterDrop(g, id, i);
    var l := if k < i then k - 1 else k - 2;
    assert Drop(g, id).0.waiting[l] == g.waiting[k];
  }

  lemma RemoveStep(s: State, id: ExecutionId, mode: Mode)
    requires mode in {Webhook, Trigger, Chat}
    ensures Next(s, RemoveWaiter(id, mode)) == Admit(s.(gate := Drop(s.gate, id).0), Drop(s.gate, id).1)
  {
  }

  /**
   Removing an execution that is queued once, at position `i`, starts no add of it and leaves
   its own without a place in the queue. Of the others the first in line goes on, and
   everybody else stays in the queue.
   */
  lemma RemovalDropsOnly(s: State, id: ExecutionId, mode: Mode, i: nat)
    requires Inv(s) && s.gate.enabled && s.gate.limit.Some? && mode in {Webhook, Trigger, Chat}
    requires i < |s.gate.waiting| && s.gate.waiting[i].id == id
    requires forall k :: 0 <= k < |s.gate.waiting| && k != i ==> s.gate.waiting[k].id != id
    ensures var s', waiting := Next(s, RemoveWaiter(id, mode)), s.gate.waiting;
            && (forall t :: t in s.attempts && s.attempts[t].id == id ==>
                  t in s'.attempts && s'.attempts[t] == s.attempts[t])
            && Stuck(s', waiting[i].token)
            && (forall k :: 0 <= k < |waiting| && k != i ==>
                  if k == First(i)
                  then waiting[k].token in s'.attempts && s'.attempts[waiting[k].token].phase == PastReserve
                       && waiting[k].token in s'.acquired && !InQueue(s'.gate, waiting[k].token)
                  else waiting[k] in s'.gate.waiting && waiting[k].token in s'.attempts
                       && s'.attempts[waiting[k].token] == s.attempts[waiting[k].token])
  {
    hide Admit, Drop, Next, InQueue, Inv;
    var waiting := s.gate.waiting;
    var (gate, w) := Drop(s.gate, id);
    DistinctTokens(s);
    RemoveStep(s, id, mode);
    QueueAfterDrop(s.gate, id, i);
    forall t | t in s.attempts && (w.None? || w.value.token != t)
      ensures t in Next(s, RemoveWaiter(id, mode)).attempts
              && Next(s, RemoveWaiter(id, mode)).attempts[t] == s.attempts[t]
    {
      AdmitLeaves(s.(gate := gate), w, t);
    }
    AdmitLeaves(s.(gate := gate), w, 0);
    forall k | 0 <= k < |waiting| && k != i && k != First(i) ensures waiting[k] in gate.waiting {
      OthersStayQueued(s.gate, id, i, k);
    }
  }

  // ----- First come, first served -----

  /** `u` is in the queue ahead of `v`. */
  predicate Ahead(g: Gate, u: Token, v: Token) {
    exists i, j :: 0 <= i < j < |g.waiting| && g.waiting[i].token == u && g.waiting[j].token == v
  }

  ghost function AheadAt(g: Gate, u: Token, v: Token): (at: (nat, nat))
    requires Ahead(g, u, v)
    ensures at.0 < at.1 < |g.waiting| && g.waiting[at.0].token == u && g.waiting[at.1].token == v
  {
    var i, j :| 0 <= i < j < |g.waiting| && g.waiting[i].token == u && g.waiting[j].token == v;
    (i, j)
  }

  /** `u` is still ahead of `v`, or has left the queue, or `v` has been taken out of it. */
  predicate InOrder(s: State, u: Token, v: Token) {
    Ahead(s.gate, u, v) || !InQueue(s.gate, u) || Stuck(s, v)
  }

  lemma ReleaseInOrder(s: State, t: Token, u: Token, v: Token)
    requires Distinct(s.gate.waiting) && Ahead(s.gate, u, v)
    requires forall k :: 0 <= k < |s.gate.waiting| ==> Queued(s.attempts, s.gate.waiting[k])
    ensures InOrder(ReleaseOf(s, t), u, v)
  {
    if t in s.acquired && Release(s.gate, s.acquired[t]).1.Some? {
      var i, j :| 0 <= i < j < |s.gate.waiting| && s.gate.waiting[i].token == u && s.gate.waiting[j].token == v;
      var rest := s.gate.waiting[1..];
      assert ReleaseOf(s, t).gate.waiting == rest;
      if i > 0 {
        assert rest[i - 1].token == u && rest[j - 1].token == v;
      } else {
        assert forall k :: 0 <= k < |rest| ==> rest[k] == s.gate.waiting[k + 1];
      }
    }
  }

  lemma ReserveInOrder(s: State, t: Token, u: Token, v: Token)
    requires Ahead(s.gate, u, v)
    ensures Ahead(ReserveStep(s, t).gate, u, v)
  {
    var i, j :| 0 <= i < j < |s.gate.waiting| && s.gate.waiting[i].token == u && s.gate.waiting[j].token == v;
    assert ReserveStep(s, t).gate.waiting[i] == s.gate.waiting[i];
    assert ReserveStep(s, t).gate.waiting[j] == s.gate.waiting[j];
  }

  lemma AheadAfterDrop(g: Gate, id: ExecutionId, i: nat, a: nat, b: nat)
    requires Distinct(g.waiting) && g.enabled && g.limit.Some? && i < |g.waiting| && g.waiting[i].id == id
    requires forall k :: 0 <= k < i ==> g.waiting[k].id != id
    requires a < b < |g.waiting| && i != a && i != b && First(i) != a && First(i) != b
    ensures Ahead(Drop(g, id).0, g.waiting[a].token, g.waiting[b].token)
  {
    hide Drop, Distinct;
    QueueAfterDrop(g, id, i);
    var waiting := Drop(g, id).0.waiting;
    var a', b' := if a < i then a - 1 else a - 2, if b < i then b - 1 else b - 2;
    assert waiting[a'] == g.waiting[a] && waiting[b'] == g.waiting[b];
  }

  lemma DropInOrder(s: State, id: ExecutionId, u: Token, v: Token)
    requires Distinct(s.gate.waiting) && Ahead(s.gate, u, v) && s.gate.enabled && s.gate.limit.Some?
    requires forall k :: 0 <= k < |s.gate.waiting| ==> Queued(s.attempts, s.gate.waiting[k])
    requires IndexOf(s.gate.waiting, id) < |s.gate.waiting|
    ensures InOrder(Admit(s.(gate := Drop(s.gate, id).0), Drop(s.gate, id).1), u, v)
  {
    hide Drop, Admit, InQueue, Ahead, Distinct, IndexOf;
    var i := IndexOf(s.gate.waiting, id);
    var (g', w) := Drop(s.gate, id);
    QueueAfterDrop(s.gate, id, i);
    AdmitLeaves(s.(gate := g'), w, v);
    var (a, b) := AheadAt(s.gate, u, v);
    if a == i || a == First(i) {
    } else if b == i {
      assert Queued(s.attempts, s.gate.waiting[b]);
    } else {
      AheadAfterDrop(s.gate, id, i, a, b);
    }
  }

  lemma RemoveInOrder(s: State, id: ExecutionId, mode: Mode, u: Token, v: Token)
    requires Inv(s) && Ahead(s.gate, u, v)
    ensures InOrder(Next(s, RemoveWaiter(id, mode)), u, v)
  {
    hide Drop, Inv, Admit;
    DistinctTokens(s);
    if Limits(s.gate, mode) && IndexOf(s.gate.waiting, id) < |s.gate.waiting| {
      RemoveStep(s, id, mode);
      DropInOrder(s, id, u, v);
    } else {
      RemoveMisses(s, id, mode);
    }
  }

  lemma RemoveMisses(s: State, id: ExecutionId, mode: Mode)
    requires !(Limits(s.gate, mode) && IndexOf(s.gate.waiting, id) < |s.gate.waiting|)
    ensures Next(s, RemoveWaiter(id, mode)) == s
  {
  }

  lemma AheadStep(s: State, step: Step, u: Token, v: Token)
    requires Inv(s) && Ahead(s.gate, u, v)
    ensures InOrder(Next(s, step), u, v)
  {
    hide Ahead, InOrder, ReserveStep, ReleaseOf, RegistryNext, RegistryInv, Conserved, ReleasedOnce, Accounted;
    DistinctTokens(s);
    match step {
      case Reserve(t) =>
        ReserveInOrder(s, t, u, v);
        AheadIsInOrder(Next(s, step), u, v);
      case Abort(t) => if t in s.attempts && s.attempts[t].phase.PastReserve? {
        QueueDrop(s, t);
        ReleaseInOrder(s.(attempts := s.attempts - {t}), t, u, v);
      } else {
        AheadIsInOrder(s, u, v);
      }
      case RemoveWaiter(id, mode) => RemoveInOrder(s, id, mode, u, v);
      case RunHandler(t) => if HandlerDue(s.reg, t) {
        ReleaseInOrder(s.(reg := RegistryNext(s.reg, None, s.regular, step)), t, u, v);
      } else {
        AheadIsInOrder(s, u, v);
      }
      case _ =>
        assert Next(s, step).gate.waiting == s.gate.waiting;
        SameQueueInOrder(s, Next(s, step), u, v);
    }
  }

  lemma AheadIsInOrder(s: State, u: Token, v: Token)
    requires Ahead(s.gate, u, v)
    ensures InOrder(s, u, v)
  {
  }

  lemma SameQueueInOrder(s: State, s': State, u: Token, v: Token)
    requires Ahead(s.gate, u, v) && s'.gate.waiting == s.gate.waiting
    ensures InOrder(s', u, v)
  {
    assert Ahead(s'.gate, u, v);
  }

  /** An add that has reserved or queued, or is over. */
  predicate Begun(s: State, t: Token) {
    t < s.next && (t in s.attempts ==> !s.attempts[t].phase.Opening?)
  }

  lemma ReleaseKeepsOut(s: State, t: Token, u: Token)
    requires Begun(s, u) && !InQueue(s.gate, u)
    ensures var s' := ReleaseOf(s, t);
            && Begun(s', u) && !InQueue(s'.gate, u)
            && (u in s.attempts ==> u in s'.attempts && s'.attempts[u] == s.attempts[u])
  {
    if t in s.acquired && Release(s.gate, s.acquired[t]).1.Some? {
      var rest := s.gate.waiting[1..];
      assert forall k :: 0 <= k < |rest| ==> rest[k] == s.gate.waiting[k + 1];
      assert Release(s.gate, s.acquired[t]).1 == Some(s.gate.waiting[0]);
    }
  }

  lemma ReserveKeepsOut(s: State, t: Token, u: Token)
    requires Begun(s, u) && !InQueue(s.gate, u)
    ensures var s' := ReserveStep(s, t);
            && Begun(s', u) && !InQueue(s'.gate, u)
            && (u in s.attempts ==> u in s'.attempts && s'.attempts[u] == s.attempts[u])
  {
  }

  lemma RemoveKeepsOut(s: State, id: ExecutionId, mode: Mode, u: Token)
    requires Begun(s, u) && !InQueue(s.gate, u) && Distinct(s.gate.waiting)
    ensures var s' := Next(s, RemoveWaiter(id, mode));
            && Begun(s', u) && !InQueue(s'.gate, u)
            && (u in s.attempts ==> u in s'.attempts && s'.attempts[u] == s.attempts[u])
  {
    hide Drop;
    if Limits(s.gate, mode) && IndexOf(s.gate.waiting, id) < |s.gate.waiting| {
      QueueAfterDrop(s.gate, id, IndexOf(s.gate.waiting, id));
      RemoveStep(s, id, mode);
      AdmitLeaves(s.(gate := Drop(s.gate, id).0), Drop(s.gate, id).1, u);
    } else {
      RemoveMisses(s, id, mode);
    }
  }

  /** Out of the queue is out for good, and an add stuck there never goes on. */
  lemma OutStaysOut(s: State, step: Step, u: Token)
    requires Inv(s) && Begun(s, u) && !InQueue(s.gate, u)
    ensures var s' := Next(s, step);
            && Begun(s', u) && !InQueue(s'.gate, u)
            && (Stuck(s, u) ==> u in s'.attempts && s'.attempts[u] == s.attempts[u])
  {
    hide ReserveStep, ReleaseOf, RegistryNext, InQueue, Stuck, Inv, HandlerDue, Remove;
    DistinctTokens(s);
    StuckIsThrottled(s, u);
    match step {
      case Reserve(t) => ReserveKeepsOut(s, t, u);
      case Abort(t) => if t in s.attempts && s.attempts[t].phase.PastReserve? {
        ReleaseKeepsOut(s.(attempts := s.attempts - {t}), t, u);
      }
      case RemoveWaiter(id, mode) => RemoveKeepsOut(s, id, mode, u);
      case RunHandler(t) => if HandlerDue(s.reg, t) {
        ReleaseKeepsOut(s.(reg := RegistryNext(s.reg, None, s.regular, step)), t, u);
      }
      case _ => SameQueueOut(s.gate, Next(s, step).gate, u);
    }
  }

  lemma StuckIsThrottled(s: State, u: Token)
    ensures Stuck(s, u) <==> u in s.attempts && s.attempts[u].phase.Throttled? && !InQueue(s.gate, u)
  {
  }

  lemma SameQueueOut(g: Gate, g': Gate, u: Token)
    requires g'.waiting == g.waiting
    ensures InQueue(g', u) <==> InQueue(g, u)
  {
  }

  lemma {:induction false} OutStaysOutThroughout(s: State, steps: seq<Step>, u: Token)
    requires Inv(s) && Begun(s, u) && !InQueue(s.gate, u)
    ensures var s' := Run(s, steps);
            && Begun(s', u) && !InQueue(s'.gate, u)
            && (Stuck(s, u) ==> u in s'.attempts && s'.attempts[u] == s.attempts[u] && Stuck(s', u))
  {
    hide Next, Inv, InQueue;
    if steps != [] {
      var front, last := steps[..|steps| - 1], steps[|steps| - 1];
      OutStaysOutThroughout(s, front, u);
      RunKeepsInv(s, front);
      OutStaysOut(Run(s, front), last, u);
    }
  }

  /** A queued execution that is removed never goes on: nothing settles what its add waits for. */
  lemma RemovedNeverGoesOn(s: State, id: ExecutionId, mode: Mode, i: nat, steps: seq<Step>)
    requires Inv(s) && s.gate.enabled && s.gate.limit.Some? && mode in {Webhook, Trigger, Chat}
    requires i < |s.gate.waiting| && s.gate.waiting[i].id == id
    requires forall k :: 0 <= k < |s.gate.waiting| && k != i ==> s.gate.waiting[k].id != id
    ensures var s', t := Run(Next(s, RemoveWaiter(id, mode)), steps), s.gate.waiting[i].token;
            t in s'.attempts && s'.attempts[t].phase == Throttled && !InQueue(s'.gate, t)
  {
    hide Next;
    var t := s.gate.waiting[i].token;
    RemovalDropsOnly(s, id, mode, i);
    NextKeepsInv(s, RemoveWaiter(id, mode));
    OutStaysOutThroughout(Next(s, RemoveWaiter(id, mode)), steps, t);
  }

  lemma ReleaseKeepsBegun(s: State, t: Token, u: Token)
    requires Begun(s, u)
    ensures Begun(ReleaseOf(s, t), u)
  {
  }

  lemma ReserveKeepsBegun(s: State, t: Token, u: Token)
    requires Begun(s, u)
    ensures Begun(ReserveStep(s, t), u)
  {
  }

  lemma BegunStays(s: State, step: Step, u: Token)
    requires Begun(s, u)
    ensures Begun(Next(s, step), u)
  {
    hide ReserveStep, ReleaseOf, RegistryNext;
    match step {
      case Reserve(t) => ReserveKeepsBegun(s, t, u);
      case Abort(t) => ReleaseKeepsBegun(s.(attempts := s.attempts - {t}), t, u);
      case RunHandler(t) => ReleaseKeepsBegun(s.(reg := RegistryNext(s.reg, None, s.regular, step)), t, u);
      case _ =>
    }
  }

  lemma InOrderStep(s: State, step: Step, u: Token, v: Token)
    requires Inv(s) && Begun(s, u) && Begun(s, v) && InOrder(s, u, v)
    ensures InOrder(Next(s, step), u, v)
  {
    hide Next, Inv, InQueue, Ahead;
    if Ahead(s.gate, u, v) {
      AheadStep(s, step, u, v);
    } else if !InQueue(s.gate, u) {
      OutStaysOut(s, step, u);
    } else {
      OutStaysOut(s, step, v);
    }
  }

  /** Whoever is still in order behind a queued add waits. */
  lemma LaterWaits(s: State, u: Token, v: Token)
    requires Inv(s) && InOrder(s, u, v) && InQueue(s.gate, u)
    ensures v in s.attempts && s.attempts[v].phase == Throttled
  {
    DistinctTokens(s);
    if Ahead(s.gate, u, v) {
      var i, j :| 0 <= i < j < |s.gate.waiting| && s.gate.waiting[i].token == u && s.gate.waiting[j].token == v;
      assert Queued(s.attempts, s.gate.waiting[j]);
    }
  }

  lemma QueuedHasBegun(s: State, i: nat)
    requires Inv(s) && i < |s.gate.waiting|
    ensures Begun(s, s.gate.waiting[i].token)
  {
    assert Queued(s.attempts, s.gate.waiting[i]);
  }

  /**
   First come, first served, over every run, removals and shutdowns included: of two queued
   adds the later one does not go on while the earlier one is still in the queue.
   */
  lemma FirstComeFirstServed(s: State, steps: seq<Step>, i: nat, j: nat)
    requires Inv(s) && i < j < |s.gate.waiting|
    ensures var s', u, v := Run(s, steps), s.gate.waiting[i].token, s.gate.waiting[j].token;
            InQueue(s'.gate, u) ==> v in s'.attempts && s'.attempts[v].phase == Throttled
  {
    hide Inv, InQueue, InOrder;
    var u, v := s.gate.waiting[i].token, s.gate.waiting[j].token;
    StaysInOrder(s, steps, i, j);
    RunKeepsInv(s, steps);
    if InQueue(Run(s, steps).gate, u) { LaterWaits(Run(s, steps), u, v); }
  }

  lemma {:induction false} StaysInOrder(s: State, steps: seq<Step>, i: nat, j: nat)
    requires Inv(s) && i < j < |s.gate.waiting|
    ensures var s', u, v := Run(s, steps), s.gate.waiting[i].token, s.gate.waiting[j].token;
            InOrder(s', u, v) && Begun(s', u) && Begun(s', v)
  {
    hide Next, Inv, InQueue, InOrder;
    var u, v := s.gate.waiting[i].token, s.gate.waiting[j].token;
    if steps == [] {
      QueuedHasBegun(s, i);
      QueuedHasBegun(s, j);
      AheadIsInOrder(s, u, v);
    } else {
      var front, last := steps[..|steps| - 1], steps[|steps| - 1];
      StaysInOrder(s, front, i, j);
      RunKeepsInv(s, front);
      InOrderStep(Run(s, front), last, u, v);
      BegunStays(Run(s, front), last, u);
      BegunStays(Run(s, front), last, v);
    }
  }

  // ----- Queue mode -----

  /** In queue mode nobody waits in this process: whoever asks for capacity gets it. */
  lemma {:induction false} QueueModeNeverWaits(limit: Option<nat>, steps: seq<Step>)
    ensures var s := Run(Initial(limit, false), steps);
            && s.gate == Gate(false, None, 0, [])
            && forall t :: t in s.attempts ==> s.attempts[t].phase != Throttled
  {
    hide RegistryNext;
    if steps != [] {
      var front, last := steps[..|steps| - 1], steps[|steps| - 1];
      QueueModeNeverWaits(limit, front);
      LimitIsFixed(Initial(limit, false), front);
      FreeStepFreesAll(Run(Initial(limit, false), front), last);
    }
  }

  lemma FreeStepFreesAll(s: State, step: Step)
    requires s.gate == Gate(false, None, 0, []) && !s.regular
    requires forall t :: t in s.attempts ==> s.attempts[t].phase != Throttled
    ensures Next(s, step).gate == s.gate
    ensures forall t :: t in Next(s, step).attempts ==> Next(s, step).attempts[t].phase != Throttled
  {
    hide RegistryNext, ReserveStep, ReleaseOf;
    match step {
      case Reserve(t) => FreeReserve(s, t);
      case Abort(t) => FreeRelease(s.(attempts := s.attempts - {t}), t);
      case RunHandler(t) => FreeRelease(s.(reg := RegistryNext(s.reg, None, s.regular, step)), t);
      case _ =>
    }
  }

  lemma FreeReserve(s: State, t: Token)
    requires s.gate == Gate(false, None, 0, [])
    ensures var s' := ReserveStep(s, t);
            && s'.gate == s.gate
            && (s' == s || s'.attempts == s.attempts[t := s.attempts[t].(phase := PastReserve)])
  {
  }

  lemma FreeRelease(s: State, t: Token)
    requires s.gate == Gate(false, None, 0, [])
    ensures ReleaseOf(s, t).gate == s.gate && ReleaseOf(s, t).attempts == s.attempts
  {
  }
}
