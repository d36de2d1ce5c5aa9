/**
 The activation retry queue of packages/cli/src/active-workflow-manager.ts:
 `addQueuedWorkflowActivation`, its retry function, and the removals.

 A retry is asynchronous: its timer fires, the activation is awaited, and meanwhile the
 entry may have been removed or replaced. An activation that gets as far as line 668 drops
 the entry itself, and may still fail after that. `Run` folds any sequence of such events.
 */
module ActivationQueue {
  import opened Prelude

  type WorkflowId = string
  type TimerId = nat

  const WORKFLOW_REACTIVATE_INITIAL_TIMEOUT := 1000
  const WORKFLOW_REACTIVATE_MAX_TIMEOUT := 24 * 60 * 60 * 1000

  datatype Queued = Queued(lastTimeout: nat, timer: TimerId)

  /** The queue, the runtime's pending timers, and the retries being awaited. */
  datatype State = State(
    queue: map<WorkflowId, Queued>,
    timers: map<TimerId, WorkflowId>,
    inFlight: multiset<WorkflowId>,   // not yet past the removal in `add`
    finishing: multiset<WorkflowId>,  // past it
    nextTimer: TimerId)

  datatype Step =
    | Enqueue(wf: WorkflowId)
    | Fire(timer: TimerId)
    | Activate(wf: WorkflowId)                           // line 668 of `add`
    | Fail(wf: WorkflowId, isolate: bool, late: bool)    // late: after line 668
    | Succeed(wf: WorkflowId)
    | Skip(wf: WorkflowId)                               // `add` returns before line 668
    | Remove(wf: WorkflowId)
    | RemoveAll

  const INITIAL := State(map[], map[], multiset{}, multiset{}, 0)

  function NextTimeout(lastTimeout: nat, isolate: bool): nat {
    if !isolate && lastTimeout < WORKFLOW_REACTIVATE_MAX_TIMEOUT
    then if lastTimeout * 2 <= WORKFLOW_REACTIVATE_MAX_TIMEOUT then lastTimeout * 2 else WORKFLOW_REACTIVATE_MAX_TIMEOUT
    else lastTimeout
  }

  function Removed(s: State, wf: WorkflowId): State {
    if wf in s.queue then s.(timers := s.timers - {s.queue[wf].timer}, queue := s.queue - {wf}) else s
  }

  /** `setTimeout`, its handle stored in the entry. */
  function Arm(s: State, wf: WorkflowId, timeout: nat): State {
    s.(queue := s.queue[wf := Queued(timeout, s.nextTimer)],
       timers := s.timers[s.nextTimer := wf],
       nextTimer := s.nextTimer + 1)
  }

  predicate Awaited(s: State, wf: WorkflowId, late: bool) {
    wf in if late then s.finishing else s.inFlight
  }

  /** The retry is over. */
  function Landed(s: State, wf: WorkflowId, late: bool): State {
    if late then s.(finishing := s.finishing - multiset{wf}) else s.(inFlight := s.inFlight - multiset{wf})
  }

  function Next(s: State, step: Step): State {
    match step
    case Enqueue(wf) => Arm(Removed(s, wf), wf, WORKFLOW_REACTIVATE_INITIAL_TIMEOUT)
    case Fire(t) =>
      if t !in s.timers then s
      else s.(timers := s.timers - {t}, inFlight := s.inFlight + multiset{s.timers[t]})
    case Activate(wf) =>
      if wf !in s.inFlight then s
      else Removed(s.(inFlight := s.inFlight - multiset{wf}, finishing := s.finishing + multiset{wf}), wf)
    case Fail(wf, isolate, late) =>
      if !Awaited(s, wf, late) then s
      else
        var s' := Landed(s, wf, late);
        if wf !in s.queue then s' else Arm(s', wf, NextTimeout(s.queue[wf].lastTimeout, isolate))
    case Succeed(wf) => if wf !in s.finishing then s else s.(finishing := s.finishing - multiset{wf})
    case Skip(wf) => if wf !in s.inFlight then s else s.(inFlight := s.inFlight - multiset{wf})
    case Remove(wf) => Removed(s, wf)
    case RemoveAll =>
      s.(queue := map[], timers := s.timers - set wf | wf in s.queue :: s.queue[wf].timer)
  }

  function Run(s: State, steps: seq<Step>): State {
    if steps == [] then s else Next(Run(s, steps[..|steps| - 1]), steps[|steps| - 1])
  }

  // ----- The back-off -----

  function Backoff(failures: nat): nat {
    if 1000 * Pow2(failures) <= WORKFLOW_REACTIVATE_MAX_TIMEOUT then 1000 * Pow2(failures)
    else WORKFLOW_REACTIVATE_MAX_TIMEOUT
  }

  /** A failed retry that finds an entry for its workflow and is not an isolate failure. */
  predicate Charges(s: State, step: Step, wf: WorkflowId) {
    step.Fail? && step.wf == wf && !step.isolate && Awaited(s, wf, step.late)
  }

  /** Non-isolate failures charged to the workflow since it was last queued. */
  function Charged(s: State, steps: seq<Step>, wf: WorkflowId): nat {
    if steps == [] then 0
    else
      var front, last := steps[..|steps| - 1], steps[|steps| - 1];
      if last == Enqueue(wf) then 0
      else if Charges(Run(s, front), last, wf) then Charged(s, front, wf) + 1
      else Charged(s, front, wf)
  }

  lemma BackoffDoubles(k: nat)
    ensures NextTimeout(Backoff(k), false) == Backoff(k + 1)
  {
    assert Pow2(k + 1) == 2 * Pow2(k);
  }

  /** The one event that changes a kept entry's timeout is a failure charged to it. */
  lemma TimeoutAfter(s: State, step: Step, wf: WorkflowId)
    requires wf in Next(s, step).queue
    ensures step != Enqueue(wf) ==> wf in s.queue
    ensures Next(s, step).queue[wf].lastTimeout ==
            if step == Enqueue(wf) then WORKFLOW_REACTIVATE_INITIAL_TIMEOUT
            else if Charges(s, step, wf) then NextTimeout(s.queue[wf].lastTimeout, false)
            else s.queue[wf].lastTimeout
  {
    hide Arm, Removed, NextTimeout;
    match step {
      case Enqueue(w) =>
        RemovedEntry(s, w, wf);
        ArmEntry(Removed(s, w), w, WORKFLOW_REACTIVATE_INITIAL_TIMEOUT, wf);
      case Activate(w) =>
        RemovedEntry(s.(inFlight := s.inFlight - multiset{w}, finishing := s.finishing + multiset{w}), w, wf);
      case Fail(w, isolate, late) =>
        if Awaited(s, w, late) && w in s.queue {
          ArmEntry(Landed(s, w, late), w, NextTimeout(s.queue[w].lastTimeout, isolate), wf);
          IsolateKeepsTimeout(s.queue[w].lastTimeout);
        }
      case Remove(w) => RemovedEntry(s, w, wf);
      case _ =>
    }
  }

  lemma IsolateKeepsTimeout(lastTimeout: nat)
    ensures NextTimeout(lastTimeout, true) == lastTimeout
  {
  }

  lemma ArmEntry(s: State, w: WorkflowId, timeout: nat, wf: WorkflowId)
    ensures wf in Arm(s, w, timeout).queue <==> w == wf || wf in s.queue
    ensures wf in Arm(s, w, timeout).queue ==>
              Arm(s, w, timeout).queue[wf].lastTimeout == if w == wf then timeout else s.queue[wf].lastTimeout
  {
  }

  lemma RemovedEntry(s: State, w: WorkflowId, wf: WorkflowId)
    ensures wf in Removed(s, w).queue ==> wf in s.queue && w != wf && Removed(s, w).queue[wf] == s.queue[wf]
  {
  }

  /** In every run, an entry's timeout is 1000 * 2^k, capped at a day. */
  lemma {:induction false} TimeoutIsBackoff(steps: seq<Step>, wf: WorkflowId)
    requires wf in Run(INITIAL, steps).queue
    ensures Run(INITIAL, steps).queue[wf].lastTimeout == Backoff(Charged(INITIAL, steps, wf))
  {
    var front, last := steps[..|steps| - 1], steps[|steps| - 1];
    TimeoutAfter(Run(INITIAL, front), last, wf);
    if last == Enqueue(wf) {
      assert Pow2(0) == 1;
    } else {
      TimeoutIsBackoff(front, wf);
      BackoffDoubles(Charged(INITIAL, front, wf));
    }
  }

  // ----- Removal -----

  function Pending(s: State, wf: WorkflowId): set<TimerId> {
    set t | t in s.timers && s.timers[t] == wf
  }

  ghost predicate NeverQueued(steps: seq<Step>, wf: WorkflowId) {
    forall i :: 0 <= i < |steps| ==> steps[i] != Enqueue(wf)
  }

  ghost predicate Fresh(s: State) {
    && (forall t :: t in s.timers ==> t < s.nextTimer)
    && (forall wf :: wf in s.queue ==> s.queue[wf].timer < s.nextTimer)
  }

  lemma ArmKeepsFresh(s: State, wf: WorkflowId, timeout: nat)
    requires Fresh(s)
    ensures Fresh(Arm(s, wf, timeout))
  {
  }

  lemma RemovedKeepsFresh(s: State, wf: WorkflowId)
    requires Fresh(s)
    ensures Fresh(Removed(s, wf))
  {
  }

  lemma StepKeepsFresh(s: State, step: Step)
    requires Fresh(s)
    ensures Fresh(Next(s, step))
  {
    match step {
      case Enqueue(wf) =>
        RemovedKeepsFresh(s, wf);
        ArmKeepsFresh(Removed(s, wf), wf, WORKFLOW_REACTIVATE_INITIAL_TIMEOUT);
      case Activate(wf) =>
        RemovedKeepsFresh(s.(inFlight := s.inFlight - multiset{wf}, finishing := s.finishing + multiset{wf}), wf);
      case Fail(wf, isolate, late) =>
        if Awaited(s, wf, late) && wf in s.queue {
          ArmKeepsFresh(Landed(s, wf, late), wf, NextTimeout(s.queue[wf].lastTimeout, isolate));
        }
      case Remove(wf) => RemovedKeepsFresh(s, wf);
      case _ =>
    }
  }

  lemma {:induction false} RunIsFresh(s: State, steps: seq<Step>)
    requires Fresh(s)
    ensures Fresh(Run(s, steps))
  {
    if steps != [] {
      RunIsFresh(s, steps[..|steps| - 1]);
      StepKeepsFresh(Run(s, steps[..|steps| - 1]), steps[|steps| - 1]);
    }
  }

  /** The retries of a workflow that are still to end: pending, in flight, or finishing. */
  function Live(s: State, wf: WorkflowId): nat {
    |Pending(s, wf)| + s.inFlight[wf] + s.finishing[wf]
  }

  /**
   Once removed, a workflow is not re-armed by retries already in flight, however they end:
   until it is queued again no new timer appears for it, and the retries left can only die out.
   */
  lemma {:induction false} RemovedIsNeverRearmed(s: State, steps: seq<Step>, wf: WorkflowId)
    requires Fresh(s) && wf !in s.queue && NeverQueued(steps, wf)
    ensures var s' := Run(s, steps);
            && wf !in s'.queue
            && Pending(s', wf) <= Pending(s, wf)
            && Live(s', wf) <= Live(s, wf)
  {
    if steps != [] {
      var front, last := steps[..|steps| - 1], steps[|steps| - 1];
      assert NeverQueued(front, wf) && last != Enqueue(wf);
      RemovedIsNeverRearmed(s, front, wf);
      RunIsFresh(s, front);
      NothingRearms(Run(s, front), last, wf);
      StepLive(Run(s, front), last, wf);
    }
  }

  lemma NothingRearms(s: State, step: Step, wf: WorkflowId)
    requires Fresh(s) && wf !in s.queue && step != Enqueue(wf)
    ensures wf !in Next(s, step).queue && Pending(Next(s, step), wf) <= Pending(s, wf)
  {
  }

  lemma ArmPending(s: State, w: WorkflowId, timeout: nat, wf: WorkflowId)
    requires Fresh(s)
    ensures Pending(Arm(s, w, timeout), wf) == if w == wf then Pending(s, wf) + {s.nextTimer} else Pending(s, wf)
    ensures s.nextTimer !in Pending(s, wf)
  {
  }

  /**
   After a removal the entry is gone and the timer it stored is cleared; every other entry and
   every other timer is as it was, and retries under way go on.
   */
  lemma RemovalClears(s: State, wf: WorkflowId)
    ensures var s' := Next(s, Remove(wf));
            && wf !in s'.queue
            && (wf in s.queue ==> s.queue[wf].timer !in s'.timers)
            && (forall w :: w != wf ==> Lookup(s'.queue, w) == Lookup(s.queue, w))
            && (forall t :: !(wf in s.queue && t == s.queue[wf].timer) ==> Lookup(s'.timers, t) == Lookup(s.timers, t))
            && s'.inFlight == s.inFlight && s'.finishing == s.finishing
  {
  }

  /** Removing all leaves no entry, and no timer that an entry stored; what it leaves pending nobody stored. */
  lemma RemovalOfAllClears(s: State)
    ensures var s' := Next(s, RemoveAll);
            && s'.queue == map[]
            && (forall wf :: wf in s.queue ==> s.queue[wf].timer !in s'.timers)
            && (forall t :: (forall wf :: wf in s.queue ==> s.queue[wf].timer != t) ==>
                  Lookup(s'.timers, t) == Lookup(s.timers, t))
            && s'.inFlight == s.inFlight && s'.finishing == s.finishing
  {
    forall wf | wf in s.queue ensures s.queue[wf].timer in set w | w in s.queue :: s.queue[w].timer {}
  }

  /**
   Where there is one retry at a time, a removal that finds nothing under way ends it for good:
   nothing of the workflow runs again until it is queued again.
   */
  lemma RemovalIsFinal(s: State, all: bool, steps: seq<Step>, wf: WorkflowId)
    requires Fresh(s) && OneRetry(s, wf) && wf !in s.inFlight && wf !in s.finishing && NeverQueued(steps, wf)
    ensures var s' := Run(Next(s, if all then RemoveAll else Remove(wf)), steps);
            wf !in s'.queue && Live(s', wf) == 0
  {
    var removal := if all then RemoveAll else Remove(wf);
    var s1 := Next(s, removal);
    StepKeepsFresh(s, removal);
    RemovalClears(s, wf);
    RemovalOfAllClears(s);
    assert Pending(s1, wf) == {};
    RemovedIsNeverRearmed(s1, steps, wf);
  }

  /** Queueing leaves exactly one entry for the workflow, with a new timer of its own and the initial timeout. */
  lemma EnqueueArms(s: State, wf: WorkflowId)
    requires Fresh(s)
    ensures var s' := Next(s, Enqueue(wf));
            && wf in s'.queue && s'.queue[wf].lastTimeout == 1000 && s'.queue[wf].timer !in s.timers
            && Lookup(s'.timers, s'.queue[wf].timer) == Some(wf)
            && (wf in s.queue ==> s.queue[wf].timer !in s'.timers)
            && (forall w :: w != wf ==> Lookup(s'.queue, w) == Lookup(s.queue, w))
  {
    RemovalClears(s, wf);
  }

  /** Removing an entry clears the timer it stores, whoever's it is. */
  lemma RemovedPending(s: State, w: WorkflowId, wf: WorkflowId)
    ensures Pending(Removed(s, w), wf) == if w in s.queue then Pending(s, wf) - {s.queue[w].timer} else Pending(s, wf)
  {
  }

  lemma RemovedKeepsAwaited(s: State, w: WorkflowId)
    ensures Removed(s, w).inFlight == s.inFlight && Removed(s, w).finishing == s.finishing
  {
  }

  lemma EnqueueLive(s: State, w: WorkflowId, wf: WorkflowId)
    requires Fresh(s)
    ensures Live(Next(s, Enqueue(w)), wf) <= Live(s, wf) + (if w == wf then 1 else 0)
  {
    RemovedKeepsFresh(s, w);
    RemovedPending(s, w, wf);
    SubsetSize(Pending(Removed(s, w), wf), Pending(s, wf));
    ArmPending(Removed(s, w), w, WORKFLOW_REACTIVATE_INITIAL_TIMEOUT, wf);
  }

  lemma FirePending(s: State, t: TimerId, wf: WorkflowId)
    requires t in s.timers
    ensures Pending(Next(s, Fire(t)), wf) == Pending(s, wf) - {t}
    ensures s.timers[t] == wf ==> t in Pending(s, wf)
    ensures s.timers[t] != wf ==> Pending(s, wf) - {t} == Pending(s, wf)
  {
  }

  lemma FailLive(s: State, w: WorkflowId, isolate: bool, late: bool, wf: WorkflowId)
    requires Fresh(s)
    ensures Live(Next(s, Fail(w, isolate, late)), wf) <= Live(s, wf)
  {
    if Awaited(s, w, late) {
      var landed := Landed(s, w, late);
      assert Pending(landed, wf) == Pending(s, wf);
      if w in s.queue { ArmPending(landed, w, NextTimeout(s.queue[w].lastTimeout, isolate), wf); }
    }
  }

  lemma ActivateLive(s: State, w: WorkflowId, wf: WorkflowId)
    ensures Live(Next(s, Activate(w)), wf) <= Live(s, wf)
  {
    if w in s.inFlight {
      var past := s.(inFlight := s.inFlight - multiset{w}, finishing := s.finishing + multiset{w});
      RemovedPending(past, w, wf);
      assert Pending(past, wf) == Pending(s, wf);
      SubsetSize(Pending(Removed(past, w), wf), Pending(s, wf));
    }
  }

  /** How one event changes the live retries of a workflow. */
  lemma StepLive(s: State, step: Step, wf: WorkflowId)
    requires Fresh(s)
    ensures Live(Next(s, step), wf) <= Live(s, wf) + (if step == Enqueue(wf) then 1 else 0)
  {
    hide Arm, Removed, NextTimeout;
    match step {
      case Enqueue(w) => EnqueueLive(s, w, wf);
      case Fire(t) => if t in s.timers { FirePending(s, t, wf); }
      case Fail(w, isolate, late) => FailLive(s, w, isolate, late, wf);
      case Activate(w) => ActivateLive(s, w, wf);
      case Remove(w) =>
        RemovedPending(s, w, wf);
        SubsetSize(Pending(Removed(s, w), wf), Pending(s, wf));
        RemovedKeepsAwaited(s, w);
      case _ => SubsetSize(Pending(Next(s, step), wf), Pending(s, wf));
    }
  }

  // ----- What becomes of every retry -----

  /** An entry is dropped by a removal, or by an activation that gets as far as line 668, and by nothing else. */
  lemma QueuedIff(s: State, step: Step, wf: WorkflowId)
    ensures wf in Next(s, step).queue <==>
            || step == Enqueue(wf)
            || (wf in s.queue && step != Remove(wf) && step != RemoveAll && !(step == Activate(wf) && wf in s.inFlight))
  {
    hide NextTimeout;
  }

  /** What can happen to a retry: it ends early or late, that is before or after line 668. */
  datatype Mark = Started | Passed | EndedEarly | EndedLate

  predicate Marks(s: State, step: Step, wf: WorkflowId, mark: Mark) {
    match mark
    case Started => step.Fire? && step.timer in s.timers && s.timers[step.timer] == wf
    case Passed => step == Activate(wf) && wf in s.inFlight
    case EndedEarly => ((step.Fail? && step.wf == wf && !step.late) || step == Skip(wf)) && wf in s.inFlight
    case EndedLate => ((step.Fail? && step.wf == wf && step.late) || step == Succeed(wf)) && wf in s.finishing
  }

  function Marked(s: State, step: Step, wf: WorkflowId, mark: Mark): nat {
    if Marks(s, step, wf, mark) then 1 else 0
  }

  /** How often that has happened to retries of the workflow, over a run. */
  function Count(s: State, steps: seq<Step>, wf: WorkflowId, mark: Mark): nat {
    if steps == [] then 0
    else
      var front, last := steps[..|steps| - 1], steps[|steps| - 1];
      Count(s, front, wf, mark) + Marked(Run(s, front), last, wf, mark)
  }

  /** The retries being awaited, after one event. */
  ghost predicate Awaits(s: State, step: Step, s': State, wf: WorkflowId) {
    && s'.inFlight[wf] == s.inFlight[wf] + Marked(s, step, wf, Started) - Marked(s, step, wf, Passed)
                          - Marked(s, step, wf, EndedEarly)
    && s'.finishing[wf] == s.finishing[wf] + Marked(s, step, wf, Passed) - Marked(s, step, wf, EndedLate)
  }

  lemma ArmKeepsAwaited(s: State, w: WorkflowId, timeout: nat)
    ensures Arm(s, w, timeout).inFlight == s.inFlight && Arm(s, w, timeout).finishing == s.finishing
  {
  }

  lemma SameAwaited(s: State, step: Step, m: State, s': State, wf: WorkflowId)
    requires Awaits(s, step, m, wf) && s'.inFlight == m.inFlight && s'.finishing == m.finishing
    ensures Awaits(s, step, s', wf)
  {
  }

  lemma LandedAwaits(s: State, w: WorkflowId, isolate: bool, late: bool, wf: WorkflowId)
    ensures Awaits(s, Fail(w, isolate, late), if Awaited(s, w, late) then Landed(s, w, late) else s, wf)
  {
  }

  lemma FailAwaits(s: State, w: WorkflowId, isolate: bool, late: bool, wf: WorkflowId)
    ensures Awaits(s, Fail(w, isolate, late), Next(s, Fail(w, isolate, late)), wf)
  {
    hide Arm, NextTimeout, Awaits, Landed, Awaited;
    LandedAwaits(s, w, isolate, late, wf);
    if Awaited(s, w, late) && w in s.queue {
      ArmKeepsAwaited(Landed(s, w, late), w, NextTimeout(s.queue[w].lastTimeout, isolate));
      SameAwaited(s, Fail(w, isolate, late), Landed(s, w, late), Next(s, Fail(w, isolate, late)), wf);
    }
  }

  lemma ActivateAwaits(s: State, w: WorkflowId, wf: WorkflowId)
    ensures Awaits(s, Activate(w), Next(s, Activate(w)), wf)
  {
    hide Removed;
    RemovedKeepsAwaited(s.(inFlight := s.inFlight - multiset{w}, finishing := s.finishing + multiset{w}), w);
  }

  lemma EnqueueAwaits(s: State, w: WorkflowId, wf: WorkflowId)
    ensures Awaits(s, Enqueue(w), Next(s, Enqueue(w)), wf)
  {
    hide Arm, Removed;
    RemovedKeepsAwaited(s, w);
    ArmKeepsAwaited(Removed(s, w), w, WORKFLOW_REACTIVATE_INITIAL_TIMEOUT);
  }

  lemma RemoveAwaits(s: State, w: WorkflowId, wf: WorkflowId)
    ensures Awaits(s, Remove(w), Next(s, Remove(w)), wf)
  {
    RemovedKeepsAwaited(s, w);
  }

  lemma OtherAwaits(s: State, step: Step, wf: WorkflowId)
    requires step.Fire? || step.Succeed? || step.Skip? || step.RemoveAll?
    ensures Awaits(s, step, Next(s, step), wf)
  {
    hide Arm, Removed, NextTimeout;
  }

  lemma AwaitedAfter(s: State, step: Step, wf: WorkflowId)
    ensures Awaits(s, step, Next(s, step), wf)
  {
    hide Next, Awaits;
    match step {
      case Enqueue(w) => EnqueueAwaits(s, w, wf);
      case Activate(w) => ActivateAwaits(s, w, wf);
      case Fail(w, isolate, late) => FailAwaits(s, w, isolate, late, wf);
      case Remove(w) => RemoveAwaits(s, w, wf);
      case _ => OtherAwaits(s, step, wf);
    }
  }

  /**
   No retry is lost from sight: each one that started is in flight, or ended early, or passed
   line 668; and each of those is finishing, or ended late.
   */
  lemma {:induction false} RetriesAreAccounted(steps: seq<Step>, wf: WorkflowId)
    ensures var s := Run(INITIAL, steps);
            && Count(INITIAL, steps, wf, Started)
               == s.inFlight[wf] + Count(INITIAL, steps, wf, EndedEarly) + Count(INITIAL, steps, wf, Passed)
            && Count(INITIAL, steps, wf, Passed) == s.finishing[wf] + Count(INITIAL, steps, wf, EndedLate)
  {
    hide Next, Marks;
    if steps != [] {
      RetriesAreAccounted(steps[..|steps| - 1], wf);
      AwaitedAfter(Run(INITIAL, steps[..|steps| - 1]), steps[|steps| - 1], wf);
    }
  }

  function Enqueues(steps: seq<Step>, wf: WorkflowId): nat {
    if steps == [] then 0
    else Enqueues(steps[..|steps| - 1], wf) + (if steps[|steps| - 1] == Enqueue(wf) then 1 else 0)
  }

  /** A workflow never has more live retries than it was queued times. */
  lemma {:induction false} RetriesAreBounded(steps: seq<Step>, wf: WorkflowId)
    ensures Live(Run(INITIAL, steps), wf) <= Enqueues(steps, wf)
  {
    if steps != [] {
      RetriesAreBounded(steps[..|steps| - 1], wf);
      RunIsFresh(INITIAL, steps[..|steps| - 1]);
      StepLive(Run(INITIAL, steps[..|steps| - 1]), steps[|steps| - 1], wf);
    }
  }

  // ----- One retry at a time -----

  /** At most one retry is live, and a pending timer is the one the entry stores: removal stops everything. */
  predicate OneRetry(s: State, wf: WorkflowId) {
    && Live(s, wf) <= 1
    && Pending(s, wf) <= if wf in s.queue then {s.queue[wf].timer} else {}
  }

  /** The workflow is queued while one of its retries is being awaited. */
  predicate Overlaps(s: State, step: Step, wf: WorkflowId) {
    step == Enqueue(wf) && (wf in s.inFlight || wf in s.finishing)
  }

  lemma OneRetryPending(s: State, wf: WorkflowId)
    requires OneRetry(s, wf)
    ensures wf in s.inFlight || wf in s.finishing ==> Pending(s, wf) == {}
    ensures wf in s.inFlight ==> s.inFlight[wf] == 1 && s.finishing[wf] == 0
    ensures wf in s.finishing ==> s.finishing[wf] == 1 && s.inFlight[wf] == 0
  {
    if Pending(s, wf) != {} {
      var t :| t in Pending(s, wf);
      SubsetSize({t}, Pending(s, wf));
    }
  }

  lemma EnqueueOneRetryIff(s: State, w: WorkflowId, wf: WorkflowId)
    requires Fresh(s) && OneRetry(s, wf)
    ensures OneRetry(Next(s, Enqueue(w)), wf) <==> !Overlaps(s, Enqueue(w), wf)
  {
    if w == wf { EnqueueItselfIff(s, wf); } else { EnqueueOtherKeepsOneRetry(s, w, wf); }
  }

  lemma EnqueueItselfIff(s: State, wf: WorkflowId)
    requires Fresh(s) && OneRetry(s, wf)
    ensures OneRetry(Next(s, Enqueue(wf)), wf) <==> wf !in s.inFlight && wf !in s.finishing
  {
    OneRetryPending(s, wf);
    RemovedKeepsFresh(s, wf);
    RemovedPending(s, wf, wf);
    ArmPending(Removed(s, wf), wf, WORKFLOW_REACTIVATE_INITIAL_TIMEOUT, wf);
    assert Pending(Removed(s, wf), wf) == {};
  }

  lemma EnqueueOtherKeepsOneRetry(s: State, w: WorkflowId, wf: WorkflowId)
    requires Fresh(s) && OneRetry(s, wf) && w != wf
    ensures OneRetry(Next(s, Enqueue(w)), wf)
  {
    RemovedKeepsFresh(s, w);
    RemovedKeepsOneRetry(s, w, wf);
    ArmKeepsOther(Removed(s, w), w, WORKFLOW_REACTIVATE_INITIAL_TIMEOUT, wf);
  }

  lemma ArmKeepsOther(s: State, w: WorkflowId, timeout: nat, wf: WorkflowId)
    requires Fresh(s) && OneRetry(s, wf) && w != wf
    ensures OneRetry(Arm(s, w, timeout), wf)
  {
    ArmPending(s, w, timeout, wf);
  }

  lemma FailKeepsOneRetry(s: State, w: WorkflowId, isolate: bool, late: bool, wf: WorkflowId)
    requires Fresh(s) && OneRetry(s, wf)
    ensures OneRetry(Next(s, Fail(w, isolate, late)), wf)
  {
    OneRetryPending(s, wf);
    if Awaited(s, w, late) {
      var landed := Landed(s, w, late);
      assert Pending(landed, wf) == Pending(s, wf);
      if w in s.queue { ArmPending(landed, w, NextTimeout(s.queue[w].lastTimeout, isolate), wf); }
    }
  }

  lemma RemovedKeepsOneRetry(s: State, w: WorkflowId, wf: WorkflowId)
    requires OneRetry(s, wf)
    ensures OneRetry(Removed(s, w), wf)
  {
    RemovedPending(s, w, wf);
    SubsetSize(Pending(Removed(s, w), wf), Pending(s, wf));
  }

  lemma ActivateKeepsOneRetry(s: State, w: WorkflowId, wf: WorkflowId)
    requires OneRetry(s, wf)
    ensures OneRetry(Next(s, Activate(w)), wf)
  {
    if w in s.inFlight {
      var past := s.(inFlight := s.inFlight - multiset{w}, finishing := s.finishing + multiset{w});
      assert Pending(past, wf) == Pending(s, wf);
      RemovedKeepsOneRetry(past, w, wf);
    }
  }

  lemma FireKeepsOneRetry(s: State, t: TimerId, wf: WorkflowId)
    requires OneRetry(s, wf)
    ensures OneRetry(Next(s, Fire(t)), wf)
  {
    if t in s.timers { FirePending(s, t, wf); }
  }

  lemma RemoveAllPending(s: State, wf: WorkflowId)
    requires Pending(s, wf) <= if wf in s.queue then {s.queue[wf].timer} else {}
    ensures Pending(Next(s, RemoveAll), wf) == {}
  {
    hide Arm, Removed, NextTimeout;
    RemovalOfAllClears(s);
    forall t ensures t !in Pending(Next(s, RemoveAll), wf) {
      assert t in Pending(Next(s, RemoveAll), wf) ==> t in Pending(s, wf);
    }
  }

  lemma RemoveAllKeepsOneRetry(s: State, wf: WorkflowId)
    requires OneRetry(s, wf)
    ensures OneRetry(Next(s, RemoveAll), wf)
  {
    hide NextTimeout, Removed, Arm;
    RemoveAllPending(s, wf);
  }

  /** A second live retry, or one that removal would miss, comes about exactly by queueing during a retry. */
  lemma OneRetryIff(s: State, step: Step, wf: WorkflowId)
    requires Fresh(s) && OneRetry(s, wf)
    ensures OneRetry(Next(s, step), wf) <==> !Overlaps(s, step, wf)
  {
    match step {
      case Enqueue(w) => EnqueueOneRetryIff(s, w, wf);
      case Fire(t) => FireKeepsOneRetry(s, t, wf);
      case Activate(w) => ActivateKeepsOneRetry(s, w, wf);
      case Fail(w, isolate, late) => FailKeepsOneRetry(s, w, isolate, late, wf);
      case Remove(w) => RemovedKeepsOneRetry(s, w, wf);
      case RemoveAll => RemoveAllKeepsOneRetry(s, wf);
      case _ => assert Pending(Next(s, step), wf) == Pending(s, wf);
    }
  }

  lemma RunPrefix(s: State, steps: seq<Step>, k: nat)
    requires k < |steps|
    ensures Run(s, steps[..k + 1]) == Next(Run(s, steps[..k]), steps[k])
  {
    assert steps[..k + 1][..k] == steps[..k];
  }

  ghost predicate NeverOverlaps(steps: seq<Step>, wf: WorkflowId) {
    forall k :: 0 <= k < |steps| ==> !Overlaps(Run(INITIAL, steps[..k]), steps[k], wf)
  }

  /** Throughout a run there is one retry at a time exactly if the workflow is never queued during one. */
  lemma OneRetryThroughoutIff(steps: seq<Step>, wf: WorkflowId)
    ensures (forall k :: 0 <= k <= |steps| ==> OneRetry(Run(INITIAL, steps[..k]), wf)) <==> NeverOverlaps(steps, wf)
  {
    if forall k :: 0 <= k <= |steps| ==> OneRetry(Run(INITIAL, steps[..k]), wf) {
      forall k | 0 <= k < |steps| ensures !Overlaps(Run(INITIAL, steps[..k]), steps[k], wf) {
        RunIsFresh(INITIAL, steps[..k]);
        RunPrefix(INITIAL, steps, k);
        assert OneRetry(Run(INITIAL, steps[..k]), wf) && OneRetry(Run(INITIAL, steps[..k + 1]), wf);
        OneRetryIff(Run(INITIAL, steps[..k]), steps[k], wf);
      }
    }
    if NeverOverlaps(steps, wf) {
      forall k | 0 <= k <= |steps| ensures OneRetry(Run(INITIAL, steps[..k]), wf) { OneRetryAt(steps, wf, k); }
    }
  }

  lemma {:induction false} OneRetryAt(steps: seq<Step>, wf: WorkflowId, n: nat)
    requires n <= |steps| && NeverOverlaps(steps, wf)
    ensures OneRetry(Run(INITIAL, steps[..n]), wf)
  {
    if n == 0 {
      assert Pending(INITIAL, wf) == {};
    } else {
      OneRetryAt(steps, wf, n - 1);
      RunIsFresh(INITIAL, steps[..n - 1]);
      RunPrefix(INITIAL, steps, n - 1);
      OneRetryIff(Run(INITIAL, steps[..n - 1]), steps[n - 1], wf);
    }
  }

  /** A retry fires, its workflow is queued again, and the retry fails. */
  lemma RequeuedWhileInFlight(wf: WorkflowId, isolate: bool)
    ensures var s1 := Next(INITIAL, Enqueue(wf)); var s2 := Next(s1, Fire(0)); var s3 := Next(s2, Enqueue(wf));
            var s4 := Next(s3, Fail(wf, isolate, false));
            s4.timers == map[1 := wf, 2 := wf] && wf in s4.queue && s4.queue[wf].timer == 2
  {
    var s1 := Next(INITIAL, Enqueue(wf));
    assert s1 == State(map[wf := Queued(1000, 0)], map[0 := wf], multiset{}, multiset{}, 1);
    var s2 := Next(s1, Fire(0));
    assert s2 == State(map[wf := Queued(1000, 0)], map[], multiset{wf}, multiset{}, 1);
    var s3 := Next(s2, Enqueue(wf));
    assert s3 == State(map[wf := Queued(1000, 1)], map[1 := wf], multiset{wf}, multiset{}, 2);
  }

  /** That leaves two timers, of which removal clears one. */
  lemma TwoLiveTimers(wf: WorkflowId, isolate: bool)
    ensures var s := Run(INITIAL, [Enqueue(wf), Fire(0), Enqueue(wf), Fail(wf, isolate, false)]);
            Pending(s, wf) == {1, 2} && wf in s.queue && Pending(Removed(s, wf), wf) == {1}
  {
    RunOfFour(INITIAL, Enqueue(wf), Fire(0), Enqueue(wf), Fail(wf, isolate, false));
    RequeuedWhileInFlight(wf, isolate);
  }

  lemma RunOfFour(s: State, a: Step, b: Step, c: Step, d: Step)
    ensures Run(s, [a, b, c, d]) == Next(Next(Next(Next(s, a), b), c), d)
  {
    RunSnoc(s, [], a, [a]);
    RunSnoc(s, [a], b, [a, b]);
    RunSnoc(s, [a, b], c, [a, b, c]);
    RunSnoc(s, [a, b, c], d, [a, b, c, d]);
  }

  lemma RunSnoc(s: State, steps: seq<Step>, step: Step, all: seq<Step>)
    requires all == steps + [step]
    ensures Run(s, all) == Next(Run(s, steps), step)
  {
    assert all[..|all| - 1] == steps;
  }

  // ----- Persistence -----

  ghost predicate HandlesDistinct(s: State) {
    && Fresh(s)
    && forall v, w :: v in s.queue && w in s.queue && v != w ==> s.queue[v].timer != s.queue[w].timer
  }

  predicate Armed(s: State, wf: WorkflowId) {
    wf in s.queue && s.queue[wf].timer in s.timers && s.timers[s.queue[wf].timer] == wf
  }

  /** A queued workflow has its own timer pending, or a retry not yet past the removal in `add`. */
  predicate HasAttempt(s: State, wf: WorkflowId) {
    wf in s.queue ==> Armed(s, wf) || wf in s.inFlight
  }

  /** `add` returns early, without a failure and without reaching line 668, in the only attempt left. */
  predicate Abandons(s: State, step: Step, wf: WorkflowId) {
    step == Skip(wf) && wf in s.queue && s.inFlight[wf] == 1 && !Armed(s, wf)
  }

  /** Handles are the entries' own. */
  ghost predicate HandlesOwn(s: State) {
    HandlesDistinct(s) && forall w :: w in s.queue && s.queue[w].timer in s.timers ==> s.timers[s.queue[w].timer] == w
  }

  lemma ArmKeepsHandles(s: State, wf: WorkflowId, timeout: nat)
    requires HandlesOwn(s)
    ensures HandlesOwn(Arm(s, wf, timeout)) && Armed(Arm(s, wf, timeout), wf)
    ensures forall w :: w != wf && Armed(s, w) ==> Armed(Arm(s, wf, timeout), w)
  {
  }

  lemma RemovedKeepsHandles(s: State, wf: WorkflowId)
    requires HandlesOwn(s)
    ensures HandlesOwn(Removed(s, wf)) && wf !in Removed(s, wf).queue
    ensures forall w :: w != wf && Armed(s, w) ==> Armed(Removed(s, wf), w)
  {
  }

  lemma StepKeepsHandles(s: State, step: Step)
    requires HandlesOwn(s)
    ensures HandlesOwn(Next(s, step))
  {
    match step {
      case Enqueue(wf) =>
        RemovedKeepsHandles(s, wf);
        ArmKeepsHandles(Removed(s, wf), wf, WORKFLOW_REACTIVATE_INITIAL_TIMEOUT);
      case Activate(wf) =>
        RemovedKeepsHandles(s.(inFlight := s.inFlight - multiset{wf}, finishing := s.finishing + multiset{wf}), wf);
      case Fail(wf, isolate, late) =>
        if Awaited(s, wf, late) && wf in s.queue {
          ArmKeepsHandles(Landed(s, wf, late), wf, NextTimeout(s.queue[wf].lastTimeout, isolate));
        }
      case Remove(wf) => RemovedKeepsHandles(s, wf);
      case _ =>
    }
  }

  lemma EnqueueKeepsAttempt(s: State, w: WorkflowId, wf: WorkflowId)
    requires HandlesOwn(s) && HasAttempt(s, wf)
    ensures HasAttempt(Next(s, Enqueue(w)), wf)
  {
    RemovedKeepsHandles(s, w);
    ArmKeepsHandles(Removed(s, w), w, WORKFLOW_REACTIVATE_INITIAL_TIMEOUT);
  }

  lemma ActivateKeepsAttempt(s: State, w: WorkflowId, wf: WorkflowId)
    requires HandlesOwn(s) && HasAttempt(s, wf)
    ensures HasAttempt(Next(s, Activate(w)), wf)
  {
    if w in s.inFlight {
      var past := s.(inFlight := s.inFlight - multiset{w}, finishing := s.finishing + multiset{w});
      assert HandlesOwn(past) && (w != wf ==> HasAttempt(past, wf));
      RemovedKeepsHandles(past, w);
    }
  }

  lemma FailKeepsAttempt(s: State, w: WorkflowId, isolate: bool, late: bool, wf: WorkflowId)
    requires HandlesOwn(s) && HasAttempt(s, wf)
    ensures HasAttempt(Next(s, Fail(w, isolate, late)), wf)
  {
    if Awaited(s, w, late) {
      var landed := Landed(s, w, late);
      assert HandlesOwn(landed) && (w != wf ==> HasAttempt(landed, wf));
      if w in s.queue { ArmKeepsHandles(landed, w, NextTimeout(s.queue[w].lastTimeout, isolate)); }
    }
  }

  lemma RemoveKeepsAttempt(s: State, w: WorkflowId, wf: WorkflowId)
    requires HandlesOwn(s) && HasAttempt(s, wf)
    ensures HasAttempt(Removed(s, w), wf)
  {
    RemovedKeepsHandles(s, w);
  }

  /** The only event after which a queued workflow has no attempt left. */
  lemma HasAttemptIff(s: State, step: Step, wf: WorkflowId)
    requires HandlesOwn(s) && HasAttempt(s, wf)
    ensures HasAttempt(Next(s, step), wf) <==> !Abandons(s, step, wf)
  {
    hide HandlesOwn, Arm, Removed;
    match step {
      case Enqueue(w) => EnqueueKeepsAttempt(s, w, wf);
      case Activate(w) => ActivateKeepsAttempt(s, w, wf);
      case Fail(w, isolate, late) => FailKeepsAttempt(s, w, isolate, late, wf);
      case Remove(w) => RemoveKeepsAttempt(s, w, wf);
      case _ =>
    }
  }

  /** Such an early return does leave a queued workflow without one. */
  lemma AbandonedBySkip(wf: WorkflowId)
    ensures var s := Run(INITIAL, [Enqueue(wf), Fire(0), Skip(wf)]);
            wf in s.queue && !HasAttempt(s, wf) && s.timers == map[]
  {
    var s1 := Next(INITIAL, Enqueue(wf));
    assert s1 == State(map[wf := Queued(1000, 0)], map[0 := wf], multiset{}, multiset{}, 1);
    RunSnoc(INITIAL, [], Enqueue(wf), [Enqueue(wf)]);
    RunSnoc(INITIAL, [Enqueue(wf)], Fire(0), [Enqueue(wf), Fire(0)]);
    RunSnoc(INITIAL, [Enqueue(wf), Fire(0)], Skip(wf), [Enqueue(wf), Fire(0), Skip(wf)]);
  }

  ghost predicate NeverAbandons(steps: seq<Step>, wf: WorkflowId) {
    forall k :: 0 <= k < |steps| ==> !Abandons(Run(INITIAL, steps[..k]), steps[k], wf)
  }

  lemma {:induction false} RunKeepsHandles(steps: seq<Step>)
    ensures HandlesOwn(Run(INITIAL, steps))
  {
    if steps != [] {
      RunKeepsHandles(steps[..|steps| - 1]);
      StepKeepsHandles(Run(INITIAL, steps[..|steps| - 1]), steps[|steps| - 1]);
    }
  }

  /**
   Throughout a run a queued workflow has its next attempt armed or under way, exactly if no
   early return of `add` ends its last attempt.
   */
  lemma QueuedKeepsTryingIff(steps: seq<Step>, wf: WorkflowId)
    ensures (forall k :: 0 <= k <= |steps| ==> HasAttempt(Run(INITIAL, steps[..k]), wf)) <==> NeverAbandons(steps, wf)
  {
    if forall k :: 0 <= k <= |steps| ==> HasAttempt(Run(INITIAL, steps[..k]), wf) {
      forall k | 0 <= k < |steps| ensures !Abandons(Run(INITIAL, steps[..k]), steps[k], wf) {
        RunKeepsHandles(steps[..k]);
        RunPrefix(INITIAL, steps, k);
        assert HasAttempt(Run(INITIAL, steps[..k]), wf) && HasAttempt(Run(INITIAL, steps[..k + 1]), wf);
        HasAttemptIff(Run(INITIAL, steps[..k]), steps[k], wf);
      }
    }
    if NeverAbandons(steps, wf) {
      forall k | 0 <= k <= |steps| ensures HasAttempt(Run(INITIAL, steps[..k]), wf) { HasAttemptAt(steps, wf, k); }
    }
  }

  lemma {:induction false} HasAttemptAt(steps: seq<Step>, wf: WorkflowId, n: nat)
    requires n <= |steps| && NeverAbandons(steps, wf)
    ensures HasAttempt(Run(INITIAL, steps[..n]), wf)
  {
    if n > 0 {
      HasAttemptAt(steps, wf, n - 1);
      RunKeepsHandles(steps[..n - 1]);
      RunPrefix(INITIAL, steps, n - 1);
      HasAttemptIff(Run(INITIAL, steps[..n - 1]), steps[n - 1], wf);
    }
  }

  /** packages/cli/src/active-workflow-manager.ts: the manager's queue and its timers. */
  class ActiveWorkflowManager {
    var queuedActivations: map<WorkflowId, Queued>
    var timers: map<TimerId, WorkflowId>
    var inFlight: multiset<WorkflowId>
    var finishing: multiset<WorkflowId>
    var nextTimer: TimerId

    ghost function Abs(): State
      reads this
    {
      State(queuedActivations, timers, inFlight, finishing, nextTimer)
    }

    constructor ()
      ensures Abs() == INITIAL
    {
      queuedActivations, timers, inFlight, finishing, nextTimer := map[], map[], multiset{}, multiset{}, 0;
    }

    method SetTimeout(wf: WorkflowId) returns (t: TimerId)
      modifies this`timers, this`nextTimer
      ensures t == old(nextTimer) && nextTimer == t + 1 && timers == old(timers)[t := wf]
    {
      t := nextTimer;
      timers := timers[t := wf];
      nextTimer := t + 1;
    }

    method AddQueuedWorkflowActivation(wf: WorkflowId)
      modifies this
      ensures Abs() == Next(old(Abs()), Enqueue(wf))
    {
      RemoveQueuedWorkflowActivation(wf);
      var timeout := SetTimeout(wf);
      queuedActivations := queuedActivations[wf := Queued(WORKFLOW_REACTIVATE_INITIAL_TIMEOUT, timeout)];
    }

    /** The timer's callback, up to its await. */
    method StartRetry(t: TimerId)
      modifies this
      ensures Abs() == Next(old(Abs()), Fire(t))
    {
      if t in timers {
        inFlight := inFlight + multiset{timers[t]};
        timers := timers - {t};
      }
    }

    /** The awaited `add` has set everything up: whatever entry there is goes. */
    method Activated(wf: WorkflowId)
      requires wf in inFlight
      modifies this
      ensures Abs() == Next(old(Abs()), Activate(wf))
    {
      inFlight := inFlight - multiset{wf};
      finishing := finishing + multiset{wf};
      RemoveQueuedWorkflowActivation(wf);
    }

    /** The rest of the retry function when the awaited `add` threw, before or after that point. */
    method RetryFailed(wf: WorkflowId, isolate: bool, late: bool)
      requires wf in if late then finishing else inFlight
      modifies this
      ensures Abs() == Next(old(Abs()), Fail(wf, isolate, late))
    {
      if late {
        finishing := finishing - multiset{wf};
      } else {
        inFlight := inFlight - multiset{wf};
      }
      Rearm(wf, isolate);
    }

    method Rearm(wf: WorkflowId, isolate: bool)
      modifies this`queuedActivations, this`timers, this`nextTimer
      ensures Abs() == if wf in old(queuedActivations)
                       then Arm(old(Abs()), wf, NextTimeout(old(queuedActivations)[wf].lastTimeout, isolate))
                       else old(Abs())
    {
      if wf !in queuedActivations { return; }
      var lastTimeout := queuedActivations[wf].lastTimeout;
      if !isolate && lastTimeout < WORKFLOW_REACTIVATE_MAX_TIMEOUT {
        lastTimeout := if lastTimeout * 2 <= WORKFLOW_REACTIVATE_MAX_TIMEOUT then lastTimeout * 2
            else WORKFLOW_REACTIVATE_MAX_TIMEOUT;
      }
      var timeout := SetTimeout(wf);
      queuedActivations := queuedActivations[wf := Queued(lastTimeout, timeout)];
    }

    method RemoveQueuedWorkflowActivation(wf: WorkflowId)
      modifies this`queuedActivations, this`timers
      ensures Abs() == Next(old(Abs()), Remove(wf))
    {
      if wf in queuedActivations {
        timers := timers - {queuedActivations[wf].timer};
        queuedActivations := queuedActivations - {wf};
      }
    }

    method RemoveAllQueuedWorkflowActivations()
      modifies this
      ensures Abs() == Next(old(Abs()), RemoveAll)
    {
      ghost var all := queuedActivations;
      var todo := queuedActivations.Keys;
      while todo != {}
        invariant queuedActivations.Keys == todo && todo <= all.Keys
        invariant forall w :: w in todo ==> queuedActivations[w] == all[w]
        invariant timers == old(timers) - set w | w in all && w !in todo :: all[w].timer
        invariant inFlight == old(inFlight) && finishing == old(finishing) && nextTimer == old(nextTimer)
      {
        var wf :| wf in todo;
        ghost var cleared := set w | w in all && w !in todo :: all[w].timer;
        RemoveQueuedWorkflowActivation(wf);
        todo := todo - {wf};
        assert (set w | w in all && w !in todo :: all[w].timer) == cleared + {all[wf].timer};
      }
      assert (set w | w in all && w !in todo :: all[w].timer) == set w | w in all :: all[w].timer;
    }
  }
}
