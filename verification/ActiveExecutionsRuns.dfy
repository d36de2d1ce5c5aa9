/**
 What holds over every run of one process's active executions: capacity, settlement, lost
 slots, and shutdown.
 */
module ActiveExecutionsRuns {
  import opened Prelude
  import opened Concurrency
  import opened ActiveExecutions

  // ----- Capacity -----

  /**
   In every reachable state the reservations held are exactly those of adds past their
   reservation and of incarnations not yet cleaned up, evaluation runs aside; until a
   shutdown the queue's capacity accounts for each production one; and no reservation is
   released twice.
   */
  lemma CapacityIsConserved(limit: Option<nat>, regular: bool, steps: seq<Step>)
    ensures var s := Run(Initial(limit, regular), steps);
            && Inv(s)
            && (forall t :: t in s.acquired <==> Holds(s, t))
            && (s.shutDown ==> regular && exists i :: 0 <= i < |steps| && steps[i].Sweep?)
            && (regular && limit.Some? && !s.shutDown ==>
                  s.gate.enabled && limit.value - s.gate.capacity == |s.gate.waiting| + |Slots(s.acquired)|)
            && (forall i, j :: 0 <= i < j < |s.released| ==> s.released[i] != s.released[j])
            && (forall t :: t in s.released ==> t !in s.acquired)
  {
    var s0 := Initial(limit, regular);
    assert Slots(s0.acquired) == {};
    RunKeepsInv(s0, steps);
    LimitIsFixed(s0, steps);
  }

  /** No event changes the limit or the deployment mode, and only a sweep in regular mode shuts down. */
  lemma StepFixesLimit(s: State, step: Step)
    ensures Next(s, step).gate.limit == s.gate.limit && Next(s, step).regular == s.regular
    ensures Next(s, step).shutDown <==> s.shutDown || (step.Sweep? && s.regular)
  {
    hide RegistryNext, ReserveStep, ReleaseOf;
    match step {
      case Reserve(t) => ReserveFixesLimit(s, t);
      case Abort(t) => ReleaseFixesLimit(s.(attempts := s.attempts - {t}), t);
      case RunHandler(t) => ReleaseFixesLimit(s.(reg := RegistryNext(s.reg, None, s.regular, step)), t);
      case _ =>
    }
  }

  lemma ReserveFixesLimit(s: State, t: Token)
    ensures var s' := ReserveStep(s, t); s'.gate.limit == s.gate.limit && s'.regular == s.regular
                                          && s'.shutDown == s.shutDown
  {
  }

  lemma ReleaseFixesLimit(s: State, t: Token)
    ensures var s' := ReleaseOf(s, t); s'.gate.limit == s.gate.limit && s'.regular == s.regular
                                          && s'.shutDown == s.shutDown
  {
  }

  lemma {:induction false} LimitIsFixed(s: State, steps: seq<Step>)
    ensures Run(s, steps).gate.limit == s.gate.limit && Run(s, steps).regular == s.regular
    ensures Run(s, steps).shutDown <==> s.shutDown || (s.regular && exists i :: 0 <= i < |steps| && steps[i].Sweep?)
  {
    if steps != [] {
      var front, last := steps[..|steps| - 1], steps[|steps| - 1];
      LimitIsFixed(s, front);
      StepFixesLimit(Run(s, front), last);
      if i :| 0 <= i < |steps| && steps[i].Sweep? { assert i < |front| ==> front[i] == steps[i]; }
      if i :| 0 <= i < |front| && front[i].Sweep? { assert steps[i] == front[i]; }
    }
  }

  function Removals(steps: seq<Step>): nat {
    if steps == [] then 0 else Removals(steps[..|steps| - 1]) + (if steps[|steps| - 1].RemoveWaiter? then 1 else 0)
  }

  /** The queue lets through at most `over` more than its limit, and only waits when full. */
  ghost predicate Bounded(g: Gate, over: nat) {
    g.limit.Some? ==>
      InUse(g) <= g.limit.value + over && (g.waiting != [] ==> InUse(g) >= g.limit.value)
  }

  lemma StepIsBounded(s: State, step: Step, over: nat)
    requires Bounded(s.gate, over)
    ensures Bounded(Next(s, step).gate, if step.RemoveWaiter? then over + 1 else over)
  {
    hide RegistryNext, ReserveStep, ReleaseOf, Remove;
    match step {
      case Reserve(t) => ReserveIsBounded(s, t, over);
      case Abort(t) => ReleaseOfIsBounded(s.(attempts := s.attempts - {t}), t, over);
      case RunHandler(t) => ReleaseOfIsBounded(s.(reg := RegistryNext(s.reg, None, s.regular, step)), t, over);
      case RemoveWaiter(id, mode) => RemoveIsBounded(s.gate, mode, id, over);
      case _ =>
    }
  }

  lemma ReserveIsBounded(s: State, t: Token, over: nat)
    requires Bounded(s.gate, over)
    ensures Bounded(ReserveStep(s, t).gate, over)
  {
    if t in s.attempts { ThrottleIsBounded(s.gate, s.attempts[t].mode, Waiter(t, s.attempts[t].id), over); }
  }

  lemma ReleaseOfIsBounded(s: State, t: Token, over: nat)
    requires Bounded(s.gate, over)
    ensures Bounded(ReleaseOf(s, t).gate, over)
  {
    if t in s.acquired { ReleaseIsBounded(s.gate, s.acquired[t], over); }
  }

  lemma ThrottleIsBounded(g: Gate, mode: Mode, w: Waiter, over: nat)
    requires Bounded(g, over)
    ensures Bounded(Throttle(g, mode, w).0, over)
  {
  }

  lemma ReleaseIsBounded(g: Gate, mode: Mode, over: nat)
    requires Bounded(g, over)
    ensures Bounded(Release(g, mode).0, over)
  {
  }

  lemma RemoveIsBounded(g: Gate, mode: Mode, id: ExecutionId, over: nat)
    requires Bounded(g, over)
    ensures Bounded(Remove(g, mode, id).0, over + 1)
  {
  }

  /**
   Until a shutdown, the executions let through exceed the limit by no more than the number
   of waiters that were removed; without removals the limit is never exceeded.
   */
  lemma {:induction false} AdmissionIsBounded(limit: nat, regular: bool, steps: seq<Step>)
    ensures var s := Run(Initial(Some(limit), regular), steps);
            && Bounded(s.gate, Removals(steps))
            && (regular && !s.shutDown ==> |Slots(s.acquired)| <= limit + Removals(steps))
  {
    var s0 := Initial(Some(limit), regular);
    if steps != [] {
      AdmissionIsBounded(limit, regular, steps[..|steps| - 1]);
      StepIsBounded(Run(s0, steps[..|steps| - 1]), steps[|steps| - 1], Removals(steps[..|steps| - 1]));
    }
    CapacityIsConserved(Some(limit), regular, steps);
    LimitIsFixed(s0, steps);
  }

  /** An `add` that fails, or loses its claim, leaves the registry as it was and keeps no slot. */
  lemma LoserTouchesNothing(s: State, t: Token)
    requires Inv(s) && t in s.attempts && s.attempts[t].phase.PastReserve?
    ensures var s' := Next(s, Abort(t));
            && s'.reg == s.reg
            && t !in s'.attempts && t !in s'.acquired
            && (t in s.acquired ==> s'.released == s.released + [t])
  {
    AbortKeepsInv(s, t);
    assert !Holds(Next(s, Abort(t)), t);
  }

  // ----- Settlement -----

  predicate Registered(r: Registry, t: Token) {
    t in r.entries && r.entries[t].id in r.active && r.active[r.entries[t].id] == t
  }

  /** Settled, not waiting, its handler still to run: the handler will delete by id. */
  predicate Stale(r: Registry, u: Token) {
    HandlerDue(r, u) && !r.entries[u].status.Waiting?
  }

  /** A registry event; a token that joins is new. */
  ghost predicate Event(r: Registry, joining: Option<Attempt>, step: Step) {
    RegistryInv(r) && (step.Register? && joining.Some? ==> step.token !in r.entries)
  }

  lemma StepIsEvent(s: State, step: Step)
    requires Inv(s)
    ensures Event(s.reg, Joining(s, step), step)
    ensures Next(s, step).reg == RegistryNext(s.reg, Joining(s, step), s.regular, step)
  {
    RegistryView(s, step);
  }

  /** What one event can do to an incarnation that already exists. */
  lemma EntryEvolves(r: Registry, joining: Option<Attempt>, regular: bool, step: Step, t: Token)
    requires Event(r, joining, step) && t in r.entries
    ensures var r' := RegistryNext(r, joining, regular, step); var e := r.entries[t];
            && t in r'.entries
            && r'.entries[t].id == e.id && r'.entries[t].mode == e.mode && r'.entries[t].startedAt == e.startedAt
            && (r'.entries[t].handled <==> e.handled || (step == RunHandler(t) && e.promise.Some?))
            && (!Registered(r, t) ==> r'.entries[t].status == e.status && r'.entries[t].promise == e.promise)
  {
  }

  /** The outcome an event offers to the incarnation `t`, if it reaches its promise. */
  function Offered(r: Registry, regular: bool, step: Step, t: Token): Option<Settlement> {
    if !Registered(r, t) then None
    else
      match step
      case Stop(id, reason) =>
        if id == r.entries[t].id && !r.entries[t].status.Waiting? then Some(Rejected(reason)) else None
      case Finalize(id, run) => if id == r.entries[t].id then Some(Resolved(run)) else None
      case Sweep(cancelAll) =>
        if regular && cancelAll && !r.entries[t].status.Waiting? then Some(Rejected("shutdown")) else None
      case _ => None
  }

  /**
   A promise settles exactly when an event reaches it, as that event says, and only the
   first time.
   */
  lemma SettlesAsOffered(r: Registry, joining: Option<Attempt>, regular: bool, step: Step, t: Token)
    requires Event(r, joining, step) && t in r.entries
    ensures var r' := RegistryNext(r, joining, regular, step);
            && t in r'.entries
            && r'.entries[t].promise ==
               if r.entries[t].promise.Some? then r.entries[t].promise else Offered(r, regular, step, t)
  {
  }

  lemma NewEntryIsUnhandled(r: Registry, joining: Option<Attempt>, regular: bool, step: Step, t: Token)
    requires Event(r, joining, step) && t !in r.entries
    ensures var r' := RegistryNext(r, joining, regular, step);
            t in r'.entries ==> !r'.entries[t].handled && r'.entries[t].promise.None? && Registered(r', t)
  {
  }

  /** The first settlement is final: whatever happens later, the outcome stands. */
  lemma {:induction false} FirstSettlementStands(s: State, steps: seq<Step>, t: Token)
    requires Inv(s) && t in s.reg.entries && s.reg.entries[t].promise.Some?
    ensures t in Run(s, steps).reg.entries && Run(s, steps).reg.entries[t].promise == s.reg.entries[t].promise
    ensures RunHandler(t) in steps ==> Run(s, steps).reg.entries[t].handled
  {
    if steps != [] {
      var front, last := steps[..|steps| - 1], steps[|steps| - 1];
      FirstSettlementStands(s, front, t);
      RunKeepsInv(s, front);
      var m := Run(s, front);
      StepIsEvent(m, last);
      SettlesAsOffered(m.reg, Joining(m, last), m.regular, last, t);
      EntryEvolves(m.reg, Joining(m, last), m.regular, last, t);
      assert steps == front + [last];
    }
  }

  /** How often the settle handler of `t` has really run. */
  function HandlerRuns(s: State, steps: seq<Step>, t: Token): nat {
    if steps == [] then 0
    else
      var front, last := steps[..|steps| - 1], steps[|steps| - 1];
      HandlerRuns(s, front, t) + (if last == RunHandler(t) && HandlerDue(Run(s, front).reg, t) then 1 else 0)
  }

  /** The clean-up of an incarnation runs at most once, and exactly once when it is marked done. */
  lemma {:induction false} HandlerRunsOnce(limit: Option<nat>, regular: bool, steps: seq<Step>, t: Token)
    ensures var s := Run(Initial(limit, regular), steps);
            HandlerRuns(Initial(limit, regular), steps, t) ==
            if t in s.reg.entries && s.reg.entries[t].handled then 1 else 0
  {
    if steps != [] {
      var front, last := steps[..|steps| - 1], steps[|steps| - 1];
      HandlerRunsOnce(limit, regular, front, t);
      CapacityIsConserved(limit, regular, front);
      var m := Run(Initial(limit, regular), front);
      StepIsEvent(m, last);
      if t in m.reg.entries {
        EntryEvolves(m.reg, Joining(m, last), m.regular, last, t);
      } else {
        NewEntryIsUnhandled(m.reg, Joining(m, last), m.regular, last, t);
      }
    }
  }

  // ----- Lost slots -----

  /** Unsettled and unreachable: `stopExecution` and `finalizeExecution` look up by id. */
  predicate Lost(r: Registry, t: Token) {
    t in r.entries && r.entries[t].promise.None? && !Registered(r, t)
  }

  /** An incarnation that is not registered never is again. */
  lemma UnregisteredStays(r: Registry, joining: Option<Attempt>, regular: bool, step: Step, t: Token)
    requires Event(r, joining, step) && t in r.entries && !Registered(r, t)
    ensures !Registered(RegistryNext(r, joining, regular, step), t)
  {
    EntryEvolves(r, joining, regular, step, t);
  }

  /** A lost incarnation is lost for good, and with it the slot it holds. */
  lemma {:induction false} LostStays(s: State, steps: seq<Step>, t: Token)
    requires Inv(s) && Lost(s.reg, t)
    ensures Lost(Run(s, steps).reg, t) && Run(s, steps).reg.entries[t].mode == s.reg.entries[t].mode
    ensures !s.reg.entries[t].mode.Evaluation? ==> t in Run(s, steps).acquired && t !in Run(s, steps).released
  {
    RunKeepsInv(s, steps);
    if steps != [] {
      var front, last := steps[..|steps| - 1], steps[|steps| - 1];
      LostStays(s, front, t);
      RunKeepsInv(s, front);
      var m := Run(s, front);
      StepIsEvent(m, last);
      EntryEvolves(m.reg, Joining(m, last), m.regular, last, t);
      UnregisteredStays(m.reg, Joining(m, last), m.regular, last, t);
    }
    assert !s.reg.entries[t].mode.Evaluation? ==> Holds(Run(s, steps), t);
  }

  /** The events that lose a registered, unsettled incarnation. */
  predicate Loses(r: Registry, joining: Option<Attempt>, regular: bool, step: Step, t: Token)
    requires t in r.entries
  {
    match step
    case Stop(id, _) => id == r.entries[t].id && r.entries[t].status.Waiting?
    case Register(_, _) => joining.Some? && joining.value.id == r.entries[t].id
    case RunHandler(u) => Stale(r, u) && r.entries[u].id == r.entries[t].id
    case Sweep(cancelAll) =>
      r.entries[t].status.Waiting? || (r.entries[t].status.New? && !(regular && cancelAll))
    case _ => false
  }

  /**
   Exactly these events lose it: a stop or sweep of an entry marked waiting, a replacement,
   and the late handler of an earlier incarnation.
   */
  lemma LostIff(r: Registry, joining: Option<Attempt>, regular: bool, step: Step, t: Token)
    requires Event(r, joining, step) && Registered(r, t) && r.entries[t].promise.None?
    ensures Lost(RegistryNext(r, joining, regular, step), t) <==> Loses(r, joining, regular, step, t)
  {
    SettlesAsOffered(r, joining, regular, step, t);
    EntryEvolves(r, joining, regular, step, t);
  }

  /** Stopping between `putExecutionToWait` and the end of the run loses the slot, whatever follows. */
  lemma StopInTheWindow(s: State, t: Token, reason: string, steps: seq<Step>)
    requires Inv(s) && Registered(s.reg, t) && s.reg.entries[t].promise.None? && s.reg.entries[t].status.Waiting?
    requires !s.reg.entries[t].mode.Evaluation?
    ensures var s' := Run(Next(s, Stop(s.reg.entries[t].id, reason)), steps);
            Lost(s'.reg, t) && t in s'.acquired
  {
    var stop := Stop(s.reg.entries[t].id, reason);
    StepIsEvent(s, stop);
    LostIff(s.reg, Joining(s, stop), s.regular, stop, t);
    EntryEvolves(s.reg, Joining(s, stop), s.regular, stop, t);
    NextKeepsInv(s, stop);
    LostStays(Next(s, stop), steps, t);
  }

  /** The window is reachable: one webhook execution that goes to wait. */
  lemma WindowIsReachable(id: ExecutionId, now: nat)
    ensures var s := Run(Initial(Some(1), true),
            [Begin(id, Webhook), Reserve(0), Register(0, now), SetStatus(id, Waiting)]);
            && Registered(s.reg, 0) && s.reg.entries[0].promise.None? && s.reg.entries[0].status.Waiting?
            && s.gate.capacity == 0
  {
    var s0 := Initial(Some(1), true);
    RunSnoc(s0, [], Begin(id, Webhook), [Begin(id, Webhook)]);
    RunSnoc(s0, [Begin(id, Webhook)], Reserve(0), [Begin(id, Webhook), Reserve(0)]);
    RunSnoc(s0, [Begin(id, Webhook), Reserve(0)], Register(0, now), [Begin(id, Webhook), Reserve(0), Register(0, now)]);
    RunSnoc(s0, [Begin(id, Webhook), Reserve(0), Register(0, now)], SetStatus(id, Waiting),
            [Begin(id, Webhook), Reserve(0), Register(0, now), SetStatus(id, Waiting)]);
  }

  lemma RunSnoc(s: State, steps: seq<Step>, step: Step, all: seq<Step>)
    requires all == steps + [step]
    ensures Run(s, all) == Next(Run(s, steps), step)
  {
    assert all[..|all| - 1] == steps;
  }

  // ----- Runs that lose nothing -----

  predicate Settled(r: Registry, id: ExecutionId) {
    Current(r, id).Some? && Current(r, id).value.promise.Some?
  }

  predicate Parked(r: Registry, id: ExecutionId) {
    Current(r, id).Some? && Current(r, id).value.status.Waiting?
  }

  /** An entry is stopped, swept or replaced while waiting only once its promise has settled. */
  predicate Careful(r: Registry, joining: Option<Attempt>, regular: bool, step: Step) {
    match step
    case Stop(id, _) => Parked(r, id) ==> Settled(r, id)
    case Register(_, _) => joining.Some? && Current(r, joining.value.id).Some? ==>
        Parked(r, joining.value.id) && Settled(r, joining.value.id)
    case Sweep(cancelAll) =>
      forall id :: id in r.active && Current(r, id).Some? ==>
        && (Parked(r, id) ==> Settled(r, id))
        && (!(regular && cancelAll) ==> !Current(r, id).value.status.New?)
    case _ => true
  }

  predicate CarefulRun(s: State, steps: seq<Step>) {
    steps != [] ==>
      && CarefulRun(s, steps[..|steps| - 1])
      && var m := Run(s, steps[..|steps| - 1]);
         Careful(m.reg, Joining(m, steps[|steps| - 1]), m.regular, steps[|steps| - 1])
  }

  /** Nothing is lost, and every handler still to run would delete its own incarnation only. */
  ghost predicate Sound(r: Registry) {
    forall t :: t in r.entries && (r.entries[t].promise.None? || Stale(r, t)) ==> Registered(r, t)
  }

  lemma SoundEntry(r: Registry, joining: Option<Attempt>, regular: bool, step: Step, t: Token)
    requires Event(r, joining, step) && Sound(r) && Careful(r, joining, regular, step) && t in r.entries
    ensures var r' := RegistryNext(r, joining, regular, step);
            t in r'.entries && (r'.entries[t].promise.None? || Stale(r', t)) ==> Registered(r', t)
  {
    EntryEvolves(r, joining, regular, step, t);
    SettlesAsOffered(r, joining, regular, step, t);
    if step.RunHandler? && Stale(r, step.token) { assert Registered(r, step.token); }
  }

  lemma CarefulStepIsSound(r: Registry, joining: Option<Attempt>, regular: bool, step: Step)
    requires Event(r, joining, step) && Sound(r) && Careful(r, joining, regular, step)
    ensures Sound(RegistryNext(r, joining, regular, step))
  {
    var r' := RegistryNext(r, joining, regular, step);
    forall t | t in r'.entries && (r'.entries[t].promise.None? || Stale(r', t)) ensures Registered(r', t) {
      if t in r.entries {
        SoundEntry(r, joining, regular, step, t);
      } else {
        NewEntryIsUnhandled(r, joining, regular, step, t);
      }
    }
  }

  /** A handler that runs in a sound registry removes its own incarnation or nothing. */
  lemma HandlerRemovesItself(r: Registry, joining: Option<Attempt>, regular: bool, u: Token, id: ExecutionId)
    requires RegistryInv(r) && Sound(r) && id in r.active
    ensures id !in RegistryNext(r, joining, regular, RunHandler(u)).active ==> r.active[id] == u
  {
    if Stale(r, u) { assert Registered(r, u); }
  }

  /**
   In careful runs every slot belongs to an add in flight, or to an incarnation that is
   still registered or already settled; and no handler removes another incarnation.
   */
  lemma {:induction false} CarefulRunsLoseNothing(limit: Option<nat>, regular: bool, steps: seq<Step>)
    requires CarefulRun(Initial(limit, regular), steps)
    ensures var s := Run(Initial(limit, regular), steps);
            && Inv(s) && Sound(s.reg)
            && (forall t :: t in s.acquired ==>
               t in s.attempts || (t in s.reg.entries && (Registered(s.reg, t) || s.reg.entries[t].promise.Some?)))
            && (forall u, id :: id in s.reg.active && id !in Next(s, RunHandler(u)).reg.active ==>
               s.reg.active[id] == u)
  {
    CapacityIsConserved(limit, regular, steps);
    var s := Run(Initial(limit, regular), steps);
    if steps != [] {
      var front, last := steps[..|steps| - 1], steps[|steps| - 1];
      CarefulRunsLoseNothing(limit, regular, front);
      var m := Run(Initial(limit, regular), front);
      StepIsEvent(m, last);
      CarefulStepIsSound(m.reg, Joining(m, last), m.regular, last);
    }
    forall u, id | id in s.reg.active && id !in Next(s, RunHandler(u)).reg.active ensures s.reg.active[id] == u {
      StepIsEvent(s, RunHandler(u));
      HandlerRemovesItself(s.reg, Joining(s, RunHandler(u)), s.regular, u, id);
    }
    forall t | t in s.acquired
      ensures t in s.attempts || (t in s.reg.entries && (Registered(s.reg, t) || s.reg.entries[t].promise.Some?))
    {
      assert Holds(s, t);
    }
  }

  // ----- Shutdown -----

  /** An entry whose handler ran and which is still registered is one that waits. */
  ghost predicate HandledWaits(r: Registry) {
    forall id :: id in r.active && Current(r, id).Some? && Current(r, id).value.handled ==>
        Current(r, id).value.status.Waiting?
  }

  lemma HandledStaysWaiting(r: Registry, joining: Option<Attempt>, regular: bool, step: Step)
    requires Event(r, joining, step) && HandledWaits(r) && (step.SetStatus? ==> step.status.Waiting?)
    ensures HandledWaits(RegistryNext(r, joining, regular, step))
  {
  }

  /** `waiting` is the only status the engine ever sets. */
  ghost predicate OnlySetsWaiting(steps: seq<Step>) {
    forall i :: 0 <= i < |steps| && steps[i].SetStatus? ==> steps[i].status.Waiting?
  }

  lemma {:induction false} HandledEntriesWait(limit: Option<nat>, regular: bool, steps: seq<Step>)
    requires OnlySetsWaiting(steps)
    ensures HandledWaits(Run(Initial(limit, regular), steps).reg)
  {
    if steps != [] {
      var front, last := steps[..|steps| - 1], steps[|steps| - 1];
      assert forall i :: 0 <= i < |front| ==> front[i] == steps[i];
      HandledEntriesWait(limit, regular, front);
      CapacityIsConserved(limit, regular, front);
      var m := Run(Initial(limit, regular), front);
      StepIsEvent(m, last);
      HandledStaysWaiting(m.reg, Joining(m, last), m.regular, last);
    }
  }

  /** After the sweep: nothing is added, and nothing goes to wait. */
  predicate QuietStep(step: Step) {
    !step.Register? && !step.SetStatus?
  }

  ghost predicate Quiet(steps: seq<Step>) {
    forall i :: 0 <= i < |steps| ==> QuietStep(steps[i])
  }

  /** Every registered entry will remove itself once its handler runs. */
  ghost predicate Draining(r: Registry) {
    forall id :: id in r.active && Current(r, id).Some? ==>
      !Current(r, id).value.status.Waiting? && !Current(r, id).value.handled
  }

  /** The registry of `r'` is what is left of that of `r`. */
  ghost predicate Shrinks(r: Registry, r': Registry) {
    forall id :: id in r'.active ==> id in r.active && r'.active[id] == r.active[id]
  }

  lemma SweepStartsDraining(r: Registry, rejectAll: bool)
    requires RegistryInv(r) && HandledWaits(r)
    ensures Draining(Swept(r, rejectAll)) && Shrinks(r, Swept(r, rejectAll)) && RegistryInv(Swept(r, rejectAll))
    ensures rejectAll ==> forall id :: id in Swept(r, rejectAll).active ==> Settled(Swept(r, rejectAll), id)
  {
  }

  lemma QuietStepDrains(r: Registry, joining: Option<Attempt>, regular: bool, step: Step)
    requires Event(r, joining, step) && Draining(r) && QuietStep(step)
    ensures var r' := RegistryNext(r, joining, regular, step); Draining(r') && Shrinks(r, r')
  {
  }

  lemma {:induction false} QuietRunsDrain(s: State, steps: seq<Step>)
    requires Inv(s) && Draining(s.reg) && Quiet(steps)
    ensures Draining(Run(s, steps).reg) && Shrinks(s.reg, Run(s, steps).reg)
  {
    if steps != [] {
      var front, last := steps[..|steps| - 1], steps[|steps| - 1];
      assert forall i :: 0 <= i < |front| ==> front[i] == steps[i];
      QuietRunsDrain(s, front);
      RunKeepsInv(s, front);
      var m := Run(s, front);
      StepIsEvent(m, last);
      assert QuietStep(last);
      QuietStepDrains(m.reg, Joining(m, last), m.regular, last);
    }
  }

  /**
   After the sweep the registry never grows, and is empty as soon as the handlers of the
   incarnations it still held have run.
   */
  lemma ShutdownDrains(s: State, cancelAll: bool, steps: seq<Step>)
    requires Inv(s) && HandledWaits(s.reg) && Quiet(steps)
    ensures var swept := Next(s, Sweep(cancelAll)); var s' := Run(swept, steps);
            && Inv(swept) && Inv(s')
            && Shrinks(s.reg, swept.reg) && Shrinks(swept.reg, s'.reg)
            && ((forall id :: id in swept.reg.active ==>
                   swept.reg.active[id] in s'.reg.entries && s'.reg.entries[swept.reg.active[id]].handled)
                ==> s'.reg.active == map[])
  {
    hide ReserveStep, ReleaseOf, Swept;
    var swept := Next(s, Sweep(cancelAll));
    SweepStartsDraining(s.reg, s.regular && cancelAll);
    NextKeepsInv(s, Sweep(cancelAll));
    QuietRunsDrain(swept, steps);
    RunKeepsInv(swept, steps);
    var r' := Run(swept, steps).reg;
    if forall id :: id in swept.reg.active ==>
        swept.reg.active[id] in r'.entries && r'.entries[swept.reg.active[id]].handled {
      forall id ensures id !in r'.active {
        assert id in r'.active ==> Current(r', id).Some?;
      }
    }
  }

  /** With `cancelAll` in regular mode every promise is settled at once: the handlers alone empty it. */
  lemma CancelAllDrains(s: State, steps: seq<Step>)
    requires Inv(s) && HandledWaits(s.reg) && Quiet(steps) && s.regular
    requires var swept := Next(s, Sweep(true));
             forall id :: id in swept.reg.active ==> RunHandler(swept.reg.active[id]) in steps
    ensures Run(Next(s, Sweep(true)), steps).reg.active == map[]
  {
    var swept := Next(s, Sweep(true));
    SweepStartsDraining(s.reg, true);
    NextKeepsInv(s, Sweep(true));
    forall id | id in swept.reg.active
      ensures swept.reg.active[id] in Run(swept, steps).reg.entries
              && Run(swept, steps).reg.entries[swept.reg.active[id]].handled
    {
      assert Settled(swept.reg, id);
      FirstSettlementStands(swept, steps, swept.reg.active[id]);
    }
    ShutdownDrains(s, true, steps);
  }

  // ----- The queue during shutdown -----

  /** While throttling is disabled, only a first capped evaluation run makes the queue move. */
  predicate Reopens(s: State, step: Step) {
    step.ResolveEvaluation? && step.capped && s.regular && !s.evaluationResolved
  }

  ghost predicate NeverReopens(s: State, steps: seq<Step>) {
    steps != [] ==>
      NeverReopens(s, steps[..|steps| - 1]) && !Reopens(Run(s, steps[..|steps| - 1]), steps[|steps| - 1])
  }

  /** The queue, and every add in it, exactly as it was. */
  ghost predicate Frozen(s: State, s': State) {
    && s'.gate == s.gate
    && forall t :: t in s.attempts && s.attempts[t].phase.Throttled? ==>
       t in s'.attempts && s'.attempts[t] == s.attempts[t]
  }

  lemma DisabledStepFreezes(s: State, step: Step)
    requires Inv(s) && !s.gate.enabled && !Reopens(s, step)
    ensures Frozen(s, Next(s, step))
  {
    hide RegistryNext, ReserveStep, ReleaseOf, Queue, Accounted, RegistryInv, ReleasedOnce;
    match step {
      case Reserve(t) => DisabledReserveFreezes(s, t);
      case Abort(t) => DisabledReleaseFreezes(s.(attempts := s.attempts - {t}), t);
      case RunHandler(t) => DisabledReleaseFreezes(s.(reg := RegistryNext(s.reg, None, s.regular, step)), t);
      case _ =>
    }
  }

  lemma DisabledReserveFreezes(s: State, t: Token)
    requires !s.gate.enabled
    ensures Frozen(s, ReserveStep(s, t))
  {
  }

  lemma DisabledReleaseFreezes(s: State, t: Token)
    requires !s.gate.enabled
    ensures Frozen(s, ReleaseOf(s, t))
  {
  }

  lemma {:induction false} DisabledRunFreezes(s: State, steps: seq<Step>)
    requires Inv(s) && !s.gate.enabled && NeverReopens(s, steps)
    ensures Frozen(s, Run(s, steps))
  {
    if steps != [] {
      DisabledRunFreezes(s, steps[..|steps| - 1]);
      RunKeepsInv(s, steps[..|steps| - 1]);
      DisabledStepFreezes(Run(s, steps[..|steps| - 1]), steps[|steps| - 1]);
    }
  }

  /**
   Once a regular process shuts down, no queued add is ever let through or cancelled, in any
   continuation in which no first evaluation run enables the service again.
   */
  lemma ShutdownFreezesQueue(s: State, cancelAll: bool, steps: seq<Step>)
    requires Inv(s) && s.regular && NeverReopens(Next(s, Sweep(cancelAll)), steps)
    ensures var s' := Run(Next(s, Sweep(cancelAll)), steps);
            && s'.gate == Disable(s.gate)
            && forall t :: t in s.attempts && s.attempts[t].phase.Throttled? ==>
               t in s'.attempts && s'.attempts[t] == s.attempts[t]
  {
    NextKeepsInv(s, Sweep(cancelAll));
    DisabledRunFreezes(Next(s, Sweep(cancelAll)), steps);
  }

  /** If one does, the next production run to finish starts a queued add in the middle of the shutdown. */
  lemma EvaluationReopensQueue(s: State, cancelAll: bool, t: Token)
    requires Inv(s) && s.regular && s.gate.limit.Some? && !s.evaluationResolved && s.gate.waiting != []
    requires HandlerDue(s.reg, t) && Production(s.reg.entries[t].mode)
    ensures var u := s.gate.waiting[0].token;
            var reopened := Next(Next(s, Sweep(cancelAll)), ResolveEvaluation(true));
            var s' := Next(reopened, RunHandler(t));
            && s.attempts[u].phase.Throttled?
            && u in s'.attempts && s'.attempts[u].phase.PastReserve? && u in s'.acquired
            && s'.gate.waiting == s.gate.waiting[1..]
  {
    hide RegistryNext, ReserveStep;
    var reopened := Next(Next(s, Sweep(cancelAll)), ResolveEvaluation(true));
    assert Queued(s.attempts, s.gate.waiting[0]);
    StillDue(s, cancelAll, t);
    assert reopened.gate == Enable(Disable(s.gate)) && reopened.attempts == s.attempts
           && reopened.acquired == s.acquired;
  }

  /** A sweep leaves a handler that is due as it is, with what it holds. */
  lemma StillDue(s: State, cancelAll: bool, t: Token)
    requires Inv(s) && HandlerDue(s.reg, t) && Production(s.reg.entries[t].mode)
    ensures HandlerDue(Next(Next(s, Sweep(cancelAll)), ResolveEvaluation(true)).reg, t)
    ensures t in s.acquired && Production(s.acquired[t])
  {
    assert Holds(s, t);
    SettlesAsOffered(s.reg, None, s.regular, Sweep(cancelAll), t);
    EntryEvolves(s.reg, None, s.regular, Sweep(cancelAll), t);
  }

  /** Begun, let through and registered, begun again, and the first promise resolved. */
  function Resuming(a: ExecutionId, b: ExecutionId, now: nat, run: Option<string>): seq<Step> {
    [Begin(a, Webhook), Reserve(0), Register(0, now), Begin(b, Webhook), Reserve(1), Finalize(a, run)]
  }

  function RegistryOfOne(id: ExecutionId, now: nat, promise: Option<Settlement>): Registry {
    Registry(map[id := 0], map[0 := Entry(id, Webhook, Running, now, None, false, promise, false)], map[])
  }

  function OneRegistered(limit: Option<nat>, id: ExecutionId, now: nat): State {
    State(Gate(limit.Some?, limit, if limit.Some? then limit.value - 1 else 0, []), map[], map[0 := Webhook],
          RegistryOfOne(id, now, None), true, false, false, [], 1)
  }

  lemma OneIsRegistered(limit: Option<nat>, id: ExecutionId, now: nat)
    requires limit.Some? ==> limit.value > 0
    ensures Next(Next(Next(Initial(limit, true), Begin(id, Webhook)), Reserve(0)), Register(0, now))
            == OneRegistered(limit, id, now)
  {
    var s2 := Next(Next(Initial(limit, true), Begin(id, Webhook)), Reserve(0));
    assert s2.attempts == map[0 := Attempt(id, Webhook, PastReserve)] && s2.acquired == map[0 := Webhook];
    assert s2.attempts - {0} == map[];
  }

  /** The second add queues if the limit is one, and goes on if there is none. */
  lemma SecondHasBegun(limit: Option<nat>, a: ExecutionId, b: ExecutionId, now: nat)
    requires limit.Some? ==> limit.value == 1
    ensures var s := Next(Next(OneRegistered(limit, a, now), Begin(b, Webhook)), Reserve(1));
            && s.attempts == map[1 := Attempt(b, Webhook, if limit.Some? then Throttled else PastReserve)]
            && s.reg == RegistryOfOne(a, now, None) && s.gate.limit == limit
            && s.gate.waiting == (if limit.Some? then [Waiter(1, b)] else [])
            && s.regular && !s.evaluationResolved
  {
  }

  lemma FirstHasSettled(limit: Option<nat>, a: ExecutionId, b: ExecutionId, now: nat, run: Option<string>)
    requires limit.Some? ==> limit.value == 1
    ensures var s := Run(Initial(limit, true), Resuming(a, b, now, run));
            && Inv(s) && s.regular && !s.evaluationResolved && s.gate.limit == limit
            && s.attempts == map[1 := Attempt(b, Webhook, if limit.Some? then Throttled else PastReserve)]
            && s.gate.waiting == (if limit.Some? then [Waiter(1, b)] else [])
            && s.reg == RegistryOfOne(a, now, Some(Resolved(run)))
  {
    CapacityIsConserved(limit, true, Resuming(a, b, now, run));
    RunOfSix(Initial(limit, true), Resuming(a, b, now, run));
    OneIsRegistered(limit, a, now);
    SecondHasBegun(limit, a, b, now);
    FinalizeOne(a, now, run);
    var s5 := Next(Next(OneRegistered(limit, a, now), Begin(b, Webhook)), Reserve(1));
    RegistryView(s5, Finalize(a, run));
    FinalizeIsRegistryOnly(s5, a, run);
  }

  lemma FinalizeOne(id: ExecutionId, now: nat, run: Option<string>)
    ensures RegistryNext(RegistryOfOne(id, now, None), None, true, Finalize(id, run))
            == RegistryOfOne(id, now, Some(Resolved(run)))
  {
  }

  lemma FinalizeIsRegistryOnly(s: State, id: ExecutionId, run: Option<string>)
    ensures Next(s, Finalize(id, run)) == s.(reg := RegistryNext(s.reg, None, s.regular, Finalize(id, run)))
  {
    hide RegistryNext;
  }

  /** A process in which the queue can reopen is reachable: one execution finished, one queued. */
  lemma ReopeningIsReachable(a: ExecutionId, b: ExecutionId, now: nat, run: Option<string>)
    ensures var s := Run(Initial(Some(1), true), Resuming(a, b, now, run));
            && Inv(s) && s.regular && s.gate.limit.Some? && !s.evaluationResolved && s.gate.waiting != []
            && HandlerDue(s.reg, 0) && Production(s.reg.entries[0].mode)
  {
    FirstHasSettled(Some(1), a, b, now, run);
  }

  lemma RunOfSix(s: State, steps: seq<Step>)
    requires |steps| == 6
    ensures Run(s, steps)
            == Next(Next(Next(Next(Next(Next(s, steps[0]), steps[1]), steps[2]), steps[3]), steps[4]), steps[5])
  {
    hide Next;
    assert steps[..0] == [] && steps[..6] == steps;
    RunPrefix(s, steps, 0);
    RunPrefix(s, steps, 1);
    RunPrefix(s, steps, 2);
    RunPrefix(s, steps, 3);
    RunPrefix(s, steps, 4);
    RunPrefix(s, steps, 5);
  }

  /**
   A stale handler does remove another incarnation: an execution is resumed between the
   settlement of its first promise and the handler, which then deletes by id.
   */
  lemma StaleHandlerRemovesResumed(id: ExecutionId, now: nat, later: nat, run: Option<string>)
    ensures var resumed := Next(Run(Initial(None, true), Resuming(id, id, now, run)), Register(1, later));
            && Registered(resumed.reg, 1) && Stale(resumed.reg, 0)
            && Lost(Next(resumed, RunHandler(0)).reg, 1)
  {
    var settled := Run(Initial(None, true), Resuming(id, id, now, run));
    FirstHasSettled(None, id, id, now, run);
    var resumed := Next(settled, Register(1, later));
    NextKeepsInv(settled, Register(1, later));
    StepIsEvent(settled, Register(1, later));
    RegisterOverOne(id, now, run, Attempt(id, Webhook, PastReserve), later);
    StepIsEvent(resumed, RunHandler(0));
    LostIff(resumed.reg, Joining(resumed, RunHandler(0)), resumed.regular, RunHandler(0), 1);
  }

  lemma RegisterOverOne(id: ExecutionId, now: nat, run: Option<string>, a: Attempt, later: nat)
    requires a.id == id
    ensures var r := RegistryNext(RegistryOfOne(id, now, Some(Resolved(run))), Some(a), true, Register(1, later));
            Registered(r, 1) && Stale(r, 0) && r.entries[1].promise.None? && r.entries[0].id == r.entries[1].id == id
  {
  }

  // ----- Who is let through, exactly -----

  ghost predicate SameThrottled(s: State, s': State) {
    forall t :: t in s.attempts && s.attempts[t].phase.Throttled? ==>
        t in s'.attempts && s'.attempts[t] == s.attempts[t]
  }

  predicate Pressing(s: State) {
    s.gate.enabled && s.gate.limit.Some? && s.gate.waiting != []
  }

  predicate GivesBack(s: State, t: Token) {
    t in s.acquired && Production(s.acquired[t])
  }

  /** With somebody queued: a production slot comes back, or one waiter of several is removed. */
  predicate Admits(s: State, step: Step) {
    && Pressing(s)
    && match step
       case RunHandler(t) => HandlerDue(s.reg, t) && GivesBack(s, t)
       case Abort(t) => t in s.attempts && s.attempts[t].phase.PastReserve? && GivesBack(s, t)
       case RemoveWaiter(id, mode) =>
         Production(mode) && IndexOf(s.gate.waiting, id) < |s.gate.waiting| && |s.gate.waiting| > 1
       case _ => false
  }

  lemma AdmittedGoesOn(s: State, w: Waiter)
    requires Queued(s.attempts, w)
    ensures !SameThrottled(s, Admit(s, Some(w)))
  {
    assert Admit(s, Some(w)).attempts[w.token].phase.PastReserve?;
  }

  lemma ReleaseAdmitsIff(s: State, t: Token)
    requires Queue(s.attempts, s.gate.waiting)
    ensures SameThrottled(s, ReleaseOf(s, t)) <==> !(Pressing(s) && GivesBack(s, t))
  {
    if Pressing(s) && GivesBack(s, t) {
      var w := s.gate.waiting[0];
      assert Queued(s.attempts, w);
      assert ReleaseOf(s, t).attempts[w.token].phase.PastReserve?;
    }
  }

  lemma AbortAdmitsIff(s: State, t: Token)
    requires Queue(s.attempts, s.gate.waiting) && t in s.attempts && s.attempts[t].phase.PastReserve?
    ensures SameThrottled(s, ReleaseOf(s.(attempts := s.attempts - {t}), t)) <==> !(Pressing(s) && GivesBack(s, t))
  {
    hide ReleaseOf;
    QueueDrop(s, t);
    ReleaseAdmitsIff(s.(attempts := s.attempts - {t}), t);
  }

  lemma RemoveLetsThroughIff(g: Gate, mode: Mode, id: ExecutionId)
    ensures Remove(g, mode, id).1.Some? <==>
            g.enabled && g.limit.Some? && Production(mode) && IndexOf(g.waiting, id) < |g.waiting| && |g.waiting| > 1
  {
  }

  lemma RemoveAdmitsIff(s: State, id: ExecutionId, mode: Mode)
    requires Queue(s.attempts, s.gate.waiting)
    ensures SameThrottled(s, Next(s, RemoveWaiter(id, mode))) <==> !Admits(s, RemoveWaiter(id, mode))
  {
    hide RegistryNext, ReserveStep, ReleaseOf, Remove, Queue;
    var (gate, w) := Remove(s.gate, mode, id);
    QueueAfterRemove(s.attempts, s.gate, mode, id);
    RemoveLetsThroughIff(s.gate, mode, id);
    if w.Some? { AdmittedGoesOn(s.(gate := gate), w.value); }
  }

  lemma ReserveKeepsThrottled(s: State, t: Token)
    ensures SameThrottled(s, ReserveStep(s, t))
  {
  }

  /** Exactly these events let a queued add go on. */
  lemma AdmitsIff(s: State, step: Step)
    requires Inv(s)
    ensures SameThrottled(s, Next(s, step)) <==> !Admits(s, step)
  {
    hide RegistryNext, ReserveStep, ReleaseOf, Remove, Accounted, ReleasedOnce, RegistryInv, Conserved;
    match step {
      case Reserve(t) => ReserveKeepsThrottled(s, t);
      case Abort(t) => if t in s.attempts && s.attempts[t].phase.PastReserve? { AbortAdmitsIff(s, t); }
      case RunHandler(t) =>
        if HandlerDue(s.reg, t) { ReleaseAdmitsIff(s.(reg := RegistryNext(s.reg, None, s.regular, step)), t); }
      case RemoveWaiter(id, mode) => RemoveAdmitsIff(s, id, mode);
      case _ =>
    }
  }

  lemma RunPrefix(s: State, steps: seq<Step>, k: nat)
    requires k < |steps|
    ensures Run(s, steps[..k + 1]) == Next(Run(s, steps[..k]), steps[k])
  {
    assert steps[..k + 1][..k] == steps[..k];
  }

  /** Whoever is queued at some point of the run is still queued at every later point. */
  ghost predicate NobodyGoesOn(s: State, steps: seq<Step>) {
    forall j, k :: 0 <= j <= k <= |steps| ==> SameThrottled(Run(s, steps[..j]), Run(s, steps[..k]))
  }

  ghost predicate NeverAdmits(s: State, steps: seq<Step>) {
    forall k :: 0 <= k < |steps| ==> !Admits(Run(s, steps[..k]), steps[k])
  }

  /** Throughout a run nobody queued goes on exactly if none of its events lets anybody. */
  lemma NobodyGoesOnIff(s: State, steps: seq<Step>)
    requires Inv(s)
    ensures NobodyGoesOn(s, steps) <==> NeverAdmits(s, steps)
  {
    hide Inv, Next, Admits, SameThrottled;
    if NobodyGoesOn(s, steps) {
      forall k | 0 <= k < |steps| ensures !Admits(Run(s, steps[..k]), steps[k]) {
        RunKeepsInv(s, steps[..k]);
        RunPrefix(s, steps, k);
        assert SameThrottled(Run(s, steps[..k]), Run(s, steps[..k + 1]));
        AdmitsIff(Run(s, steps[..k]), steps[k]);
      }
    }
    if NeverAdmits(s, steps) {
      forall j, k | 0 <= j <= k <= |steps| ensures SameThrottled(Run(s, steps[..j]), Run(s, steps[..k])) {
        NotAdmittedStays(s, steps, j, k);
      }
    }
  }

  lemma {:induction false} NotAdmittedStays(s: State, steps: seq<Step>, j: nat, k: nat)
    requires Inv(s) && j <= k <= |steps| && NeverAdmits(s, steps)
    ensures SameThrottled(Run(s, steps[..j]), Run(s, steps[..k]))
    decreases k
  {
    hide Inv, Next, Admits;
    if j < k {
      NotAdmittedStays(s, steps, j, k - 1);
      RunKeepsInv(s, steps[..k - 1]);
      RunPrefix(s, steps, k - 1);
      AdmitsIff(Run(s, steps[..k - 1]), steps[k - 1]);
    }
  }

  /** A disabled service is enabled again exactly by a first capped evaluation run. */
  lemma EnabledAgainIff(s: State, step: Step)
    requires !s.gate.enabled
    ensures Next(s, step).gate.enabled <==> Reopens(s, step)
  {
    hide RegistryNext, ReserveStep, ReleaseOf;
    match step {
      case Reserve(t) => DisabledReserveFreezes(s, t);
      case Abort(t) => DisabledReleaseFreezes(s.(attempts := s.attempts - {t}), t);
      case RunHandler(t) => DisabledReleaseFreezes(s.(reg := RegistryNext(s.reg, None, s.regular, step)), t);
      case _ =>
    }
  }

  lemma StepKeepsResolved(s: State, step: Step)
    requires s.evaluationResolved
    ensures Next(s, step).evaluationResolved && !Reopens(s, step)
  {
    hide RegistryNext;
  }

  lemma {:induction false} ResolvedNeverReopens(s: State, steps: seq<Step>)
    requires s.evaluationResolved
    ensures NeverReopens(s, steps) && Run(s, steps).evaluationResolved
  {
    hide Next;
    if steps != [] {
      ResolvedNeverReopens(s, steps[..|steps| - 1]);
      StepKeepsResolved(Run(s, steps[..|steps| - 1]), steps[|steps| - 1]);
    }
  }

  /**
   With two or more adds queued, a shutdown holds them back in every continuation exactly if
   the cap on evaluation runs was known when it began.
   */
  lemma ShutdownHoldsBackIff(s: State, cancelAll: bool)
    requires Inv(s) && s.regular && s.gate.limit.Some? && |s.gate.waiting| > 1
    ensures (forall steps :: SameThrottled(Next(s, Sweep(cancelAll)), Run(Next(s, Sweep(cancelAll)), steps)))
            <==> s.evaluationResolved
  {
    var swept := Next(s, Sweep(cancelAll));
    NextKeepsInv(s, Sweep(cancelAll));
    if s.evaluationResolved {
      forall steps ensures SameThrottled(swept, Run(swept, steps)) {
        ResolvedNeverReopens(swept, steps);
        DisabledRunFreezes(swept, steps);
      }
    } else {
      ReopenedByRemoval(s, cancelAll);
    }
  }

  lemma ReopenedByRemoval(s: State, cancelAll: bool)
    requires Inv(s) && s.regular && s.gate.limit.Some? && |s.gate.waiting| > 1 && !s.evaluationResolved
    ensures var swept := Next(s, Sweep(cancelAll));
            !SameThrottled(swept, Run(swept, [ResolveEvaluation(true), RemoveWaiter(s.gate.waiting[0].id, Webhook)]))
  {
    hide RegistryNext, ReserveStep, ReleaseOf, Remove;
    var swept := Next(s, Sweep(cancelAll));
    var reopened := Next(swept, ResolveEvaluation(true));
    var removal := RemoveWaiter(s.gate.waiting[0].id, Webhook);
    NextKeepsInv(s, Sweep(cancelAll));
    NextKeepsInv(swept, ResolveEvaluation(true));
    assert reopened.gate == Enable(Disable(s.gate)) && reopened.attempts == s.attempts == swept.attempts;
    assert Admits(reopened, removal);
    AdmitsIff(reopened, removal);
    RunSnoc(swept, [], ResolveEvaluation(true), [ResolveEvaluation(true)]);
    RunSnoc(swept, [ResolveEvaluation(true)], removal, [ResolveEvaluation(true), removal]);
  }

  // ----- When the limit is kept -----

  /** A production waiter is removed while another one waits. */
  predicate OverAdmits(s: State, step: Step) {
    step.RemoveWaiter? && Admits(s, step)
  }

  lemma RemovalIsBounded(g: Gate, mode: Mode, id: ExecutionId, over: nat)
    requires Bounded(g, over)
    requires !(g.enabled && g.limit.Some? && Production(mode) && IndexOf(g.waiting, id) < |g.waiting|
             && |g.waiting| > 1)
    ensures Bounded(Remove(g, mode, id).0, over)
  {
  }

  lemma OrderlyStepIsBounded(s: State, step: Step, over: nat)
    requires Bounded(s.gate, over) && !OverAdmits(s, step)
    ensures Bounded(Next(s, step).gate, over)
  {
    if step.RemoveWaiter? {
      RemovalIsBounded(s.gate, step.mode, step.id, over);
    } else {
      StepIsBounded(s, step, over);
    }
  }

  /** The state after `k` events of a regular process with this limit. */
  function At(limit: nat, steps: seq<Step>, k: nat): State
    requires k <= |steps|
  {
    Run(Initial(Some(limit), true), steps[..k])
  }

  ghost predicate KeepsLimit(limit: nat, steps: seq<Step>) {
    forall k :: 0 <= k <= |steps| && !At(limit, steps, k).shutDown ==> |Slots(At(limit, steps, k).acquired)| <= limit
  }

  ghost predicate NeverOverAdmits(limit: nat, steps: seq<Step>) {
    forall k :: 0 <= k < |steps| && !At(limit, steps, k).shutDown ==> !OverAdmits(At(limit, steps, k), steps[k])
  }

  /**
   Until it shuts down, a process keeps its limit throughout exactly if no queued execution
   is removed while another one waits.
   */
  lemma LimitIsKeptIff(limit: nat, steps: seq<Step>)
    ensures KeepsLimit(limit, steps) <==> NeverOverAdmits(limit, steps)
  {
    hide OverAdmits, Next;
    if KeepsLimit(limit, steps) {
      forall k | 0 <= k < |steps| && !At(limit, steps, k).shutDown ensures !OverAdmits(At(limit, steps, k), steps[k]) {
        assert !At(limit, steps, k + 1).shutDown ==> |Slots(At(limit, steps, k + 1).acquired)| <= limit;
        if OverAdmits(At(limit, steps, k), steps[k]) { OverAdmissionExceeds(limit, steps, k); }
      }
    }
    if NeverOverAdmits(limit, steps) {
      forall k | 0 <= k <= |steps| && !At(limit, steps, k).shutDown
        ensures |Slots(At(limit, steps, k).acquired)| <= limit
      {
        OrderlyAt(limit, steps, k);
        SlotsAreInUse(limit, steps, k);
      }
    }
  }

  lemma SlotsAreInUse(limit: nat, steps: seq<Step>, k: nat)
    requires k <= |steps| && !At(limit, steps, k).shutDown
    ensures var s := At(limit, steps, k);
            Inv(s) && s.gate.enabled && s.gate.limit == Some(limit) && InUse(s.gate) == |Slots(s.acquired)|
  {
    CapacityIsConserved(Some(limit), true, steps[..k]);
    LimitIsFixed(Initial(Some(limit), true), steps[..k]);
  }

  lemma OverAdmissionExceeds(limit: nat, steps: seq<Step>, k: nat)
    requires k < |steps| && !At(limit, steps, k).shutDown && OverAdmits(At(limit, steps, k), steps[k])
    ensures !At(limit, steps, k + 1).shutDown && |Slots(At(limit, steps, k + 1).acquired)| > limit
  {
    var s := At(limit, steps, k);
    RunPrefix(Initial(Some(limit), true), steps, k);
    StepFixesLimit(s, steps[k]);
    SlotsAreInUse(limit, steps, k);
    SlotsAreInUse(limit, steps, k + 1);
    AdmissionIsBounded(limit, true, steps[..k]);
    QueueAfterRemove(s.attempts, s.gate, steps[k].mode, steps[k].id);
    assert Next(s, steps[k]).gate == Remove(s.gate, steps[k].mode, steps[k].id).0;
  }

  lemma {:induction false} OrderlyAt(limit: nat, steps: seq<Step>, k: nat)
    requires k <= |steps| && NeverOverAdmits(limit, steps) && !At(limit, steps, k).shutDown
    ensures Bounded(At(limit, steps, k).gate, 0)
    decreases k
  {
    hide OverAdmits, Next;
    if k > 0 {
      RunPrefix(Initial(Some(limit), true), steps, k - 1);
      StepFixesLimit(At(limit, steps, k - 1), steps[k - 1]);
      OrderlyAt(limit, steps, k - 1);
      OrderlyStepIsBounded(At(limit, steps, k - 1), steps[k - 1], 0);
    }
  }

  // ----- Resuming in the same process -----

  ghost predicate StaysRegistered(s: State, steps: seq<Step>, id: ExecutionId) {
    && id in Run(s, steps).reg.active
    && (steps != [] ==> StaysRegistered(s, steps[..|steps| - 1], id))
  }

  function StartOf(r: Registry, id: ExecutionId): Option<nat> {
    if Current(r, id).Some? then Some(Current(r, id).value.startedAt) else None
  }

  lemma StartIsInherited(r: Registry, joining: Option<Attempt>, regular: bool, step: Step, id: ExecutionId)
    requires Event(r, joining, step) && id in r.active && id in RegistryNext(r, joining, regular, step).active
    ensures StartOf(RegistryNext(r, joining, regular, step), id) == StartOf(r, id)
  {
  }

  /** However often an execution is resumed while registered, it keeps its first start time. */
  lemma {:induction false} StartTimePersists(s: State, steps: seq<Step>, id: ExecutionId)
    requires Inv(s) && StaysRegistered(s, steps, id)
    ensures id in s.reg.active && StartOf(Run(s, steps).reg, id) == StartOf(s.reg, id)
  {
    if steps != [] {
      var front, last := steps[..|steps| - 1], steps[|steps| - 1];
      StartTimePersists(s, front, id);
      RunKeepsInv(s, front);
      var m := Run(s, front);
      StepIsEvent(m, last);
      StartIsInherited(m.reg, Joining(m, last), m.regular, last, id);
    }
  }
}
