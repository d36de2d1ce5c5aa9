/**
 The service itself, packages/cli/src/active-executions.ts: a map of execution records that
 its methods, and the settle handlers they schedule, update in place. Each method is one
 segment between awaits, and takes the service from `Abs()` to `Next` of it.
 */
module ActiveExecutionsService {
  import opened Prelude
  import opened Concurrency
  import opened ActiveExecutions

  /** `IExecutingWorkflowData`: the record one `add` creates, with its post-execute promise. */
  class Execution {
    const token: Token
    const id: ExecutionId
    const mode: Mode
    const startedAt: nat
    var status: Status
    var response: Option<string>
    var workflow: bool
    var promise: Option<Settlement>
    var handled: bool

    constructor (token: Token, id: ExecutionId, mode: Mode, startedAt: nat, response: Option<string>)
      ensures this.token == token && this.id == id
      ensures Value() == Entry(id, mode, Running, startedAt, response, false, None, false)
    {
      this.token, this.id, this.mode, this.startedAt := token, id, mode, startedAt;
      status, this.response, workflow, promise, handled := Running, response, false, None, false;
    }

    ghost function Value(): Entry
      reads this
    {
      Entry(id, mode, status, startedAt, response, workflow, promise, handled)
    }

    /** `resolve` and `reject` of the promise: the first call wins. */
    method SettleWith(outcome: Settlement)
      modifies this`promise
      ensures Value() == Settle(old(Value()), outcome)
    {
      if promise.None? { promise := Some(outcome); }
    }
  }

  class ActiveExecutionsService {
    const concurrencyControl: ConcurrencyControl
    const regular: bool
    var activeExecutions: map<ExecutionId, Execution>
    var responseModes: map<ExecutionId, string>
    var attempts: map<Token, Attempt>     // the calls of `add` suspended at an await
    var acquired: map<Token, Mode>        // what their reservation objects hold
    var next: Token
    ghost var shutDown: bool
    ghost var made: map<Token, Execution> // every record there has been
    ghost var released: seq<Token>

    /** A configured evaluation limit is one that is resolved from the start. */
    constructor (limit: Option<nat>, evaluationLimit: Option<nat>, regular: bool)
      ensures Valid()
      ensures Abs() == if regular && evaluationLimit.Some?
                       then Next(Initial(limit, regular), ActiveExecutions.ResolveEvaluation(true))
                       else Initial(limit, regular)
      ensures fresh(concurrencyControl)
              && (concurrencyControl.production != null ==> fresh(concurrencyControl.production))
    {
      concurrencyControl := new ConcurrencyControl(!regular, limit, evaluationLimit);
      this.regular := regular;
      activeExecutions, responseModes, attempts, acquired, next := map[], map[], map[], map[], 0;
      shutDown, made, released := false, map[], [];
    }

    /** Records are kept under their own tokens, and registered under their own ids. */
    ghost predicate Linked()
      reads this`activeExecutions, this`made
    {
      && (forall t :: t in made ==> made[t].token == t)
      && (forall id :: id in activeExecutions ==>
            var e := activeExecutions[id]; e.token in made && made[e.token] == e && e.id == id)
    }

    ghost predicate Valid()
      reads this`activeExecutions, this`made, concurrencyControl`evaluation, concurrencyControl`isEnabled
    {
      && Linked()
      && concurrencyControl.Valid() && concurrencyControl.queueMode == !regular
      && (!regular ==> !concurrencyControl.isEnabled)
    }

    ghost function Entries(): map<Token, Entry>
      reads this`made, made.Values
    {
      map t | t in made :: made[t].Value()
    }

    ghost function Active(): map<ExecutionId, Token>
      reads this`activeExecutions
    {
      map id | id in activeExecutions :: activeExecutions[id].token
    }

    ghost function Reg(): Registry
      reads this`activeExecutions, this`made, this`responseModes, made.Values
    {
      Registry(Active(), Entries(), responseModes)
    }

    ghost function Abs(): State
      reads this, made.Values, concurrencyControl, concurrencyControl.production
    {
      State(concurrencyControl.AsGate(), attempts, acquired, Reg(), regular, concurrencyControl.evalQueueResolved,
          shutDown, released, next)
    }

    // ----- `add`, segment by segment -----

    /** The row exists, or is about to be claimed: `add` is about to reserve capacity. */
    method Begin(id: ExecutionId, mode: Mode) returns (t: Token)
      requires Valid()
      modifies this`attempts, this`next
      ensures Valid() && t == old(next) && Abs() == Next(old(Abs()), ActiveExecutions.Begin(id, mode))
    {
      t := next;
      attempts := attempts[t := Attempt(id, mode, Opening)];
      next := next + 1;
    }

    /** The queue let `w` through: its `reserve` continues. */
    method Continue(w: Option<Waiter>)
      requires Valid()
      modifies this`attempts, this`acquired
      ensures Valid() && Abs() == Admit(old(Abs()), w)
    {
      if w.Some? && w.value.token in attempts {
        var a := attempts[w.value.token];
        attempts := attempts[w.value.token := a.(phase := PastReserve)];
        acquired := acquired[w.value.token := a.mode];
      }
    }

    method Reserve(t: Token)
      requires Valid()
      modifies this`attempts, this`acquired, concurrencyControl.production
      ensures Valid() && Abs() == Next(old(Abs()), ActiveExecutions.Reserve(t))
    {
      hide RegistryNext, ReleaseOf, Concurrency.Remove, Entries, Active;
      if t !in attempts || !attempts[t].phase.Opening? { return; }
      var a := attempts[t];
      if !a.mode.Evaluation? {
        var through := concurrencyControl.ThrottleOne(a.mode, Waiter(t, a.id));
        if !through {
          attempts := attempts[t := a.(phase := Throttled)];
          return;
        }
        acquired := acquired[t := a.mode];
      }
      attempts := attempts[t := a.(phase := PastReserve)];
    }

    /**
     `ConcurrencyCapacityReservation.release` of the reservation that `add` number `t` made,
     which is never one for an evaluation run.
     */
    method ReleaseReservation(t: Token)
      requires Valid() && (t in acquired ==> !acquired[t].Evaluation?)
      modifies this`attempts, this`acquired, this`released, concurrencyControl.production
      ensures Valid() && Abs() == ReleaseOf(old(Abs()), t)
    {
      hide Entries, Active, Concurrency.Release;
      if t in acquired {
        var w := concurrencyControl.ReleaseOne(acquired[t]);
        acquired := acquired - {t};
        released := released + [t];
        Continue(w);
      }
    }

    /** The `catch` of `add`, after a failed database call or a lost claim. */
    method Abort(t: Token)
      requires Valid() && t in attempts && attempts[t].phase.PastReserve?
      requires Inv(Abs())
      modifies this`attempts, this`acquired, this`released, concurrencyControl.production
      ensures Valid() && Abs() == Next(old(Abs()), ActiveExecutions.Abort(t))
    {
      hide Inv, ReleaseOf;
      if t in acquired { NoneHeldForEvaluation(Abs(), t); }
      attempts := attempts - {t};
      ReleaseReservation(t);
    }

    /** The claim succeeded: the record goes into the registry. */
    method Register(t: Token, now: nat) returns (execution: Execution)
      requires Valid() && t in attempts && attempts[t].phase.PastReserve? && t !in made
      modifies this`attempts, this`activeExecutions, this`made
      ensures Valid() && Abs() == Next(old(Abs()), ActiveExecutions.Register(t, now))
      ensures fresh(execution) && execution.token == t && made == old(made)[t := execution]
    {
      var a := attempts[t];
      attempts := attempts - {t};
      execution := Enroll(t, a, now);
    }

    /** A registered predecessor passes on its start time and its response promise. */
    method Enroll(t: Token, a: Attempt, now: nat) returns (execution: Execution)
      requires Linked() && t !in made
      modifies this`activeExecutions, this`made
      ensures Linked() && Reg() == Join(old(Reg()), t, a, now)
      ensures fresh(execution) && execution.token == t && made == old(made)[t := execution]
    {
      var startedAt, response := now, None;
      if a.id in activeExecutions {
        var resuming := activeExecutions[a.id];
        startedAt, response := resuming.startedAt, resuming.response;
        assert Current(Reg(), a.id) == Some(resuming.Value());
      }
      execution := new Execution(t, a.id, a.mode, startedAt, response);
      Insert(execution);
    }

    method Insert(execution: Execution)
      requires Linked() && execution.token !in made
      modifies this`activeExecutions, this`made
      ensures Linked() && made == old(made)[execution.token := execution]
      ensures Reg() == old(Reg()).(entries := old(Reg()).entries[execution.token := execution.Value()],
                                   active := old(Reg()).active[execution.id := execution.token])
    {
      activeExecutions := activeExecutions[execution.id := execution];
      made := made[execution.token := execution];
      assert Active() == old(Active())[execution.id := execution.token];
      assert Entries() == old(Entries())[execution.token := execution.Value()];
    }

    /** Releasing looks at the reservations and the queue only. */
    lemma HandlerStep(s: State, t: Token)
      requires HandlerDue(s.reg, t)
      ensures Next(s, ActiveExecutions.RunHandler(t)) == ReleaseOf(s, t).(reg := CleanUp(s.reg, t))
    {
    }

    lemma HandlerIsDue(execution: Execution)
      requires Linked() && execution.token in made && made[execution.token] == execution
      requires execution.promise.Some? && !execution.handled
      ensures HandlerDue(Reg(), execution.token)
    {
    }

    /** The `finally` of the post-execute promise, which closes over its own record. */
    method RunHandler(execution: Execution)
      requires Valid() && execution.token in made && made[execution.token] == execution
      requires execution.promise.Some? && !execution.handled
      requires Inv(Abs())
      modifies this`attempts, this`acquired, this`released, this`activeExecutions, this`responseModes
      modifies execution, concurrencyControl.production
      ensures Valid() && Abs() == Next(old(Abs()), ActiveExecutions.RunHandler(execution.token))
    {
      hide Inv, Next, ReleaseOf, CleanUp, Entries, Active;
      HandlerIsDue(execution);
      HandlerStep(Abs(), execution.token);
      if execution.token in acquired { NoneHeldForEvaluation(Abs(), execution.token); }
      ReleaseReservation(execution.token);
      CleanUpRecord(execution);
    }

    method CleanUpRecord(execution: Execution)
      requires Linked() && execution.token in made && made[execution.token] == execution
      requires execution.promise.Some? && !execution.handled
      modifies this`activeExecutions, this`responseModes, execution
      ensures Linked() && Reg() == CleanUp(old(Reg()), execution.token)
    {
      execution.handled := true;
      if execution.status == Waiting {
        execution.workflow := false;
      }
      assert Entries() == old(Entries())[execution.token := execution.Value()];
      if execution.status != Waiting {
        Remove(execution.id);
      }
    }

    /** The two deletions by id that end a registration. */
    method Remove(id: ExecutionId)
      requires Linked()
      modifies this`activeExecutions, this`responseModes
      ensures Linked() && Reg() == Unregister(old(Reg()), id)
      ensures activeExecutions == old(activeExecutions) - {id}
    {
      activeExecutions := activeExecutions - {id};
      responseModes := responseModes - {id};
      assert Active() == old(Active()) - {id};
    }

    // ----- Lookups by id -----

    /** `getExecutionOrFail`, with `None` for the error it throws. */
    method GetExecution(id: ExecutionId) returns (e: Option<Execution>)
      ensures e == if id in activeExecutions then Some(activeExecutions[id]) else None
    {
      if id !in activeExecutions { return None; }
      return Some(activeExecutions[id]);
    }

    /** These events change the entry found by id, if there is one, and nothing else. */
    lemma ChangeStep(s: State, step: Step)
      requires step.AttachWorkflow? || step.AttachResponse? || step.SetStatus? || step.Finalize?
      ensures Next(s, step) == s.(reg := Change(s.reg, step.id, step))
    {
    }

    lemma ChangedEntry(before: Registry, after: Registry, id: ExecutionId, step: Step)
      requires Current(before, id).Some? && after.active == before.active && after.responseModes == before.responseModes
      requires after.entries == before.entries[before.active[id] := Changed(Current(before, id).value, step)]
      ensures after == Change(before, id, step)
    {
    }

    /** The record found by id is the entry found by id. */
    lemma FoundEntry(id: ExecutionId)
      requires Linked()
      ensures Current(Reg(), id) == if id in activeExecutions then Some(activeExecutions[id].Value()) else None
      ensures id in activeExecutions ==> Reg().active[id] == activeExecutions[id].token
    {
    }

    /** An assignment to fields of a record changes its own entry only. */
    method Store(execution: Execution, status: Status, response: Option<string>, workflow: bool)
      requires Linked() && execution.token in made && made[execution.token] == execution
      modifies execution
      ensures Entries() == old(Entries())[execution.token := old(execution.Value())
                                            .(status := status, response := response, workflow := workflow)]
    {
      execution.status, execution.response, execution.workflow := status, response, workflow;
    }

    method AttachWorkflowExecution(id: ExecutionId) returns (found: bool)
      requires Valid()
      modifies activeExecutions.Values
      ensures Valid() && found == (id in activeExecutions)
      ensures Abs() == Next(old(Abs()), AttachWorkflow(id))
    {
      hide Next, Current, Entries;
      ChangeStep(Abs(), AttachWorkflow(id));
      FoundEntry(id);
      var e := GetExecution(id);
      if e.None? { return false; }
      Store(e.value, e.value.status, e.value.response, true);
      ChangedEntry(old(Reg()), Reg(), id, AttachWorkflow(id));
      return true;
    }

    method AttachResponsePromise(id: ExecutionId, response: string) returns (found: bool)
      requires Valid()
      modifies activeExecutions.Values
      ensures Valid() && found == (id in activeExecutions)
      ensures Abs() == Next(old(Abs()), AttachResponse(id, response))
    {
      hide Next, Current, Entries;
      ChangeStep(Abs(), AttachResponse(id, response));
      FoundEntry(id);
      var e := GetExecution(id);
      if e.None? { return false; }
      Store(e.value, e.value.status, Some(response), e.value.workflow);
      ChangedEntry(old(Reg()), Reg(), id, AttachResponse(id, response));
      return true;
    }

    method SetStatus(id: ExecutionId, status: Status) returns (found: bool)
      requires Valid()
      modifies activeExecutions.Values
      ensures Valid() && found == (id in activeExecutions)
      ensures Abs() == Next(old(Abs()), ActiveExecutions.SetStatus(id, status))
    {
      hide Next, Current, Entries;
      ChangeStep(Abs(), ActiveExecutions.SetStatus(id, status));
      FoundEntry(id);
      var e := GetExecution(id);
      if e.None? { return false; }
      Store(e.value, status, e.value.response, e.value.workflow);
      ChangedEntry(old(Reg()), Reg(), id, ActiveExecutions.SetStatus(id, status));
      return true;
    }

    method SetResponseMode(id: ExecutionId, responseMode: string)
      requires Valid()
      modifies this`responseModes
      ensures Valid() && Abs() == Next(old(Abs()), ActiveExecutions.SetResponseMode(id, responseMode))
    {
      responseModes := responseModes[id := responseMode];
    }

    method FinalizeExecution(id: ExecutionId, run: Option<string>)
      requires Valid()
      modifies activeExecutions.Values
      ensures Valid() && Abs() == Next(old(Abs()), Finalize(id, run))
    {
      hide Next;
      ChangeStep(Abs(), Finalize(id, run));
      if id !in activeExecutions { return; }
      activeExecutions[id].SettleWith(Resolved(run));
      assert Entries() == old(Entries())[activeExecutions[id].token := activeExecutions[id].Value()];
    }

    /** A waiting record is dropped at once; any other has its promise rejected. */
    method StopExecution(id: ExecutionId, reason: string)
      requires Valid()
      modifies this`activeExecutions, this`responseModes, activeExecutions.Values
      ensures Valid() && Abs() == Next(old(Abs()), Stop(id, reason))
    {
      hide ReserveStep, ReleaseOf, Swept, Join, CleanUp, Concurrency.Remove, Entries, Active;
      StopRecord(id, reason);
    }

    method StopRecord(id: ExecutionId, reason: string)
      requires Linked()
      modifies this`activeExecutions, this`responseModes, activeExecutions.Values
      ensures Linked() && Reg() == RegistryNext(old(Reg()), None, true, Stop(id, reason))
      ensures activeExecutions == old(activeExecutions) || activeExecutions == old(activeExecutions) - {id}
    {
      if id !in activeExecutions { return; }
      var execution := activeExecutions[id];
      assert Current(Reg(), id) == Some(execution.Value());
      if execution.status == Waiting {
        Remove(id);
      } else {
        execution.SettleWith(Rejected(reason));
        assert Entries() == old(Entries())[execution.token := execution.Value()];
      }
    }

    /** `ConcurrencyControlService.remove`, when a queued execution is stopped. */
    method RemoveWaiter(id: ExecutionId, mode: Mode)
      requires Valid()
      modifies this`attempts, this`acquired, concurrencyControl.production, concurrencyControl.evaluation
      ensures Valid() && Abs() == Next(old(Abs()), ActiveExecutions.RemoveWaiter(id, mode))
    {
      hide ReserveStep, ReleaseOf, RegistryNext, Entries, Active, Drop;
      var w := concurrencyControl.RemoveOne(mode, id);
      if !mode.Evaluation? { // the evaluation queue holds test runs, not adds
        Continue(w);
      }
    }

    /** `ensureEvalQueueResolved`: the first evaluation run has reached `throttle`. */
    method ResolveEvaluation(cap: Option<nat>)
      requires Valid()
      modifies concurrencyControl
      ensures Valid() && Abs() == Next(old(Abs()), ActiveExecutions.ResolveEvaluation(cap.Some?))
    {
      concurrencyControl.EnsureEvalQueueResolved(cap);
    }

    // ----- `shutdown`, up to its first await -----

    /** Lines 338-349: one id of the sweep's list. */
    method SweepOne(rejectAll: bool, id: ExecutionId)
      requires Linked() && id in activeExecutions
      modifies this`activeExecutions, this`responseModes, activeExecutions.Values
      ensures Linked() && Reg() == SweptOne(old(Reg()), rejectAll, id)
      ensures activeExecutions == old(activeExecutions) || activeExecutions == old(activeExecutions) - {id}
    {
      var status := activeExecutions[id].status;
      assert Current(Reg(), id) == Some(activeExecutions[id].Value());
      if rejectAll {
        StopRecord(id, "shutdown");
      } else if status == Waiting || status == New {
        activeExecutions := activeExecutions - {id};
        assert Active() == old(Active()) - {id};
      }
    }

    lemma RegIsIndexed()
      requires Linked()
      ensures Indexed(Reg()) && Reg().active.Keys == activeExecutions.Keys
    {
    }

    /** The loop over a snapshot of the ids comes to the same as `Swept`, in whatever order it goes. */
    method SweepAll(rejectAll: bool) returns (toCancel: set<ExecutionId>)
      requires Linked()
      modifies this`activeExecutions, this`responseModes, activeExecutions.Values
      ensures Linked() && Reg() == Swept(old(Reg()), rejectAll)
      ensures toCancel == if rejectAll then old(activeExecutions.Keys) else {}
    {
      hide Swept, SweptUpTo, SweptOne, Entries, Active;
      var todo := activeExecutions.Keys;
      ghost var before := Reg();
      SweptUpToNothing(before, rejectAll);
      RegIsIndexed();
      assert before.active.Keys - todo == {};
      toCancel := {};
      while todo != {}
        invariant Linked() && todo <= before.active.Keys && todo <= activeExecutions.Keys
        invariant activeExecutions.Values <= old(activeExecutions.Values)
        invariant Reg() == SweptUpTo(before, rejectAll, before.active.Keys - todo)
        invariant toCancel == if rejectAll then before.active.Keys - todo else {}
        decreases |todo|
      {
        var id :| id in todo;
        SweptUpToTodo(before, rejectAll, todo, id);
        assert before.active.Keys - (todo - {id}) == before.active.Keys - todo + {id};
        SweepOne(rejectAll, id);
        if rejectAll { toCancel := toCancel + {id}; }
        todo := todo - {id};
      }
      assert before.active.Keys - todo == before.active.Keys;
      SweptUpToAll(before, rejectAll);
    }

    /** `removeAll` on a disabled service. */
    method EmptyQueues(toCancel: set<ExecutionId>) returns (cancelled: set<ExecutionId>)
      requires concurrencyControl.Valid() && !concurrencyControl.isEnabled
      modifies concurrencyControl.production, concurrencyControl.evaluation
      ensures concurrencyControl.AsGate() == old(concurrencyControl.AsGate()) && cancelled == {}
    {
      DropAllWhileDisabled(concurrencyControl.AsGate(), QueuedIds(concurrencyControl.AsGate().waiting));
      var through;
      through, cancelled := concurrencyControl.RemoveAll(toCancel);
    }

    lemma SweepStep(s: State, cancelAll: bool)
      ensures Next(s, ActiveExecutions.Sweep(cancelAll)) ==
              s.(gate := if s.regular then Disable(s.gate) else s.gate, shutDown := s.shutDown || s.regular,
                 reg := Swept(s.reg, s.regular && cancelAll))
    {
    }

    /**
     Up to the end of `removeAll`, which by then finds the service disabled: no row that was
     to be cancelled is.
     */
    method Sweep(cancelAll: bool) returns (cancelled: set<ExecutionId>)
      requires Valid()
      modifies this`activeExecutions, this`responseModes, this`shutDown, activeExecutions.Values
      modifies concurrencyControl`isEnabled, concurrencyControl.production, concurrencyControl.evaluation
      ensures Valid() && Abs() == Next(old(Abs()), ActiveExecutions.Sweep(cancelAll))
      ensures cancelled == {}
    {
      hide Next, Swept, Entries, Active, Linked;
      SweepStep(Abs(), cancelAll);
      if regular {
        concurrencyControl.DisableAll();
        shutDown := true;
      }
      var toCancel := SweepAll(regular && cancelAll);
      cancelled := EmptyQueues(toCancel);
    }
  }

  // ----- The sweep, one id at a time -----

  /** What the loop of `shutdown` does to the registry at one id. */
  function SweptOne(r: Registry, rejectAll: bool, id: ExecutionId): Registry {
    var e := Current(r, id);
    if rejectAll then RegistryNext(r, None, true, Stop(id, "shutdown"))
    else if e.Some? && SweptAway(false, e.value) then r.(active := r.active - {id})
    else r
  }

  ghost predicate Indexed(r: Registry) {
    forall id :: id in r.active ==> r.active[id] in r.entries && r.entries[r.active[id]].id == id
  }

  function SweptUpTo(r: Registry, rejectAll: bool, done: set<ExecutionId>): Registry {
    var swept := Swept(r, rejectAll);
    Registry(
      map id | id in r.active && (id !in done || id in swept.active) :: r.active[id],
      map t | t in r.entries :: if r.entries[t].id in done then SweptEntry(r, rejectAll, t) else r.entries[t],
      map id | id in r.responseModes && (id !in done || id in swept.responseModes) :: r.responseModes[id])
  }

  lemma SweptUpToNothing(r: Registry, rejectAll: bool)
    ensures SweptUpTo(r, rejectAll, {}) == r
  {
  }

  lemma SweptUpToAll(r: Registry, rejectAll: bool)
    requires Indexed(r)
    ensures SweptUpTo(r, rejectAll, r.active.Keys) == Swept(r, rejectAll)
  {
  }

  lemma SweptUpToFinds(r: Registry, rejectAll: bool, done: set<ExecutionId>, id: ExecutionId)
    requires Indexed(r) && id in r.active && id !in done
    ensures Current(SweptUpTo(r, rejectAll, done), id) == Current(r, id)
    ensures SweptUpTo(r, rejectAll, done).active[id] == r.active[id]
  {
  }

  lemma SweptUpToDropsActive(r: Registry, rejectAll: bool, done: set<ExecutionId>, id: ExecutionId)
    requires Indexed(r) && id in r.active && id !in done && SweptAway(rejectAll, r.entries[r.active[id]])
    ensures SweptUpTo(r, rejectAll, done + {id}).active == SweptUpTo(r, rejectAll, done).active - {id}
  {
  }

  lemma SweptUpToDropsModes(r: Registry, rejectAll: bool, done: set<ExecutionId>, id: ExecutionId)
    requires Indexed(r) && id in r.active && id !in done && SweptAway(rejectAll, r.entries[r.active[id]])
    ensures var modes := SweptUpTo(r, rejectAll, done).responseModes;
            SweptUpTo(r, rejectAll, done + {id}).responseModes == if rejectAll then modes - {id} else modes
  {
  }

  lemma SweptUpToDropped(r: Registry, rejectAll: bool, done: set<ExecutionId>, id: ExecutionId)
    requires Indexed(r) && id in r.active && id !in done && SweptAway(rejectAll, r.entries[r.active[id]])
    ensures var part := SweptUpTo(r, rejectAll, done);
            SweptUpTo(r, rejectAll, done + {id})
            == part.(active := part.active - {id},
                     responseModes := if rejectAll then part.responseModes - {id} else part.responseModes)
  {
    SweptUpToDropsActive(r, rejectAll, done, id);
    SweptUpToDropsModes(r, rejectAll, done, id);
    assert SweptUpTo(r, rejectAll, done + {id}).entries == SweptUpTo(r, rejectAll, done).entries;
  }

  lemma SweptUpToKept(r: Registry, rejectAll: bool, done: set<ExecutionId>, id: ExecutionId)
    requires Indexed(r) && id in r.active && id !in done && !SweptAway(rejectAll, r.entries[r.active[id]])
    ensures var part, e := SweptUpTo(r, rejectAll, done), r.entries[r.active[id]];
            SweptUpTo(r, rejectAll, done + {id})
            == if rejectAll then part.(entries := part.entries[r.active[id] := Settle(e, Rejected("shutdown"))])
               else part
  {
    var part, more, e := SweptUpTo(r, rejectAll, done), SweptUpTo(r, rejectAll, done + {id}), r.entries[r.active[id]];
    assert more.active == part.active;
    assert more.responseModes == part.responseModes;
    assert more.entries == if rejectAll then part.entries[r.active[id] := Settle(e, Rejected("shutdown"))]
           else part.entries;
  }

  lemma SweptUpToNext(r: Registry, rejectAll: bool, done: set<ExecutionId>, id: ExecutionId)
    requires Indexed(r) && id in r.active && id !in done
    ensures SweptUpTo(r, rejectAll, done + {id}) == SweptOne(SweptUpTo(r, rejectAll, done), rejectAll, id)
  {
    SweptUpToFinds(r, rejectAll, done, id);
    if SweptAway(rejectAll, r.entries[r.active[id]]) {
      SweptUpToDropped(r, rejectAll, done, id);
    } else {
      SweptUpToKept(r, rejectAll, done, id);
    }
  }

  lemma SweptUpToTodo(r: Registry, rejectAll: bool, todo: set<ExecutionId>, id: ExecutionId)
    requires Indexed(r) && id in r.active && id in todo
    ensures SweptUpTo(r, rejectAll, r.active.Keys - (todo - {id}))
            == SweptOne(SweptUpTo(r, rejectAll, r.active.Keys - todo), rejectAll, id)
  {
    SweptUpToNext(r, rejectAll, r.active.Keys - todo, id);
    assert r.active.Keys - todo + {id} == r.active.Keys - (todo - {id});
  }
}
