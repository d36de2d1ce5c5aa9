/**
 The executions active in one process: packages/cli/src/active-executions.ts, as a state
 machine over the segments between its awaits.

 Each successful `add` creates an incarnation (an entry with its own promise and its own
 capacity reservation), named here by the token of that `add`. The registry maps an
 execution id to its current incarnation only; settle handlers run later, and delete by id.
 `Run` folds any sequence of events, so every interleaving of any number of callers.
 */
module ActiveExecutions {
  import opened Prelude
  import opened Concurrency

  datatype Status = New | Running | Waiting | Ended

  datatype Settlement = Resolved(run: Option<string>) | Rejected(reason: string)

  /** An `add` in flight: before its reservation, queued for it, or past it. */
  datatype Phase = Opening | Throttled | PastReserve
  datatype Attempt = Attempt(id: ExecutionId, mode: Mode, phase: Phase)

  /** One incarnation: the registry's record and the state of its promise. */
  datatype Entry = Entry(
    id: ExecutionId,
    mode: Mode,
    status: Status,
    startedAt: nat,
    response: Option<string>,       // responsePromise
    workflow: bool,                 // workflowExecution attached
    promise: Option<Settlement>,
    handled: bool)                  // its settle handler has run

  /** The two fields of the service, and every incarnation there has been. */
  datatype Registry = Registry(
    active: map<ExecutionId, Token>,
    entries: map<Token, Entry>,
    responseModes: map<ExecutionId, string>)

  datatype State = State(
    gate: Gate,
    attempts: map<Token, Attempt>,
    acquired: map<Token, Mode>,     // reservations not yet released
    reg: Registry,
    regular: bool,
    evaluationResolved: bool,       // the cap on evaluation runs is known
    shutDown: bool,                 // `shutdown` has disabled throttling
    released: seq<Token>,           // every release that reached the service
    next: Token)

  datatype Step =
    | Begin(id: ExecutionId, mode: Mode)        // `add`, its execution id known
    | Reserve(token: Token)
    | Abort(token: Token)                       // a database call failed, or the claim was lost
    | Register(token: Token, now: nat)
    | AttachWorkflow(id: ExecutionId)
    | AttachResponse(id: ExecutionId, response: string)
    | SetResponseMode(id: ExecutionId, responseMode: string)
    | SetStatus(id: ExecutionId, status: Status)
    | Stop(id: ExecutionId, reason: string)
    | Finalize(id: ExecutionId, run: Option<string>)
    | RunHandler(token: Token)
    | RemoveWaiter(id: ExecutionId, mode: Mode)
    | Sweep(cancelAll: bool)                    // `shutdown` up to its first await
    | ResolveEvaluation(capped: bool)           // the first evaluation run reaches `throttle`

  function Initial(limit: Option<nat>, regular: bool): State {
    State(Open(if regular then limit else None), map[], map[], Registry(map[], map[], map[]), regular, false, false,
          [], 0)
  }

  // ----- The registry -----

  /** A promise keeps its first settlement. */
  function Settle(e: Entry, outcome: Settlement): Entry {
    if e.promise.Some? then e else e.(promise := Some(outcome))
  }

  /** The registered incarnation of an execution. */
  function Current(r: Registry, id: ExecutionId): Option<Entry> {
    if id in r.active && r.active[id] in r.entries then Some(r.entries[r.active[id]]) else None
  }

  /** What an event does to the entry it finds by id. */
  function Changed(e: Entry, step: Step): Entry {
    match step
    case AttachWorkflow(_) => e.(workflow := true)
    case AttachResponse(_, response) => e.(response := Some(response))
    case SetStatus(_, status) => e.(status := status)
    case Finalize(_, run) => Settle(e, Resolved(run))
    case Stop(_, reason) => Settle(e, Rejected(reason))
    case _ => e
  }

  function Change(r: Registry, id: ExecutionId, step: Step): Registry {
    var e := Current(r, id);
    if e.None? then r else r.(entries := r.entries[r.active[id] := Changed(e.value, step)])
  }

  /** Deleting is by id: whichever incarnation is registered goes. */
  function Unregister(r: Registry, id: ExecutionId): Registry {
    r.(active := r.active - {id}, responseModes := r.responseModes - {id})
  }

  /** Lines 150-161: a registered predecessor passes on its start and its response promise. */
  function Join(r: Registry, t: Token, a: Attempt, now: nat): Registry {
    var resuming := Current(r, a.id);
    var e := Entry(a.id, a.mode, Running,
                   if resuming.Some? then resuming.value.startedAt else now,
                   if resuming.Some? then resuming.value.response else None, false, None, false);
    r.(entries := r.entries[t := e], active := r.active[a.id := t])
  }

  predicate HandlerDue(r: Registry, t: Token) {
    t in r.entries && r.entries[t].promise.Some? && !r.entries[t].handled
  }

  /** Lines 171-178: delete by id unless this incarnation is waiting. */
  function CleanUp(r: Registry, t: Token): Registry
    requires t in r.entries
  {
    var e := r.entries[t];
    if e.status.Waiting? then r.(entries := r.entries[t := e.(handled := true, workflow := false)])
    else Unregister(r.(entries := r.entries[t := e.(handled := true)]), e.id)
  }

  /** What the sweep of `shutdown` deletes from the registry. */
  predicate SweptAway(rejectAll: bool, e: Entry) {
    if rejectAll then e.status.Waiting? else e.status.Waiting? || e.status.New?
  }

  function SweptEntry(r: Registry, rejectAll: bool, t: Token): Entry
    requires t in r.entries
  {
    var e := r.entries[t];
    if rejectAll && e.id in r.active && r.active[e.id] == t && !e.status.Waiting? then Settle(e, Rejected("shutdown"))
    else e
  }

  /** Lines 338-349: stop everything, or drop what would block. */
  function Swept(r: Registry, rejectAll: bool): Registry {
    Registry(
      map id | id in r.active && !(Current(r, id).Some? && SweptAway(rejectAll, Current(r, id).value)) :: r.active[id],
      map t | t in r.entries :: SweptEntry(r, rejectAll, t),
      map id | id in r.responseModes && !(rejectAll && Current(r, id).Some? && Current(r, id).value.status.Waiting?) ::
        r.responseModes[id])
  }

  /** One event, as the registry sees it; `joining` is the add that a `Register` completes. */
  function RegistryNext(r: Registry, joining: Option<Attempt>, regular: bool, step: Step): Registry {
    match step
    case Register(t, now) => if joining.None? then r else Join(r, t, joining.value, now)
    case AttachWorkflow(id) => Change(r, id, step)
    case AttachResponse(id, _) => Change(r, id, step)
    case SetStatus(id, _) => Change(r, id, step)
    case Finalize(id, _) => Change(r, id, step)
    case Stop(id, _) =>
      if Current(r, id).Some? && Current(r, id).value.status.Waiting? then Unregister(r, id) else Change(r, id, step)
    case SetResponseMode(id, m) => r.(responseModes := r.responseModes[id := m])
    case RunHandler(t) => if HandlerDue(r, t) then CleanUp(r, t) else r
    case Sweep(cancelAll) => Swept(r, regular && cancelAll)
    case _ => r
  }

  // ----- Capacity -----

  /** The waiter let through by the queue continues past its reservation. */
  function Admit(s: State, w: Option<Waiter>): State {
    if w.None? || w.value.token !in s.attempts then s
    else
      var t := w.value.token;
      s.(attempts := s.attempts[t := s.attempts[t].(phase := PastReserve)],
         acquired := s.acquired[t := s.attempts[t].mode])
  }

  /** `capacityReservation.release()`: a no-op unless something is reserved. */
  function ReleaseOf(s: State, t: Token): State {
    if t !in s.acquired then s
    else
      var (gate, w) := Release(s.gate, s.acquired[t]);
      Admit(s.(gate := gate, acquired := s.acquired - {t}, released := s.released + [t]), w)
  }

  /** Lines 106-120: evaluation runs reserve nothing. */
  function ReserveStep(s: State, t: Token): State {
    if t !in s.attempts || !s.attempts[t].phase.Opening? then s
    else
      var a := s.attempts[t];
      var past := s.(attempts := s.attempts[t := a.(phase := PastReserve)]);
      if a.mode.Evaluation? then past
      else
        var (gate, through) := Throttle(s.gate, a.mode, Waiter(t, a.id));
        if through then past.(gate := gate, acquired := s.acquired[t := a.mode])
        else s.(gate := gate, attempts := s.attempts[t := a.(phase := Throttled)])
  }

  /** The add that `step` would complete. */
  function Joining(s: State, step: Step): Option<Attempt> {
    if step.Register? && step.token in s.attempts && s.attempts[step.token].phase.PastReserve?
    then Some(s.attempts[step.token]) else None
  }

  function Next(s: State, step: Step): State {
    match step
    case Begin(id, mode) =>
      s.(attempts := s.attempts[s.next := Attempt(id, mode, Opening)], next := s.next + 1)
    case Reserve(t) => ReserveStep(s, t)
    case Abort(t) =>
      if t in s.attempts && s.attempts[t].phase.PastReserve? then ReleaseOf(s.(attempts := s.attempts - {t}), t) else s
    case RemoveWaiter(id, mode) =>
      var (gate, w) := Remove(s.gate, mode, id);
      Admit(s.(gate := gate), w)
    case Register(t, _) =>
      if Joining(s, step).None? then s
      else s.(attempts := s.attempts - {t}, reg := RegistryNext(s.reg, Joining(s, step), s.regular, step))
    case RunHandler(t) =>
      if !HandlerDue(s.reg, t) then s
      else ReleaseOf(s.(reg := RegistryNext(s.reg, None, s.regular, step)), t)
    case Sweep(_) =>
      s.(gate := if s.regular then CloseDown(s.gate) else s.gate, shutDown := s.shutDown || s.regular,
         reg := RegistryNext(s.reg, None, s.regular, step))
    case ResolveEvaluation(capped) =>
      s.(gate := if capped && s.regular && !s.evaluationResolved then Enable(s.gate) else s.gate,
         evaluationResolved := true)
    case _ => s.(reg := RegistryNext(s.reg, None, s.regular, step))
  }

  function Run(s: State, steps: seq<Step>): State {
    if steps == [] then s else Next(Run(s, steps[..|steps| - 1]), steps[|steps| - 1])
  }

  /** Every event acts on the registry as `RegistryNext` says, and on nothing else in it. */
  lemma RegistryView(s: State, step: Step)
    ensures Next(s, step).reg == RegistryNext(s.reg, Joining(s, step), s.regular, step)
    ensures Next(s, step).regular == s.regular
  {
    hide Join, Change, CleanUp, Swept, Unregister, Throttle, Release, Remove;
  }

  // ----- The invariant -----

  /** Who must be holding a reservation: adds past theirs, and incarnations not yet cleaned up. */
  predicate Holds(s: State, t: Token) {
    || (t in s.attempts && s.attempts[t].phase.PastReserve? && !s.attempts[t].mode.Evaluation?)
    || (t in s.reg.entries && !s.reg.entries[t].handled && !s.reg.entries[t].mode.Evaluation?)
  }

  /** The reservations that occupy a slot of the production queue. */
  function Slots(acquired: map<Token, Mode>): set<Token> {
    set t | t in acquired && Production(acquired[t])
  }

  ghost predicate RegistryInv(r: Registry) {
    && (forall t :: t in r.entries && r.entries[t].handled ==> r.entries[t].promise.Some?)
    && (forall id :: id in r.active ==> r.active[id] in r.entries && r.entries[r.active[id]].id == id)
  }

  ghost predicate Tokens(s: State) {
    && (forall t :: t in s.attempts ==> t !in s.reg.entries && t < s.next)
    && (forall t :: t in s.reg.entries ==> t < s.next)
    && RegistryInv(s.reg)
  }

  predicate Queued(attempts: map<Token, Attempt>, w: Waiter) {
    && w.token in attempts && attempts[w.token].phase.Throttled?
    && attempts[w.token].id == w.id && Production(attempts[w.token].mode)
  }

  ghost predicate Queue(attempts: map<Token, Attempt>, waiting: seq<Waiter>) {
    && (forall i :: 0 <= i < |waiting| ==> Queued(attempts, waiting[i]))
    && (forall i, j :: 0 <= i < j < |waiting| ==> waiting[i].token != waiting[j].token)
  }

  /** Until it shuts down, a limited process throttles and its queue accounts for every slot. */
  ghost predicate Conserved(s: State, admitting: nat) {
    s.gate.limit.Some? && !s.shutDown ==> s.gate.enabled && InUse(s.gate) == |Slots(s.acquired)| + admitting
  }

  ghost predicate ReleasedOnce(s: State) {
    && (forall i, j :: 0 <= i < j < |s.released| ==> s.released[i] != s.released[j])
    && (forall t :: t in s.released ==> t < s.next && t !in s.acquired && t !in s.attempts
                                        && (t in s.reg.entries ==> s.reg.entries[t].handled))
  }

  /** Reservations match those who must hold one, except for `t`, which is being cleaned up. */
  ghost predicate Accounted(s: State, except: Option<Token>) {
    && (forall t :: (t in s.acquired && except != Some(t)) <==> Holds(s, t))
    && (forall t :: t in s.acquired && t in s.attempts ==> s.acquired[t] == s.attempts[t].mode)
    && (forall t :: t in s.acquired && t in s.reg.entries ==> s.acquired[t] == s.reg.entries[t].mode)
  }

  ghost predicate Inv(s: State) {
    Tokens(s) && Queue(s.attempts, s.gate.waiting) && Conserved(s, 0) && ReleasedOnce(s) && Accounted(s, None)
  }

  // ----- Every event keeps the invariant -----

  lemma SlotsAdd(acquired: map<Token, Mode>, t: Token, mode: Mode)
    requires t !in acquired
    ensures |Slots(acquired[t := mode])| == |Slots(acquired)| + (if Production(mode) then 1 else 0)
  {
    assert Slots(acquired[t := mode]) == if Production(mode) then Slots(acquired) + {t} else Slots(acquired);
  }

  lemma SlotsRemove(acquired: map<Token, Mode>, t: Token)
    requires t in acquired
    ensures |Slots(acquired - {t})| == |Slots(acquired)| - (if Production(acquired[t]) then 1 else 0)
  {
    assert Slots(acquired - {t}) == Slots(acquired) - {t};
  }

  /** The moment between the queue letting `w` through and its `add` going on. */
  ghost predicate Admitting(s: State, w: Option<Waiter>) {
    && Tokens(s) && Queue(s.attempts, s.gate.waiting) && ReleasedOnce(s) && Accounted(s, None)
    && Conserved(s, if w.Some? then 1 else 0)
    && (w.Some? ==> Queued(s.attempts, w.value)
                    && forall i :: 0 <= i < |s.gate.waiting| ==> s.gate.waiting[i].token != w.value.token)
  }

  lemma AdmitKeepsInv(s: State, w: Option<Waiter>)
    requires Admitting(s, w)
    ensures Inv(Admit(s, w))
  {
    if w.Some? {
      var t := w.value.token;
      assert !Holds(s, t);
      SlotsAdd(s.acquired, t, s.attempts[t].mode);
      PastReserveAccounted(s, t);
      QueueWithout(s.attempts, s.gate.waiting, t, s.attempts[t].(phase := PastReserve));
    }
  }

  lemma PastReserveAccounted(s: State, t: Token)
    requires Tokens(s) && ReleasedOnce(s) && Accounted(s, None) && t in s.attempts && t !in s.acquired
    requires !s.attempts[t].phase.PastReserve?
    ensures var past := s.(attempts := s.attempts[t := s.attempts[t].(phase := PastReserve)]);
            var s' := if s.attempts[t].mode.Evaluation? then past
                else past.(acquired := s.acquired[t := s.attempts[t].mode]);
            Tokens(s') && ReleasedOnce(s') && Accounted(s', None)
  {
  }

  lemma QueueWithout(attempts: map<Token, Attempt>, waiting: seq<Waiter>, t: Token, a: Attempt)
    requires Queue(attempts, waiting) && forall i :: 0 <= i < |waiting| ==> waiting[i].token != t
    ensures Queue(attempts[t := a], waiting)
  {
    forall i | 0 <= i < |waiting| ensures Queued(attempts[t := a], waiting[i]) { assert Queued(attempts, waiting[i]); }
  }

  lemma QueueRest(attempts: map<Token, Attempt>, waiting: seq<Waiter>)
    requires Queue(attempts, waiting) && waiting != []
    ensures Queue(attempts, waiting[1..]) && Queued(attempts, waiting[0])
    ensures forall i :: 0 <= i < |waiting[1..]| ==> waiting[1..][i].token != waiting[0].token
  {
    forall i | 0 <= i < |waiting[1..]| ensures waiting[1..][i] == waiting[i + 1] {}
  }

  /** Releasing hands the slot of `t`, which nobody holds any more, to the next in line. */
  lemma ReleaseKeepsInv(s: State, t: Token)
    requires Tokens(s) && Queue(s.attempts, s.gate.waiting) && Conserved(s, 0) && ReleasedOnce(s)
    requires Accounted(s, Some(t)) && !Holds(s, t)
    requires t < s.next && t !in s.attempts && (t in s.reg.entries ==> s.reg.entries[t].handled)
    ensures Inv(ReleaseOf(s, t))
  {
    if t in s.acquired {
      var (gate, w) := Release(s.gate, s.acquired[t]);
      var s' := s.(gate := gate, acquired := s.acquired - {t}, released := s.released + [t]);
      SlotsRemove(s.acquired, t);
      if w.Some? { QueueRest(s.attempts, s.gate.waiting); }
      ReleasedAccounted(s, t);
      AdmitKeepsInv(s', w);
    }
  }

  lemma ReleasedAccounted(s: State, t: Token)
    requires Tokens(s) && ReleasedOnce(s) && Accounted(s, Some(t)) && !Holds(s, t) && t in s.acquired
    requires t < s.next && t !in s.attempts && (t in s.reg.entries ==> s.reg.entries[t].handled)
    ensures var s' := s.(acquired := s.acquired - {t}, released := s.released + [t]);
            ReleasedOnce(s') && Accounted(s', None)
  {
    var s' := s.(acquired := s.acquired - {t}, released := s.released + [t]);
    assert t !in s.released;
    forall i, j | 0 <= i < j < |s'.released| ensures s'.released[i] != s'.released[j] {
      if j == |s.released| { assert s.released[i] in s.released; }
    }
    forall u ensures u in s'.acquired <==> Holds(s', u) {
      assert Holds(s', u) <==> Holds(s, u);
    }
  }

  lemma BeginKeepsInv(s: State, id: ExecutionId, mode: Mode)
    requires Inv(s)
    ensures Inv(Next(s, Begin(id, mode)))
  {
    var s' := Next(s, Begin(id, mode));
    forall t ensures Holds(s', t) <==> Holds(s, t) {}
    QueueWithout(s.attempts, s.gate.waiting, s.next, Attempt(id, mode, Opening));
  }

  lemma ReserveKeepsInv(s: State, t: Token)
    requires Inv(s)
    ensures Inv(ReserveStep(s, t))
  {
    if t in s.attempts && s.attempts[t].phase.Opening? {
      var a := s.attempts[t];
      assert !Holds(s, t);
      forall i | 0 <= i < |s.gate.waiting| ensures s.gate.waiting[i].token != t {
        assert Queued(s.attempts, s.gate.waiting[i]);
      }
      if !a.mode.Evaluation? && !Throttle(s.gate, a.mode, Waiter(t, a.id)).1 {
        ThrottledKeepsInv(s, t);
      } else {
        ThroughKeepsInv(s, t);
      }
    }
  }

  lemma ThroughKeepsInv(s: State, t: Token)
    requires Inv(s) && t in s.attempts && s.attempts[t].phase.Opening? && t !in s.acquired
    requires forall i :: 0 <= i < |s.gate.waiting| ==> s.gate.waiting[i].token != t
    requires s.attempts[t].mode.Evaluation? || Throttle(s.gate, s.attempts[t].mode, Waiter(t, s.attempts[t].id)).1
    ensures Inv(ReserveStep(s, t))
  {
    var a := s.attempts[t];
    SlotsAdd(s.acquired, t, a.mode);
    PastReserveAccounted(s, t);
    QueueWithout(s.attempts, s.gate.waiting, t, a.(phase := PastReserve));
    var s' := ReserveStep(s, t);
    assert s'.gate.waiting == s.gate.waiting;
    assert Conserved(s', 0);
  }

  lemma ThrottledKeepsInv(s: State, t: Token)
    requires Inv(s) && t in s.attempts && s.attempts[t].phase.Opening?
    requires forall i :: 0 <= i < |s.gate.waiting| ==> s.gate.waiting[i].token != t
    requires !Throttle(s.gate, s.attempts[t].mode, Waiter(t, s.attempts[t].id)).1
    ensures var a := s.attempts[t];
            var gate := Throttle(s.gate, a.mode, Waiter(t, a.id)).0;
            Inv(s.(gate := gate, attempts := s.attempts[t := a.(phase := Throttled)]))
  {
    var a := s.attempts[t];
    var s' := s.(attempts := s.attempts[t := a.(phase := Throttled)]);
    forall u ensures Holds(s', u) <==> Holds(s, u) {}
    QueueWithout(s.attempts, s.gate.waiting, t, a.(phase := Throttled));
    var waiting := s.gate.waiting + [Waiter(t, a.id)];
    forall i | 0 <= i < |waiting| ensures Queued(s'.attempts, waiting[i]) {}
  }

  lemma AbortKeepsInv(s: State, t: Token)
    requires Inv(s) && t in s.attempts && s.attempts[t].phase.PastReserve?
    ensures Inv(Next(s, Abort(t)))
  {
    var s' := s.(attempts := s.attempts - {t});
    forall u | u != t ensures Holds(s', u) <==> Holds(s, u) {}
    QueueDrop(s, t);
    ReleaseKeepsInv(s', t);
  }

  /** Attempts past their reservation are not in the queue. */
  lemma QueueDrop(s: State, t: Token)
    requires Queue(s.attempts, s.gate.waiting) && t in s.attempts && !s.attempts[t].phase.Throttled?
    ensures Queue(s.attempts - {t}, s.gate.waiting)
  {
    forall i | 0 <= i < |s.gate.waiting| ensures Queued(s.attempts - {t}, s.gate.waiting[i]) {
      assert Queued(s.attempts, s.gate.waiting[i]);
    }
  }

  lemma RegisterKeepsInv(s: State, t: Token, now: nat)
    requires Inv(s) && Joining(s, Register(t, now)).Some?
    ensures Inv(Next(s, Register(t, now)))
  {
    var s' := Next(s, Register(t, now));
    forall u ensures Holds(s', u) <==> Holds(s, u) {}
    QueueDrop(s, t);
  }

  lemma RegistryNextInv(r: Registry, regular: bool, step: Step)
    requires RegistryInv(r) && !step.Register?
    ensures RegistryInv(RegistryNext(r, None, regular, step))
  {
  }

  /** `r'` has the incarnations of `r`, the same ones cleaned up, except perhaps `cleaned`. */
  predicate SameCleaned(r: Registry, r': Registry, cleaned: Option<Token>) {
    && r'.entries.Keys == r.entries.Keys
    && forall t :: t in r.entries ==>
         && r'.entries[t].mode == r.entries[t].mode
         && (r'.entries[t].handled <==> r.entries[t].handled || cleaned == Some(t))
  }

  /** The registry part of an event keeps who holds what, except for the handler's own token. */
  lemma RegistryKeeps(r: Registry, regular: bool, step: Step)
    requires RegistryInv(r) && !step.Register?
    ensures SameCleaned(r, RegistryNext(r, None, regular, step),
                        if step.RunHandler? && HandlerDue(r, step.token) then Some(step.token) else None)
  {
    match step {
      case RunHandler(t) => if HandlerDue(r, t) { CleanUpKeeps(r, t); }
      case Sweep(cancelAll) => SweptKeeps(r, regular && cancelAll);
      case _ =>
    }
  }

  lemma CleanUpKeeps(r: Registry, t: Token)
    requires t in r.entries
    ensures SameCleaned(r, CleanUp(r, t), Some(t))
  {
  }

  lemma SweptKeeps(r: Registry, rejectAll: bool)
    ensures SameCleaned(r, Swept(r, rejectAll), None)
  {
  }

  lemma RegistryOnlyKeepsInv(s: State, step: Step, gate: Gate, shutDown: bool)
    requires Inv(s) && !step.Register? && !step.RunHandler?
    requires (gate == s.gate && shutDown == s.shutDown) || (gate == Disable(s.gate) && shutDown)
    ensures Inv(s.(gate := gate, shutDown := shutDown, reg := RegistryNext(s.reg, None, s.regular, step)))
  {
    RegistryKeeps(s.reg, s.regular, step);
    RegistryNextInv(s.reg, s.regular, step);
    var s' := s.(gate := gate, shutDown := shutDown, reg := RegistryNext(s.reg, None, s.regular, step));
    forall u ensures Holds(s', u) <==> Holds(s, u) {}
  }

  lemma ResolveEvaluationKeepsInv(s: State, capped: bool)
    requires Inv(s)
    ensures Inv(Next(s, ResolveEvaluation(capped)))
  {
    var s' := Next(s, ResolveEvaluation(capped));
    forall u ensures Holds(s', u) <==> Holds(s, u) {}
  }

  lemma HandlerKeepsInv(s: State, t: Token)
    requires Inv(s) && HandlerDue(s.reg, t)
    ensures Inv(Next(s, RunHandler(t)))
  {
    RegistryKeeps(s.reg, s.regular, RunHandler(t));
    RegistryNextInv(s.reg, s.regular, RunHandler(t));
    var s' := s.(reg := RegistryNext(s.reg, None, s.regular, RunHandler(t)));
    forall u | u != t ensures Holds(s', u) <==> Holds(s, u) {}
    ReleaseKeepsInv(s', t);
  }

  lemma RemoveWaiterKeepsInv(s: State, id: ExecutionId, mode: Mode)
    requires Inv(s)
    ensures Inv(Next(s, RemoveWaiter(id, mode)))
  {
    var (gate, w) := Remove(s.gate, mode, id);
    var s' := s.(gate := gate);
    forall u ensures Holds(s', u) <==> Holds(s, u) {}
    QueueAfterRemove(s.attempts, s.gate, mode, id);
    AdmitKeepsInv(s', w);
  }

  lemma QueueAfterRemove(attempts: map<Token, Attempt>, g: Gate, mode: Mode, id: ExecutionId)
    requires Queue(attempts, g.waiting)
    ensures var (g', w) := Remove(g, mode, id);
            && Queue(attempts, g'.waiting)
            && g'.enabled == g.enabled && g'.limit == g.limit
            && (g.limit.Some? ==> InUse(g') == InUse(g) + (if w.Some? then 1 else 0))
            && (w.Some? ==> Queued(attempts, w.value)
                            && forall i :: 0 <= i < |g'.waiting| ==> g'.waiting[i].token != w.value.token)
  {
    var i := IndexOf(g.waiting, id);
    if Limits(g, mode) && i < |g.waiting| {
      var kept := g.waiting[..i] + g.waiting[i + 1..];
      QueueSkip(attempts, g.waiting, i);
      if kept != [] { QueueRest(attempts, kept); }
    }
  }

  lemma QueueSkip(attempts: map<Token, Attempt>, waiting: seq<Waiter>, i: nat)
    requires Queue(attempts, waiting) && i < |waiting|
    ensures Queue(attempts, waiting[..i] + waiting[i + 1..])
  {
    var kept := waiting[..i] + waiting[i + 1..];
    forall j | 0 <= j < |kept| ensures kept[j] == waiting[if j < i then j else j + 1] {}
  }

  /** Evaluation runs hold no reservation here. */
  lemma NoneHeldForEvaluation(s: State, t: Token)
    requires Inv(s) && t in s.acquired
    ensures !s.acquired[t].Evaluation?
  {
    assert Holds(s, t);
  }

  lemma NextKeepsInv(s: State, step: Step)
    requires Inv(s)
    ensures Inv(Next(s, step))
  {
    match step {
      case Begin(id, mode) => BeginKeepsInv(s, id, mode);
      case Reserve(t) => ReserveKeepsInv(s, t);
      case Abort(t) => if t in s.attempts && s.attempts[t].phase.PastReserve? { AbortKeepsInv(s, t); }
      case RemoveWaiter(id, mode) => RemoveWaiterKeepsInv(s, id, mode);
      case Register(t, now) => if Joining(s, step).Some? { RegisterKeepsInv(s, t, now); }
      case RunHandler(t) => if HandlerDue(s.reg, t) { HandlerKeepsInv(s, t); }
      case Sweep(_) =>
        RegistryOnlyKeepsInv(s, step, if s.regular then Disable(s.gate) else s.gate, s.shutDown || s.regular);
      case ResolveEvaluation(capped) => ResolveEvaluationKeepsInv(s, capped);
      case _ => RegistryOnlyKeepsInv(s, step, s.gate, s.shutDown);
    }
  }

  lemma {:induction false} RunKeepsInv(s: State, steps: seq<Step>)
    requires Inv(s)
    ensures Inv(Run(s, steps))
  {
    if steps != [] {
      RunKeepsInv(s, steps[..|steps| - 1]);
      NextKeepsInv(Run(s, steps[..|steps| - 1]), steps[|steps| - 1]);
    }
  }
}
