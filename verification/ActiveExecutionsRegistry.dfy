/**
 Which executions are registered, and with what: the registry of one process event by event,
 what an execution keeps when it is resumed, and what a shutdown waits for.
 */
module ActiveExecutionsRegistry {
  import opened Prelude
  import opened Concurrency
  import opened ActiveExecutions
  import opened ActiveExecutionsRuns

  // ----- Who is registered -----

  /** The events after which a registered execution no longer is. */
  predicate Leaves(r: Registry, regular: bool, step: Step, id: ExecutionId)
    requires id in r.active && r.active[id] in r.entries
  {
    var status := r.entries[r.active[id]].status;
    match step
    case Stop(i, _) => i == id && status == Waiting
    case RunHandler(u) =>
      u in r.entries && r.entries[u].promise != None && !r.entries[u].handled
      && r.entries[u].status != Waiting && r.entries[u].id == id
    case Sweep(cancelAll) => status == Waiting || (status == New && !(regular && cancelAll))
    case _ => false
  }

  /**
   A registered execution stays registered, under its own token, exactly if the event is not
   one of these; only a claim that succeeded registers one, in place of any predecessor.
   */
  lemma RegisteredIff(r: Registry, joining: Option<Attempt>, regular: bool, step: Step, id: ExecutionId)
    requires Event(r, joining, step)
    ensures var r' := RegistryNext(r, joining, regular, step);
            if step.Register? && joining.Some? && joining.value.id == id then Lookup(r'.active, id) == Some(step.token)
            else if id !in r.active then id !in r'.active
            else Lookup(r'.active, id) == if Leaves(r, regular, step, id) then None else Some(r.active[id])
  {
  }

  /** Exactly these entries survive a sweep, under their own tokens. */
  lemma SweepKeepsIff(s: State, cancelAll: bool, id: ExecutionId)
    requires Inv(s)
    ensures var s' := Next(s, Sweep(cancelAll));
            && (id in s'.reg.active <==>
                  && id in s.reg.active
                  && s.reg.entries[s.reg.active[id]].status != Waiting
                  && (!(s.regular && cancelAll) ==> s.reg.entries[s.reg.active[id]].status != New))
            && (id in s'.reg.active ==> s'.reg.active[id] == s.reg.active[id])
            && s'.reg.entries.Keys == s.reg.entries.Keys
  {
    hide Swept;
    StepIsEvent(s, Sweep(cancelAll));
    RegisteredIff(s.reg, None, s.regular, Sweep(cancelAll), id);
    SweptKeeps(s.reg, s.regular && cancelAll);
  }

  // ----- What an entry holds -----

  /** The registered record of `id`, and only it, is what an event that names `id` finds. */
  predicate Reaches(r: Registry, t: Token, id: ExecutionId)
    requires t in r.entries
  {
    r.entries[t].id == id && Registered(r, t)
  }

  /** What one event makes of the fields an existing record carries besides its promise. */
  lemma FieldsAfter(r: Registry, joining: Option<Attempt>, regular: bool, step: Step, t: Token)
    requires Event(r, joining, step) && t in r.entries
    ensures var e, r' := r.entries[t], RegistryNext(r, joining, regular, step);
            && t in r'.entries
            && r'.entries[t].status == (if step.SetStatus? && Reaches(r, t, step.id) then step.status else e.status)
            && r'.entries[t].response
               == (if step.AttachResponse? && Reaches(r, t, step.id) then Some(step.response) else e.response)
            && (r'.entries[t].workflow <==>
                  || (step.AttachWorkflow? && Reaches(r, t, step.id))
                  || (e.workflow && !(step == RunHandler(t) && e.promise.Some? && !e.handled && e.status.Waiting?)))
  {
    hide Change, Swept;
    if step.AttachWorkflow? || step.AttachResponse? || step.SetStatus? || step.Finalize? || step.Stop? {
      ChangedFields(r, step.id, step, t);
    } else if step.Sweep? {
      SweptFields(r, regular && step.cancelAll, t);
    }
  }

  lemma ChangedFields(r: Registry, id: ExecutionId, step: Step, t: Token)
    requires RegistryInv(r) && t in r.entries
    ensures var e, r' := r.entries[t], Change(r, id, step);
            && t in r'.entries
            && if Reaches(r, t, id) then r'.entries[t] == Changed(e, step) else r'.entries[t] == e
  {
  }

  lemma SweptFields(r: Registry, rejectAll: bool, t: Token)
    requires t in r.entries
    ensures var e, r' := r.entries[t], Swept(r, rejectAll);
            t in r'.entries && r'.entries[t] == e.(promise := r'.entries[t].promise)
  {
  }

  /**
   A successful add registers a running record of its own, with its own promise; the
   predecessor, if any, is untouched and only loses its place.
   */
  lemma RegisterEnrolls(s: State, t: Token, now: nat)
    requires Inv(s) && t in s.attempts && s.attempts[t].phase.PastReserve?
    ensures var s' := Next(s, Register(t, now)); var a := s.attempts[t];
            && t !in s'.attempts && t !in s.reg.entries && Registered(s'.reg, t)
            && s'.reg.entries[t].id == a.id && s'.reg.entries[t].mode == a.mode
            && s'.reg.entries[t].status == Running && s'.reg.entries[t].promise == None
            && !s'.reg.entries[t].workflow && !s'.reg.entries[t].handled
            && (a.id !in s.reg.active ==> s'.reg.entries[t].startedAt == now && s'.reg.entries[t].response == None)
            && (forall u :: u in s.reg.entries ==> u in s'.reg.entries && s'.reg.entries[u] == s.reg.entries[u])
            && (forall u :: u != t ==> (Registered(s'.reg, u) <==> Registered(s.reg, u) && s.reg.entries[u].id != a.id))
            && s'.acquired == s.acquired && s'.gate == s.gate
  {
  }

  /** Response modes are set by name, and dropped with the record they belong to. */
  lemma ResponseModesAfter(r: Registry, joining: Option<Attempt>, regular: bool, step: Step, id: ExecutionId)
    requires Event(r, joining, step)
    ensures Lookup(RegistryNext(r, joining, regular, step).responseModes, id) ==
            match step
            case SetResponseMode(i, mode) => if i == id then Some(mode) else Lookup(r.responseModes, id)
            case Sweep(cancelAll) => // without `cancelAll` the record alone is deleted
              if id in r.active && Leaves(r, regular, step, id) && regular && cancelAll then None
              else Lookup(r.responseModes, id)
            case RunHandler(u) =>
              if HandlerDue(r, u) && r.entries[u].status != Waiting && r.entries[u].id == id then None
              else Lookup(r.responseModes, id)
            case _ =>
              if id in r.active && Leaves(r, regular, step, id) then None else Lookup(r.responseModes, id)
  {
  }

  // ----- Resuming hands on the response promise -----

  function ResponseOf(r: Registry, id: ExecutionId): Option<string> {
    if id in r.active && r.active[id] in r.entries then r.entries[r.active[id]].response else None
  }

  /** The response promise attached last, if any. */
  function LastAttached(steps: seq<Step>, id: ExecutionId): Option<string> {
    if steps == [] then None
    else
      var last := steps[|steps| - 1];
      if last.AttachResponse? && last.id == id then Some(last.response) else LastAttached(steps[..|steps| - 1], id)
  }

  lemma ResponseIsInherited(r: Registry, joining: Option<Attempt>, regular: bool, step: Step, id: ExecutionId)
    requires Event(r, joining, step) && id in r.active && id in RegistryNext(r, joining, regular, step).active
    ensures ResponseOf(RegistryNext(r, joining, regular, step), id) ==
            if step.AttachResponse? && step.id == id then Some(step.response) else ResponseOf(r, id)
  {
  }

  /**
   However often an execution is resumed while registered, whoever waits for its response is
   not forgotten: it has the response promise attached last, by whichever incarnation.
   */
  lemma {:induction false} ResponsePersists(s: State, steps: seq<Step>, id: ExecutionId)
    requires Inv(s) && StaysRegistered(s, steps, id)
    ensures id in s.reg.active
    ensures ResponseOf(Run(s, steps).reg, id) ==
            if LastAttached(steps, id).Some? then LastAttached(steps, id) else ResponseOf(s.reg, id)
  {
    if steps != [] {
      var front, last := steps[..|steps| - 1], steps[|steps| - 1];
      ResponsePersists(s, front, id);
      RunKeepsInv(s, front);
      var m := Run(s, front);
      StepIsEvent(m, last);
      ResponseIsInherited(m.reg, Joining(m, last), m.regular, last, id);
    }
  }

  // ----- What a shutdown waits for -----

  /** While the shutdown waits nothing is added, goes to wait, or is swept again. */
  ghost predicate Winding(steps: seq<Step>) {
    Quiet(steps) && forall i :: 0 <= i < |steps| ==> !steps[i].Sweep?
  }

  /** The settle handler of a record of `id` runs, and finds that it does not wait. */
  predicate Ends(s: State, step: Step, id: ExecutionId) {
    && step.RunHandler? && step.token in s.reg.entries && s.reg.entries[step.token].id == id
    && s.reg.entries[step.token].promise != None && !s.reg.entries[step.token].handled
    && s.reg.entries[step.token].status != Waiting
  }

  ghost predicate NeverEnds(s: State, steps: seq<Step>, id: ExecutionId) {
    steps != [] ==>
      NeverEnds(s, steps[..|steps| - 1], id) && !Ends(Run(s, steps[..|steps| - 1]), steps[|steps| - 1], id)
  }

  lemma {:induction false} WindingKeepsIff(s: State, steps: seq<Step>, id: ExecutionId)
    requires Inv(s) && Draining(s.reg) && Winding(steps) && id in s.reg.active
    ensures id in Run(s, steps).reg.active <==> NeverEnds(s, steps, id)
  {
    if steps != [] {
      var front, last := steps[..|steps| - 1], steps[|steps| - 1];
      assert forall i :: 0 <= i < |front| ==> front[i] == steps[i];
      assert !last.Sweep? && QuietStep(last);
      WindingKeepsIff(s, front, id);
      QuietRunsDrain(s, front);
      RunKeepsInv(s, front);
      var m := Run(s, front);
      StepIsEvent(m, last);
      RegisteredIff(m.reg, Joining(m, last), m.regular, last, id);
      if id in m.reg.active { assert Current(m.reg, id).Some?; }
    }
  }

  /**
   The shutdown loop waits for an execution exactly if it was registered when the shutdown
   began, was neither waiting nor, unless everything is cancelled, new, and no handler of it
   has run to its end since.
   */
  lemma ShutdownWaitsForIff(s: State, cancelAll: bool, steps: seq<Step>, id: ExecutionId)
    requires Inv(s) && HandledWaits(s.reg) && Winding(steps)
    ensures id in Run(Next(s, Sweep(cancelAll)), steps).reg.active <==>
            && id in s.reg.active
            && s.reg.entries[s.reg.active[id]].status != Waiting
            && (s.reg.entries[s.reg.active[id]].status == New ==> s.regular && cancelAll)
            && NeverEnds(Next(s, Sweep(cancelAll)), steps, id)
  {
    hide Swept, Next;
    var swept := Next(s, Sweep(cancelAll));
    NextKeepsInv(s, Sweep(cancelAll));
    StepIsEvent(s, Sweep(cancelAll));
    assert swept.reg == Swept(s.reg, s.regular && cancelAll);
    SweepStartsDraining(s.reg, s.regular && cancelAll);
    SweepKeepsIff(s, cancelAll, id);
    if id in swept.reg.active {
      WindingKeepsIff(swept, steps, id);
    } else {
      QuietRunsDrain(swept, steps);
    }
  }
}
