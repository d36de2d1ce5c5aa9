/**
 Timers for waiting executions: packages/cli/src/wait-tracker.ts.

 The tracker maps each execution it watches to a timer handle; the runtime holds the timers
 that are still pending. The two drift apart, and `Run` follows them over any sequence of
 polls, firings, direct starts, stops and changes of leadership.
 */
module WaitTracker {
  import opened Prelude
  import ParentHandover

  type ExecutionId = string
  type TimerId = nat

  datatype State = State(
    waitingExecutions: map<ExecutionId, TimerId>,
    timers: map<TimerId, ExecutionId>,
    nextTimer: TimerId,
    mainTimer: bool)

  datatype Step =
    | StartTracking                       // the poll it triggers is a separate step
    | Poll(due: seq<ExecutionId>)         // rows with status waiting, due within 70 s
    | Fire(timer: TimerId)
    | StartExecution(id: ExecutionId)
    | StopExecution(id: ExecutionId)
    | StopTracking

  const INITIAL := State(map[], map[], 0, false)

  function Track(s: State, id: ExecutionId): State {
    if id in s.waitingExecutions then s
    else s.(waitingExecutions := s.waitingExecutions[id := s.nextTimer],
            timers := s.timers[s.nextTimer := id],
            nextTimer := s.nextTimer + 1)
  }

  function TrackAll(s: State, due: seq<ExecutionId>): State {
    if due == [] then s else Track(TrackAll(s, due[..|due| - 1]), due[|due| - 1])
  }

  function Next(s: State, step: Step): State {
    match step
    case StartTracking => s.(mainTimer := true)
    case Poll(due) => TrackAll(s, due)
    case Fire(t) =>
      if t !in s.timers then s
      else s.(waitingExecutions := s.waitingExecutions - {s.timers[t]}, timers := s.timers - {t})
    case StartExecution(id) => s.(waitingExecutions := s.waitingExecutions - {id})
    case StopExecution(id) =>
      if id !in s.waitingExecutions then s
      else s.(waitingExecutions := s.waitingExecutions - {id}, timers := s.timers - {s.waitingExecutions[id]})
    case StopTracking =>
      if !s.mainTimer then s
      else s.(timers := s.timers - Handles(s.waitingExecutions))
  }

  function Handles(waiting: map<ExecutionId, TimerId>): set<TimerId> {
    set id | id in waiting :: waiting[id]
  }

  function Run(s: State, steps: seq<Step>): State {
    if steps == [] then s else Next(Run(s, steps[..|steps| - 1]), steps[|steps| - 1])
  }

  function Pending(s: State, id: ExecutionId): set<TimerId> {
    set t | t in s.timers && s.timers[t] == id
  }

  /** Handles are this execution's own, and timers still to come are unused. */
  ghost predicate Inv(s: State) {
    && (forall t :: t in s.timers ==> t < s.nextTimer)
    && (forall id :: id in s.waitingExecutions ==>
          && s.waitingExecutions[id] < s.nextTimer
          && (s.waitingExecutions[id] in s.timers ==> s.timers[s.waitingExecutions[id]] == id))
    && (forall a, b :: a in s.waitingExecutions && b in s.waitingExecutions && a != b ==>
          s.waitingExecutions[a] != s.waitingExecutions[b])
  }

  lemma {:induction false} TrackAllKeepsInv(s: State, due: seq<ExecutionId>)
    requires Inv(s)
    ensures Inv(TrackAll(s, due))
  {
    if due != [] { TrackAllKeepsInv(s, due[..|due| - 1]); }
  }

  lemma {:induction false} RunKeepsInv(s: State, steps: seq<Step>)
    requires Inv(s)
    ensures Inv(Run(s, steps))
  {
    if steps != [] {
      var front, last := steps[..|steps| - 1], steps[|steps| - 1];
      RunKeepsInv(s, front);
      if last.Poll? { TrackAllKeepsInv(Run(s, front), last.due); }
    }
  }

  /** A poll arms exactly the due executions that are not tracked yet, one timer each. */
  lemma {:induction false} PollArms(s: State, due: seq<ExecutionId>, id: ExecutionId)
    requires Inv(s)
    ensures var s' := TrackAll(s, due);
            && s.nextTimer <= s'.nextTimer
            && (id in s'.waitingExecutions <==> id in s.waitingExecutions || id in due)
            && (id in s.waitingExecutions ==>
                  s'.waitingExecutions[id] == s.waitingExecutions[id] && Pending(s', id) == Pending(s, id))
            && (id !in s.waitingExecutions && id in due ==>
                  && s'.waitingExecutions[id] >= s.nextTimer
                  && Pending(s', id) == Pending(s, id) + {s'.waitingExecutions[id]})
            && (id !in s.waitingExecutions && id !in due ==> Pending(s', id) == Pending(s, id))
  {
    if due != [] {
      var front, last := due[..|due| - 1], due[|due| - 1];
      PollArms(s, front, id);
      TrackAllKeepsInv(s, front);
      assert due == front + [last];
      TrackArms(TrackAll(s, front), last, id);
    }
  }

  lemma TrackArms(s: State, due: ExecutionId, id: ExecutionId)
    requires Inv(s)
    ensures Pending(Track(s, due), id) ==
            if due == id && id !in s.waitingExecutions then Pending(s, id) + {s.nextTimer} else Pending(s, id)
  {
  }

  /** Tracked, but with no timer left to start it. */
  ghost predicate Stranded(s: State, id: ExecutionId) {
    id in s.waitingExecutions && Pending(s, id) == {}
  }

  /** After a poll, a due execution has a timer unless it was stranded. */
  lemma PollServesUnlessStranded(s: State, due: seq<ExecutionId>, id: ExecutionId)
    requires Inv(s) && id in due
    ensures Pending(Next(s, Poll(due)), id) != {} <==> !Stranded(s, id)
  {
    PollArms(s, due, id);
    if id !in s.waitingExecutions {
      assert TrackAll(s, due).waitingExecutions[id] in Pending(TrackAll(s, due), id);
    }
  }

  /** Losing leadership strands exactly the tracked executions without a stray timer. */
  lemma StopTrackingStrands(s: State, id: ExecutionId)
    requires Inv(s) && s.mainTimer
    ensures Stranded(Next(s, StopTracking), id) <==>
            id in s.waitingExecutions && Pending(s, id) <= {s.waitingExecutions[id]}
  {
    var s' := Next(s, StopTracking);
    if id in s.waitingExecutions {
      forall t | t in Pending(s, id) && t != s.waitingExecutions[id] ensures t in Pending(s', id) {
        assert t !in Handles(s.waitingExecutions);
      }
      assert s.waitingExecutions[id] in Handles(s.waitingExecutions);
      assert Pending(s', id) == Pending(s, id) - {s.waitingExecutions[id]};
    }
  }

  /**
   Who is tracked after an event: a poll adds the due ones; a start, a stop and the firing of
   any timer of an execution take that execution out, and no other.
   */
  lemma TrackedIff(s: State, step: Step, id: ExecutionId)
    requires Inv(s)
    ensures var s' := Next(s, step);
            && (id in s'.waitingExecutions <==>
                  match step
                  case Poll(due) => id in s.waitingExecutions || id in due
                  case Fire(t) => id in s.waitingExecutions && t !in Pending(s, id)
                  case StartExecution(i) => id in s.waitingExecutions && i != id
                  case StopExecution(i) => id in s.waitingExecutions && i != id
                  case _ => id in s.waitingExecutions)
            && (id in s.waitingExecutions && id in s'.waitingExecutions ==>
                  s'.waitingExecutions[id] == s.waitingExecutions[id])
  {
    if step.Poll? { PollArms(s, step.due, id); }
  }

  /**
   Which timers of an execution are left: a fired one is spent, a stop clears the stored one
   of the execution it names, and stepping down clears the stored ones of all. A start clears
   none, so the stored timer of an execution started directly still fires. `PollArms` says
   what a poll adds.
   */
  lemma PendingAfter(s: State, step: Step, id: ExecutionId)
    requires Inv(s) && !step.Poll?
    ensures Pending(Next(s, step), id) ==
            match step
            case Fire(t) => Pending(s, id) - {t}
            case StopExecution(i) =>
              if i == id && id in s.waitingExecutions then Pending(s, id) - {s.waitingExecutions[id]}
              else Pending(s, id)
            case StopTracking =>
              if s.mainTimer && id in s.waitingExecutions then Pending(s, id) - {s.waitingExecutions[id]}
              else Pending(s, id)
            case _ => Pending(s, id)
  {
    if step.StopTracking? && s.mainTimer { StopTrackingClears(s, id); }
  }

  lemma StopTrackingClears(s: State, id: ExecutionId)
    requires Inv(s) && s.mainTimer
    ensures Pending(Next(s, StopTracking), id) ==
            if id in s.waitingExecutions then Pending(s, id) - {s.waitingExecutions[id]} else Pending(s, id)
  {
    var s' := Next(s, StopTracking);
    forall t | t in Pending(s, id) ensures t in Pending(s', id) <==> t !in Handles(s.waitingExecutions) {}
    if id in s.waitingExecutions { assert s.waitingExecutions[id] in Handles(s.waitingExecutions); }
  }

  /** One of its timers fires, or it is started or stopped by name. */
  predicate Frees(s: State, step: Step, id: ExecutionId) {
    match step
    case Fire(t) => t in s.timers && s.timers[t] == id
    case StartExecution(i) => i == id
    case StopExecution(i) => i == id
    case _ => false
  }

  /**
   After that the execution is no longer tracked, so that it can wait again: the next poll
   that finds it due arms a timer for it.
   */
  lemma FreedIsRearmed(s: State, step: Step, due: seq<ExecutionId>, id: ExecutionId)
    requires Inv(s) && Frees(s, step, id) && id in due
    ensures id !in Next(s, step).waitingExecutions
    ensures var s'' := Next(Next(s, step), Poll(due));
            id in s''.waitingExecutions && s''.waitingExecutions[id] in Pending(s'', id)
            && s''.waitingExecutions[id] !in s.timers
  {
    RunOfOne(s, step);
    RunKeepsInv(s, [step]);
    TrackedIff(s, step, id);
    PollArms(Next(s, step), due, id);
  }

  lemma RunOfOne(s: State, step: Step)
    ensures Run(s, [step]) == Next(s, step)
  {
    RunSnoc(s, [], step, [step]);
  }

  // ----- Who is stranded, exactly -----

  /** Leadership is lost while the stored timer is the only one the execution has. */
  predicate Strands(s: State, step: Step, id: ExecutionId) {
    step == StopTracking && s.mainTimer && id in s.waitingExecutions && Pending(s, id) <= {s.waitingExecutions[id]}
  }

  /** Exactly this strands an execution, and exactly a start or a stop by name frees it again. */
  lemma StrandedIff(s: State, step: Step, id: ExecutionId)
    requires Inv(s)
    ensures Stranded(Next(s, step), id) <==>
            || (Stranded(s, id) && step != StartExecution(id) && step != StopExecution(id))
            || Strands(s, step, id)
  {
    TrackedIff(s, step, id);
    if step.Poll? { PollArms(s, step.due, id); } else { PendingAfter(s, step, id); }
  }

  lemma RunPrefix(s: State, steps: seq<Step>, k: nat)
    requires k < |steps|
    ensures Run(s, steps[..k + 1]) == Next(Run(s, steps[..k]), steps[k])
  {
    RunSnoc(s, steps[..k], steps[k], steps[..k + 1]);
  }

  /** Throughout a run an execution is never stranded exactly if leadership is never lost at such a moment. */
  lemma NeverStrandedIff(steps: seq<Step>, id: ExecutionId)
    ensures (forall k :: 0 <= k <= |steps| ==> !Stranded(Run(INITIAL, steps[..k]), id))
            <==> (forall k :: 0 <= k < |steps| ==> !Strands(Run(INITIAL, steps[..k]), steps[k], id))
  {
    hide Next, Stranded, Strands;
    if forall k :: 0 <= k <= |steps| ==> !Stranded(Run(INITIAL, steps[..k]), id) {
      forall k | 0 <= k < |steps| ensures !Strands(Run(INITIAL, steps[..k]), steps[k], id) {
        RunKeepsInv(INITIAL, steps[..k]);
        RunPrefix(INITIAL, steps, k);
        assert !Stranded(Run(INITIAL, steps[..k + 1]), id);
        StrandedIff(Run(INITIAL, steps[..k]), steps[k], id);
      }
    }
    if forall k :: 0 <= k < |steps| ==> !Strands(Run(INITIAL, steps[..k]), steps[k], id) {
      forall k | 0 <= k <= |steps| ensures !Stranded(Run(INITIAL, steps[..k]), id) { NotStrandedAt(steps, id, k); }
    }
  }

  lemma {:induction false} NotStrandedAt(steps: seq<Step>, id: ExecutionId, n: nat)
    requires n <= |steps|
    requires forall k :: 0 <= k < |steps| ==> !Strands(Run(INITIAL, steps[..k]), steps[k], id)
    ensures !Stranded(Run(INITIAL, steps[..n]), id)
  {
    hide Next, Strands;
    if n > 0 {
      NotStrandedAt(steps, id, n - 1);
      RunKeepsInv(INITIAL, steps[..n - 1]);
      RunPrefix(INITIAL, steps, n - 1);
      StrandedIff(Run(INITIAL, steps[..n - 1]), steps[n - 1], id);
    }
  }

  /** Only a start or stop that names the execution frees it: no poll or new leadership does. */
  lemma {:induction false} StrandedStays(s: State, steps: seq<Step>, id: ExecutionId)
    requires Inv(s) && Stranded(s, id)
    requires forall i :: 0 <= i < |steps| ==> steps[i] != StartExecution(id) && steps[i] != StopExecution(id)
    ensures Stranded(Run(s, steps), id)
    ensures forall t :: t in Run(s, steps).timers ==> Run(s, steps).timers[t] != id
  {
    if steps == [] {
      forall t | t in s.timers ensures s.timers[t] != id { assert t !in Pending(s, id); }
    } else {
      var front, last := steps[..|steps| - 1], steps[|steps| - 1];
      StrandedStays(s, front, id);
      RunKeepsInv(s, front);
      var m := Run(s, front);
      assert last != StartExecution(id) && last != StopExecution(id);
      if last.Poll? { PollArms(m, last.due, id); }
      assert Pending(Next(m, last), id) <= Pending(m, id);
      forall t | t in Next(m, last).timers ensures Next(m, last).timers[t] != id {
        assert t !in Pending(Next(m, last), id);
      }
    }
  }

  /**
   So an execution armed before a change of leadership is never started by this instance's
   own polling again, however often it is due.
   */
  lemma LeadershipRoundTripStrands(id: ExecutionId, steps: seq<Step>)
    requires forall i :: 0 <= i < |steps| ==> steps[i] != StartExecution(id) && steps[i] != StopExecution(id)
    ensures var s := Run(INITIAL, [StartTracking, Poll([id]), StopTracking]);
            Stranded(s, id) && Stranded(Run(s, steps), id)
  {
    RunSnoc(INITIAL, [], StartTracking, [StartTracking]);
    RunSnoc(INITIAL, [StartTracking], Poll([id]), [StartTracking, Poll([id])]);
    RunSnoc(INITIAL, [StartTracking, Poll([id])], StopTracking, [StartTracking, Poll([id]), StopTracking]);
    var tracking := Run(INITIAL, [StartTracking]);
    assert [id][..0] == [];
    assert TrackAll(tracking, [id]) == Track(TrackAll(tracking, []), id);
    StopTrackingStrands(Run(INITIAL, [StartTracking, Poll([id])]), id);
    RunKeepsInv(INITIAL, [StartTracking, Poll([id]), StopTracking]);
    StrandedStays(Run(INITIAL, [StartTracking, Poll([id]), StopTracking]), steps, id);
  }

  lemma RunSnoc(s: State, steps: seq<Step>, step: Step, all: seq<Step>)
    requires all == steps + [step]
    ensures Run(s, all) == Next(Run(s, steps), step)
  {
    assert all[..|all| - 1] == steps;
  }

  // ----- startExecution -----

  /** What the stored execution says about itself. */
  datatype Stored = Stored(finished: bool, workflowId: Option<string>, parent: Option<Option<bool>>)

  datatype RunOutcome = Ran | AlreadyResuming | RunFailed(error: string)

  datatype StartResult =
    | Unexpected(message: string) // thrown, never retried
    | Skipped                     // another resume won; not an error
    | Rethrown(error: string)
    | Started(resumesParent: bool)

  /** packages/cli/src/wait-tracker.ts: the tracker's map, with the runtime's timers. */
  class WaitTracker {
    var waitingExecutions: map<ExecutionId, TimerId>
    var timers: map<TimerId, ExecutionId>
    var nextTimer: TimerId
    var mainTimer: bool

    ghost function Abs(): State
      reads this
    {
      State(waitingExecutions, timers, nextTimer, mainTimer)
    }

    constructor ()
      ensures Abs() == INITIAL
    {
      waitingExecutions, timers, nextTimer, mainTimer := map[], map[], 0, false;
    }

    method Start()
      modifies this`mainTimer
      ensures Abs() == Next(old(Abs()), StartTracking)
    {
      mainTimer := true;
    }

    method GetWaitingExecutions(executions: seq<ExecutionId>)
      modifies this
      ensures Abs() == Next(old(Abs()), Poll(executions))
    {
      for i := 0 to |executions|
        invariant Abs() == TrackAll(old(Abs()), executions[..i])
      {
        assert executions[..i + 1][..i] == executions[..i];
        var id := executions[i];
        if id !in waitingExecutions {
          waitingExecutions := waitingExecutions[id := nextTimer];
          timers := timers[nextTimer := id];
          nextTimer := nextTimer + 1;
        }
      }
      assert executions[..|executions|] == executions;
    }

    method Stop(id: ExecutionId)
      modifies this
      ensures Abs() == Next(old(Abs()), StopExecution(id))
    {
      if id !in waitingExecutions { return; }
      timers := timers - {waitingExecutions[id]};
      waitingExecutions := waitingExecutions - {id};
    }

    /**
     `readError` and `projectError` are what reading the row and looking up its project throw,
     if anything; `stored` is the row as read; `run` is how `WorkflowRunner.run` ends.
     */
    method StartNow(id: ExecutionId, readError: Option<string>, stored: Option<Stored>, projectError: Option<string>,
                    run: RunOutcome)
      returns (r: StartResult)
      modifies this`waitingExecutions
      ensures Abs() == Next(old(Abs()), StartExecution(id))
      ensures r.Unexpected?
              <==> readError.None? && (stored.None? || stored.value.finished || stored.value.workflowId.None?)
      ensures readError.Some? ==> r == Rethrown(readError.value)
      ensures readError.None? && !r.Unexpected? ==>
                if projectError.Some? then r == Rethrown(projectError.value)
                else
                  && (r.Skipped? <==> run.AlreadyResuming?)
                  && (r.Rethrown? <==> run.RunFailed?) && (run.RunFailed? ==> r.error == run.error)
                  && (r.Started? && r.resumesParent <==> run.Ran? && ParentHandover.ShouldRestart(stored.value.parent))
    {
      waitingExecutions := waitingExecutions - {id};
      if readError.Some? { return Rethrown(readError.value); }
      if stored.None? { return Unexpected("Execution does not exist."); }
      if stored.value.finished { return Unexpected("The execution did succeed and can so not be started again."); }
      if stored.value.workflowId.None? { return Unexpected("Only saved workflows can be resumed."); }
      if projectError.Some? { return Rethrown(projectError.value); }
      match run
      case AlreadyResuming => r := Skipped;
      case RunFailed(error) => r := Rethrown(error);
      case Ran => r := Started(ParentHandover.ShouldRestart(stored.value.parent));
    }

    /** A timer's callback: the timer is spent, and `startExecution` begins. */
    method OnTimer(t: TimerId)
      modifies this
      ensures Abs() == Next(old(Abs()), Fire(t))
    {
      if t in timers {
        waitingExecutions := waitingExecutions - {timers[t]};
        timers := timers - {t};
      }
    }

    method StopTrackingAll()
      modifies this`timers
      ensures Abs() == Next(old(Abs()), StopTracking)
    {
      if !mainTimer { return; }
      var todo := waitingExecutions.Keys;
      while todo != {}
        invariant todo <= waitingExecutions.Keys
        invariant timers == old(timers) - set id | id in waitingExecutions && id !in todo :: waitingExecutions[id]
      {
        var id :| id in todo;
        ghost var cleared := set w | w in waitingExecutions && w !in todo :: waitingExecutions[w];
        timers := timers - {waitingExecutions[id]};
        todo := todo - {id};
        assert (set w | w in waitingExecutions && w !in todo :: waitingExecutions[w])
               == cleared + {waitingExecutions[id]};
      }
      assert (set w | w in waitingExecutions && w !in todo :: waitingExecutions[w]) == Handles(waitingExecutions);
    }
  }
}
