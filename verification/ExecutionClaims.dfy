/**
 One persisted execution row, and everyone who writes its status: the claims of
 `ActiveExecutions.add`, and `setRunning`, `markAsCrashed` and `updateExistingExecution` of
 packages/@n8n/db/src/repositories/execution.repository.ts with their callers.

 A runner is an `add`, in some process, that created or claimed the row and has neither
 saved the outcome of its run nor died. Two kinds of write come from outside: a start-up
 recovery, which writes back what it made of a row it read earlier, and the second save of
 a run that has already saved. The counts in `Row` say how often the row went to wait, and
 each way it stopped waiting.
 */
module ExecutionClaims {
  import opened Prelude

  datatype Runner = Runner(process: nat, token: nat)

  datatype RowStatus = New | Running | Waiting | Success | Failed | Crashed | Canceled

  /**
   What a recovery has read of the row, amended, and is about to write: first as it is, then
   by the save hook, with the status that hook decides on.
   */
  datatype Recovery = Recovery(status: RowStatus, finished: bool, hooked: RowStatus, saved: bool)

  datatype Row = Row(
    status: RowStatus,
    finished: bool,
    startedAt: Option<nat>,
    runners: set<Runner>,
    won: set<Runner>,        // the creator and all successful claims
    recovering: map<nat, Recovery>,
    newClaims: nat,          // claims of the row while it was new
    claims: nat,             // claims of the row while it waited
    waits: nat,              // times it went to wait
    cancels: nat,            // times it was cancelled while waiting
    overwrites: nat)         // times another write ended a wait

  datatype RowStep =
    | Claim(who: Runner, expected: RowStatus)
    | SetRunning(who: Runner, now: nat)
    | Progress(who: Runner)
    | Save(who: Runner, outcome: RowStatus, finished: bool, guarded: bool)
    | Cancel
    | Crash
    | Die(who: Runner)
    | Resave(who: Runner, outcome: RowStatus, finished: bool, guarded: bool)
    | RecoverRead(recovery: nat, logged: bool, hasData: bool, waitTill: bool, failed: bool)
    | RecoverWrite(recovery: nat)

  function Created(who: Runner): Row {
    Row(New, false, None, {who}, {who}, map[], 0, 0, 0, 0, 0)
  }

  /** The condition of the claiming update; each add claims once, and only new or waiting rows. */
  predicate Wins(row: Row, step: RowStep) {
    && step.Claim? && (step.expected.New? || step.expected.Waiting?)
    && row.status == step.expected && step.who !in row.won
  }

  /** A write of the status, and what it does to the counts. */
  function Write(row: Row, status: RowStatus): Row {
    row.(status := status,
         waits := row.waits + (if status.Waiting? && !row.status.Waiting? then 1 else 0),
         overwrites := row.overwrites + (if row.status.Waiting? && !status.Waiting? then 1 else 0))
  }

  /** `determineFinalExecutionStatus`: a run that has a time to wait for is taken to wait. */
  function FinalStatus(status: RowStatus, waitTill: bool, failed: bool): RowStatus {
    if waitTill then Waiting
    else if status.Crashed? || status.Canceled? then status
    else if status.Failed? || failed then Failed
    else Success
  }

  /**
   `amend`: with event logs, an unfinished execution is taken to have crashed; without, it
   has just been marked as crashed, which a waiting or ended one ignores, and is read again.
   */
  function Amended(row: Row, logged: bool, hasData: bool): Option<RowStatus> {
    if !logged then if row.status.New? then None else Some(row.status)
    else if hasData && (row.status.Success? || row.status.Failed? || row.status.Canceled?) then None
    else Some(if row.status.Failed? then Failed else Crashed)
  }

  /** A waiting row always has a time to wait for; any other may still have one, or an error. */
  function Recovered(row: Row, status: RowStatus, waitTill: bool, failed: bool): Recovery {
    Recovery(status, row.finished, FinalStatus(status, waitTill || row.status.Waiting?, failed), false)
  }

  /** What a write from outside sets the status to, if it goes ahead. */
  function Stray(row: Row, step: RowStep): Option<RowStatus> {
    match step
    case Resave(who, outcome, _, guarded) =>
      if who in row.won && who !in row.runners && !(guarded && row.status.Canceled?) then Some(outcome) else None
    case RecoverWrite(recovery) => // first unconditionally, then by the save hook, which is guarded
      if recovery !in row.recovering then None
      else if !row.recovering[recovery].saved then Some(row.recovering[recovery].status)
      else if row.status.Canceled? then None
      else Some(row.recovering[recovery].hooked)
    case _ => None
  }

  function StrayWrite(row: Row, step: RowStep, finished: bool): Row {
    if Stray(row, step).None? then row else Write(row, Stray(row, step).value).(finished := finished)
  }

  function Claimed(row: Row, who: Runner): Row {
    row.(status := Running, runners := row.runners + {who}, won := row.won + {who},
         newClaims := row.newClaims + (if row.status.New? then 1 else 0),
         claims := row.claims + (if row.status.Waiting? then 1 else 0))
  }

  function Next(row: Row, step: RowStep): Row {
    match step
    case Claim(who, _) => if Wins(row, step) then Claimed(row, who) else row
    case SetRunning(who, now) => // unconditional; the first start time is kept
      if who !in row.runners then row
      else Write(row, Running).(startedAt := if row.startedAt.Some? then row.startedAt else Some(now))
    case Progress(who) => // requireNotFinished, requireNotCanceled
      if who !in row.runners || row.finished || row.status.Canceled? then row else Write(row, Running)
    case Save(who, outcome, finished, guarded) => // guarded: requireNotCanceled
      if who !in row.runners then row
      else
        var row' := row.(runners := row.runners - {who});
        if guarded && row.status.Canceled? then row' else Write(row', outcome).(finished := finished)
    case Cancel => row.(status := Canceled, cancels := row.cancels + (if row.status.Waiting? then 1 else 0))
    case Crash => if row.status.New? || row.status.Running? then row.(status := Crashed) else row
    case Die(who) => row.(runners := row.runners - {who})
    case Resave(_, _, finished, _) => StrayWrite(row, step, finished)
    case RecoverRead(recovery, logged, hasData, waitTill, failed) =>
      var status := Amended(row, logged, hasData);
      if status.None? then row
      else row.(recovering := row.recovering[recovery := Recovered(row, status.value, waitTill, failed)])
    case RecoverWrite(recovery) =>
      if recovery !in row.recovering then row
      else
        var r := row.recovering[recovery];
        if r.saved then StrayWrite(row, step, false).(recovering := row.recovering - {recovery})
        else StrayWrite(row, step, r.finished).(recovering := row.recovering[recovery := r.(saved := true)])
  }

  function Run(row: Row, steps: seq<RowStep>): Row {
    if steps == [] then row else Next(Run(row, steps[..|steps| - 1]), steps[|steps| - 1])
  }

  // ----- Every wait is claimed at most once -----

  function WaitingNow(row: Row): nat {
    if row.status.Waiting? then 1 else 0
  }

  /** Each wait is still going on, or ended in exactly one way; each winner won one claim. */
  ghost predicate Accounted(row: Row) {
    && row.claims + row.cancels + row.overwrites + WaitingNow(row) == row.waits
    && |row.won| == 1 + row.newClaims + row.claims
    && row.runners <= row.won
  }

  lemma WriteKeepsAccount(row: Row, status: RowStatus)
    requires Accounted(row)
    ensures Accounted(Write(row, status))
  {
  }

  lemma ClaimKeepsAccount(row: Row, step: RowStep)
    requires Accounted(row) && Wins(row, step)
    ensures Accounted(Claimed(row, step.who))
  {
    assert |row.won + {step.who}| == |row.won| + 1;
  }

  lemma StrayKeepsAccount(row: Row, step: RowStep, finished: bool)
    requires Accounted(row)
    ensures Accounted(StrayWrite(row, step, finished))
  {
    hide Stray;
    if Stray(row, step).Some? { WriteKeepsAccount(row, Stray(row, step).value); }
  }

  lemma NextKeepsAccount(row: Row, step: RowStep)
    requires Accounted(row)
    ensures Accounted(Next(row, step))
  {
    hide Write, Amended, Recovered, Stray, StrayWrite, Claimed;
    match step {
      case Claim(_, _) => if Wins(row, step) { ClaimKeepsAccount(row, step); }
      case SetRunning(_, _) => WriteKeepsAccount(row, Running);
      case Progress(_) => WriteKeepsAccount(row, Running);
      case Save(who, outcome, _, _) => WriteKeepsAccount(row.(runners := row.runners - {who}), outcome);
      case Resave(_, _, finished, _) => StrayKeepsAccount(row, step, finished);
      case RecoverWrite(recovery) =>
        StrayKeepsAccount(row, step, false);
        if recovery in row.recovering { StrayKeepsAccount(row, step, row.recovering[recovery].finished); }
      case _ =>
    }
  }

  lemma {:induction false} RunKeepsAccount(row: Row, steps: seq<RowStep>)
    requires Accounted(row)
    ensures Accounted(Run(row, steps))
  {
    if steps != [] {
      RunKeepsAccount(row, steps[..|steps| - 1]);
      NextKeepsAccount(Run(row, steps[..|steps| - 1]), steps[|steps| - 1]);
    }
  }

  /**
   Whoever races for the row, over any stretch of a run there are no more successful claims
   than waits begun in it, plus one if the row was waiting when it began.
   */
  lemma ClaimedOncePerWait(creator: Runner, before: seq<RowStep>, steps: seq<RowStep>)
    ensures var row := Run(Created(creator), before); var row' := Run(row, steps);
            && Accounted(row')
            && row'.claims <= row.claims + (row'.waits - row.waits) + WaitingNow(row)
  {
    var row := Run(Created(creator), before);
    RunKeepsAccount(Created(creator), before);
    RunKeepsAccount(row, steps);
    CountsGrow(row, steps);
  }

  ghost predicate CountsUp(row: Row, row': Row) {
    && row'.waits >= row.waits && row'.cancels >= row.cancels && row'.overwrites >= row.overwrites
    && row'.claims >= row.claims
  }

  lemma StepCountsUp(row: Row, step: RowStep)
    ensures CountsUp(row, Next(row, step))
  {
  }

  lemma {:induction false} CountsGrow(row: Row, steps: seq<RowStep>)
    ensures CountsUp(row, Run(row, steps))
  {
    if steps != [] {
      CountsGrow(row, steps[..|steps| - 1]);
      StepCountsUp(Run(row, steps[..|steps| - 1]), steps[|steps| - 1]);
    }
  }

  // ----- One runner at a time -----

  /** At most one runner, and none while the row waits. */
  ghost predicate SingleRunner(row: Row) {
    && (forall r, r' :: r in row.runners && r' in row.runners ==> r == r')
    && (row.status.Waiting? ==> row.runners == {})
  }

  /** A claim of a new row whose creator is still about to run it. */
  predicate ClaimsLiveRow(row: Row, step: RowStep) {
    Wins(row, step) && row.status.New? && row.runners != {}
  }

  /** A write from outside that puts the row back to waiting although somebody runs it. */
  predicate Reparks(row: Row, step: RowStep) {
    Stray(row, step) == Some(Waiting) && row.runners != {}
  }

  predicate Disorders(row: Row, step: RowStep) {
    ClaimsLiveRow(row, step) || Reparks(row, step)
  }

  /** A write from outside does not change who runs the row. */
  lemma StrayStatus(row: Row, step: RowStep)
    requires step.Resave? || step.RecoverRead? || step.RecoverWrite?
    ensures Next(row, step).runners == row.runners
    ensures Next(row, step).status == if Stray(row, step).Some? then Stray(row, step).value else row.status
  {
  }

  /** A claim adds its own runner; nothing else does. */
  lemma RunnersAfter(row: Row, step: RowStep)
    requires Accounted(row)
    ensures if Wins(row, step) then step.who !in row.runners && Next(row, step).runners == row.runners + {step.who}
            else Next(row, step).runners <= row.runners
  {
    if step.Resave? || step.RecoverRead? || step.RecoverWrite? { StrayStatus(row, step); }
  }

  /** Nobody but an outsider parks a row while somebody runs it. */
  lemma WaitingAfter(row: Row, step: RowStep)
    requires SingleRunner(row) && Accounted(row)
    ensures Next(row, step).status.Waiting? && Next(row, step).runners != {} <==> Reparks(row, step)
  {
    if step.Resave? || step.RecoverRead? || step.RecoverWrite? { StrayStatus(row, step); }
  }

  /** Exactly these two events give a row a second runner, or one while it waits. */
  lemma SecondRunnerIff(row: Row, step: RowStep)
    requires SingleRunner(row) && Accounted(row)
    ensures SingleRunner(Next(row, step)) <==> !Disorders(row, step)
  {
    hide Next, Stray;
    RunnersAfter(row, step);
    WaitingAfter(row, step);
    if ClaimsLiveRow(row, step) {
      var r :| r in row.runners;
      assert r in Next(row, step).runners && step.who in Next(row, step).runners && r != step.who;
    }
  }

  predicate Orderly(row: Row, steps: seq<RowStep>) {
    steps != [] ==>
      && Orderly(row, steps[..|steps| - 1])
      && !Disorders(Run(row, steps[..|steps| - 1]), steps[|steps| - 1])
  }

  /** A write from outside that ends a wait. */
  predicate Tramples(row: Row, step: RowStep) {
    row.status.Waiting? && Stray(row, step).Some? && !Stray(row, step).value.Waiting?
  }

  function Tramplings(row: Row, steps: seq<RowStep>): nat {
    if steps == [] then 0
    else
      var front, last := steps[..|steps| - 1], steps[|steps| - 1];
      Tramplings(row, front) + (if Tramples(Run(row, front), last) then 1 else 0)
  }

  /**
   In every run without such an event two adds never run the row at once, and none while
   it waits. Each wait ended by exactly one claim or cancellation, save those that a write
   from outside ended.
   */
  lemma ResumeOnce(creator: Runner, steps: seq<RowStep>)
    requires Orderly(Created(creator), steps)
    ensures var row := Run(Created(creator), steps); var trampled := Tramplings(Created(creator), steps);
            && SingleRunner(row)
            && row.claims + row.cancels == row.waits - WaitingNow(row) - trampled
            && (row.claims + row.cancels == row.waits - WaitingNow(row) <==> trampled == 0)
  {
    RunKeepsAccount(Created(creator), steps);
    OverwritesAreTramplings(creator, steps);
  }

  lemma OrderlyStep(row: Row, step: RowStep)
    requires SingleRunner(row) && Accounted(row) && !Disorders(row, step)
    ensures SingleRunner(Next(row, step))
    ensures Next(row, step).overwrites == row.overwrites + (if Tramples(row, step) then 1 else 0)
  {
    SecondRunnerIff(row, step);
  }

  lemma {:induction false} OverwritesAreTramplings(creator: Runner, steps: seq<RowStep>)
    requires Orderly(Created(creator), steps)
    ensures var row := Run(Created(creator), steps);
            SingleRunner(row) && row.overwrites == Tramplings(Created(creator), steps)
  {
    if steps != [] {
      var front, last := steps[..|steps| - 1], steps[|steps| - 1];
      OverwritesAreTramplings(creator, front);
      RunKeepsAccount(Created(creator), front);
      OrderlyStep(Run(Created(creator), front), last);
    }
  }

  /** Its run goes to wait, and a start-up recovery reads it. */
  function ReadWaiting(creator: Runner, logged: bool): seq<RowStep> {
    [Save(creator, Waiting, false, true), RecoverRead(0, logged, true, true, false)]
  }

  lemma ReadWaitingRow(creator: Runner, logged: bool)
    ensures Orderly(Created(creator), ReadWaiting(creator, logged))
    ensures var row := Run(Created(creator), ReadWaiting(creator, logged));
            && row.status.Waiting? && row.runners == {} && row.won == {creator} && row.waits == 1
            && row.claims == row.cancels == 0
            && row.recovering == map[0 := Recovery(if logged then Crashed else Waiting, false, Waiting, false)]
  {
    RunOfThree(Created(creator), ReadWaiting(creator, logged)[0], ReadWaiting(creator, logged)[1], Cancel);
  }

  /**
   A start-up recovery can end a wait that nobody claimed or cancelled: the row is crashed,
   until the recovery's own save hook starts another wait.
   */
  lemma RecoveredWait(creator: Runner)
    ensures var read := Run(Created(creator), ReadWaiting(creator, true));
            var crashed, again := Run(read, [RecoverWrite(0)]), Run(read, [RecoverWrite(0), RecoverWrite(0)]);
            && crashed.status.Crashed? && crashed.waits == 1 && crashed.claims == crashed.cancels == 0
            && again.status.Waiting? && again.waits == 2 && again.claims == again.cancels == 0
  {
    ReadWaitingRow(creator, true);
    RunOfThree(Run(Created(creator), ReadWaiting(creator, true)), RecoverWrite(0), RecoverWrite(0), Cancel);
  }

  /** It can also undo a claim, and the row is then claimed again while the first claimer runs it. */
  lemma RecoveryUndoesClaim(creator: Runner, first: Runner, second: Runner)
    requires creator != first && creator != second && first != second
    ensures var read := Run(Created(creator), ReadWaiting(creator, false));
            Run(read, [Claim(first, Waiting), RecoverWrite(0), Claim(second, Waiting)]).runners == {first, second}
  {
    ReadWaitingRow(creator, false);
    RunOfThree(Run(Created(creator), ReadWaiting(creator, false)),
               Claim(first, Waiting), RecoverWrite(0), Claim(second, Waiting));
  }

  lemma RunSnoc(row: Row, steps: seq<RowStep>, step: RowStep, all: seq<RowStep>)
    requires all == steps + [step]
    ensures Run(row, all) == Next(Run(row, steps), step)
    ensures Orderly(row, all) <==> Orderly(row, steps) && !Disorders(Run(row, steps), step)
  {
    assert all[..|all| - 1] == steps;
  }

  lemma RunOfThree(row: Row, a: RowStep, b: RowStep, c: RowStep)
    ensures Run(row, [a, b, c]) == Next(Next(Next(row, a), b), c)
    ensures Run(row, [a, b]) == Next(Next(row, a), b) && Run(row, [a]) == Next(row, a)
    ensures Orderly(row, [a, b, c]) <==>
            !Disorders(row, a) && !Disorders(Next(row, a), b) && !Disorders(Next(Next(row, a), b), c)
  {
    hide Next, Disorders;
    RunSnoc(row, [], a, [a]);
    RunSnoc(row, [a], b, [a, b]);
    RunSnoc(row, [a, b], c, [a, b, c]);
  }

  /** Recovery of a row whose creator is merely queued: both then run it. */
  lemma RecoveryOfLiveRow(creator: Runner, recoverer: Runner)
    requires creator != recoverer
    ensures var row := Run(Created(creator), [Claim(recoverer, New)]);
            row.runners == {creator, recoverer} && row.status.Running?
  {
    assert [Claim(recoverer, New)][..0] == [];
    assert Run(Created(creator), [Claim(recoverer, New)]) == Next(Created(creator), Claim(recoverer, New));
  }

  // ----- Cancellation -----

  /** The writes that take no notice of a cancellation. */
  predicate Revives(row: Row, step: RowStep) {
    match step
    case SetRunning(who, _) => who in row.runners
    case Save(who, outcome, _, guarded) => who in row.runners && !guarded && !outcome.Canceled?
    case _ => Stray(row, step).Some? && !Stray(row, step).value.Canceled?
  }

  lemma CanceledLeavesIff(row: Row, step: RowStep)
    requires row.status.Canceled?
    ensures Next(row, step).status.Canceled? <==> !Revives(row, step)
  {
  }

  lemma RunPrefix(row: Row, steps: seq<RowStep>, k: nat)
    requires k < |steps|
    ensures Run(row, steps[..k + 1]) == Next(Run(row, steps[..k]), steps[k])
  {
    assert steps[..k + 1][..k] == steps[..k];
  }

  /** From a cancellation on, the row stays cancelled throughout exactly if no write revives it. */
  lemma CanceledThroughoutIff(row: Row, steps: seq<RowStep>)
    requires row.status.Canceled?
    ensures (forall k :: 0 <= k <= |steps| ==> Run(row, steps[..k]).status.Canceled?)
            <==> (forall k :: 0 <= k < |steps| ==> !Revives(Run(row, steps[..k]), steps[k]))
  {
    if forall k :: 0 <= k <= |steps| ==> Run(row, steps[..k]).status.Canceled? {
      forall k | 0 <= k < |steps| ensures !Revives(Run(row, steps[..k]), steps[k]) {
        RunPrefix(row, steps, k);
        assert Run(row, steps[..k + 1]).status.Canceled?;
        CanceledLeavesIff(Run(row, steps[..k]), steps[k]);
      }
    }
    if forall k :: 0 <= k < |steps| ==> !Revives(Run(row, steps[..k]), steps[k]) {
      forall k | 0 <= k <= |steps| ensures Run(row, steps[..k]).status.Canceled? {
        UnrevivedStaysCanceled(row, steps, k);
      }
    }
  }

  lemma {:induction false} UnrevivedStaysCanceled(row: Row, steps: seq<RowStep>, n: nat)
    requires row.status.Canceled? && n <= |steps|
    requires forall k :: 0 <= k < |steps| ==> !Revives(Run(row, steps[..k]), steps[k])
    ensures Run(row, steps[..n]).status.Canceled?
  {
    if n > 0 {
      UnrevivedStaysCanceled(row, steps, n - 1);
      RunPrefix(row, steps, n - 1);
      CanceledLeavesIff(Run(row, steps[..n - 1]), steps[n - 1]);
    }
  }

  /** It can happen: an execution is cancelled after its add got capacity, just before `setRunning`. */
  lemma CanceledThenRunning(creator: Runner, now: nat)
    ensures Run(Created(creator), [Cancel]).status.Canceled?
    ensures Run(Created(creator), [Cancel, SetRunning(creator, now)]).status.Running?
  {
    var steps := [Cancel, SetRunning(creator, now)];
    assert steps[..0] == [] && steps[..1] == [Cancel] && steps[..2] == steps;
    RunPrefix(Created(creator), steps, 0);
    RunPrefix(Created(creator), steps, 1);
  }

  /** So can one that a start-up recovery read before it was cancelled. */
  lemma CanceledThenCrashed(creator: Runner, now: nat)
    ensures var read := Run(Created(creator), [SetRunning(creator, now), RecoverRead(0, true, true, false, false)]);
            && Run(read, [Cancel]).status.Canceled?
            && Run(read, [Cancel, RecoverWrite(0)]).status.Crashed?
            && Run(read, [Cancel, RecoverWrite(0), RecoverWrite(0)]).status.Crashed?
  {
    var steps := [SetRunning(creator, now), RecoverRead(0, true, true, false, false)];
    RunOfThree(Created(creator), steps[0], steps[1], Cancel);
    var read := Run(Created(creator), steps);
    assert read.recovering == map[0 := Recovery(Crashed, false, Crashed, false)];
    RunOfThree(read, Cancel, RecoverWrite(0), RecoverWrite(0));
  }

  predicate Ended(status: RowStatus) {
    status.Success? || status.Failed? || status.Crashed? || status.Canceled?
  }

  /** The row has ended, nobody runs it, and nobody has claimed it since. */
  predicate Over(row: Row, won: set<Runner>) {
    Ended(row.status) && row.runners == {} && row.won == won
  }

  /** A write from outside that puts back a status it read before the row ended. */
  predicate Reopens(row: Row, step: RowStep) {
    Stray(row, step).Some? && !Ended(Stray(row, step).value)
  }

  lemma OverIff(row: Row, step: RowStep, won: set<Runner>)
    requires Over(row, won)
    ensures Over(Next(row, step), won) <==> !Reopens(row, step)
  {
  }

  /**
   Once its last runner has left, an ended row is over throughout exactly if no write from
   outside reopens it.
   */
  lemma OverThroughoutIff(row: Row, steps: seq<RowStep>)
    requires Over(row, row.won)
    ensures (forall k :: 0 <= k <= |steps| ==> Over(Run(row, steps[..k]), row.won))
            <==> (forall k :: 0 <= k < |steps| ==> !Reopens(Run(row, steps[..k]), steps[k]))
  {
    if forall k :: 0 <= k <= |steps| ==> Over(Run(row, steps[..k]), row.won) {
      forall k | 0 <= k < |steps| ensures !Reopens(Run(row, steps[..k]), steps[k]) {
        RunPrefix(row, steps, k);
        assert Over(Run(row, steps[..k]), row.won) && Over(Run(row, steps[..k + 1]), row.won);
        OverIff(Run(row, steps[..k]), steps[k], row.won);
      }
    }
    if forall k :: 0 <= k < |steps| ==> !Reopens(Run(row, steps[..k]), steps[k]) {
      forall k | 0 <= k <= |steps| ensures Over(Run(row, steps[..k]), row.won) { UnopenedIsOver(row, steps, k); }
    }
  }

  lemma {:induction false} UnopenedIsOver(row: Row, steps: seq<RowStep>, n: nat)
    requires Over(row, row.won) && n <= |steps|
    requires forall k :: 0 <= k < |steps| ==> !Reopens(Run(row, steps[..k]), steps[k])
    ensures Over(Run(row, steps[..n]), row.won)
  {
    if n > 0 {
      UnopenedIsOver(row, steps, n - 1);
      RunPrefix(row, steps, n - 1);
      OverIff(Run(row, steps[..n - 1]), steps[n - 1], row.won);
    }
  }

  // ----- What is written -----

  /** The write of a live runner that is about to be refused by its guard. */
  predicate Refused(row: Row, step: RowStep) {
    match step
    case Progress(_) => row.finished || row.status == Canceled
    case Save(_, _, _, guarded) => guarded && row.status == Canceled
    case _ => false
  }

  /**
   What a runner's write leaves in the row. Nobody but a live runner writes this way; a
   refused write leaves status and `finished` alone, yet a save ends its runner all the same.
   */
  lemma RunnerWrites(row: Row, step: RowStep)
    requires step.SetRunning? || step.Progress? || step.Save? || step.Die?
    ensures var row' := Next(row, step);
            && (step.who !in row.runners ==> row' == row)
            && (step.who in row.runners ==>
                  && row'.runners == (if step.Save? || step.Die? then row.runners - {step.who} else row.runners)
                  && row'.status == (if Refused(row, step) || step.Die? then row.status
                                     else if step.Save? then step.outcome else Running)
                  && row'.finished == (if step.Save? && !Refused(row, step) then step.finished else row.finished)
                  && row'.startedAt == (if step.SetRunning? && row.startedAt == None then Some(step.now)
                                        else row.startedAt))
            && row'.won == row.won && row'.recovering == row.recovering
  {
  }

  /**
   The outcome that the last runner saves is what the row keeps: over any run in which nobody
   from outside writes it, no claim, crash, recovery or late write of anybody changes it,
   and only a cancellation can replace it.
   */
  lemma {:induction false} SavedOutcomeStands(row: Row, who: Runner, outcome: RowStatus, finished: bool, guarded: bool,
                                              steps: seq<RowStep>)
    requires row.runners == {who} && Ended(outcome) && !(guarded && row.status == Canceled)
    requires forall k :: 0 <= k < |steps| ==> !steps[k].Cancel?
    requires var saved := Next(row, Save(who, outcome, finished, guarded));
             forall k :: 0 <= k < |steps| ==> Stray(Run(saved, steps[..k]), steps[k]) == None
    ensures var row' := Run(Next(row, Save(who, outcome, finished, guarded)), steps);
            && row'.status == outcome && row'.finished == finished && row'.runners == {}
  {
    hide Next, Stray;
    var saved := Next(row, Save(who, outcome, finished, guarded));
    RunnerWrites(row, Save(who, outcome, finished, guarded));
    assert row.runners - {who} == {};
    EndedStays(saved, steps);
  }

  /** Nobody runs the row, and nobody cancels it or writes it from outside: its outcome stands. */
  lemma {:induction false} EndedStays(row: Row, steps: seq<RowStep>)
    requires row.runners == {} && Ended(row.status)
    requires forall k :: 0 <= k < |steps| ==> !steps[k].Cancel? && Stray(Run(row, steps[..k]), steps[k]) == None
    ensures var row' := Run(row, steps);
            row'.status == row.status && row'.finished == row.finished && row'.runners == {}
  {
    hide Next, Stray;
    if steps != [] {
      var n := |steps| - 1;
      assert forall k :: 0 <= k < n ==> steps[..n][k] == steps[k] && steps[..n][..k] == steps[..k];
      EndedStays(row, steps[..n]);
      QuietStep(Run(row, steps[..n]), steps[n]);
    }
  }

  lemma QuietStep(row: Row, step: RowStep)
    requires row.runners == {} && Ended(row.status) && !step.Cancel? && Stray(row, step) == None
    ensures var row' := Next(row, step);
            row'.status == row.status && row'.finished == row.finished && row'.runners == {}
  {
  }

  /** The second save of a run that has saved, guarded or not, by whoever once won the row. */
  lemma LateSaveWrites(row: Row, who: Runner, outcome: RowStatus, finished: bool, guarded: bool)
    ensures var row' := Next(row, Resave(who, outcome, finished, guarded));
            && row'.runners == row.runners && row'.won == row.won
            && if who in row.won && who !in row.runners && !(guarded && row.status == Canceled)
               then row'.status == outcome && row'.finished == finished
               else row' == row
  {
  }

  /** A cancellation takes effect on any row; a crash only on one that is new or running. */
  lemma CancelAndCrash(row: Row)
    ensures Next(row, Cancel).status == Canceled && Next(row, Cancel).runners == row.runners
    ensures Next(row, Crash).status == if row.status in {New, Running} then Crashed else row.status
  {
  }

  /**
   What a recovery makes of the row it reads. With event logs it writes `crashed`, or keeps
   `error`, and leaves a row alone whose outcome and data are stored; without, it writes back
   what it read. Its save hook then writes `waiting` over any row that waited when it was read.
   */
  lemma RecoveryVerdict(row: Row, recovery: nat, logged: bool, hasData: bool, waitTill: bool, failed: bool)
    requires recovery !in row.recovering
    ensures var read := Next(row, RecoverRead(recovery, logged, hasData, waitTill, failed));
            var first := Next(read, RecoverWrite(recovery)); var second := Next(first, RecoverWrite(recovery));
            var ignored := if logged then hasData && row.status in {Success, Failed, Canceled} else row.status == New;
            if ignored then read == first == second == row
            else
              && read.status == row.status && read.runners == row.runners
              && first.status == (if !logged || row.status == Failed then row.status else Crashed)
              && second.status == (if first.status == Canceled then Canceled
                                   else if waitTill || row.status == Waiting then Waiting
                                   else if first.status == Crashed then Crashed
                                   else if first.status == Failed || failed then Failed else Success)
              && second.recovering == row.recovering
  {
  }

  /**
   The save hook of a recovery runs later, on whatever the row has become. Unless that has been
   cancelled, it writes `waiting` if the row waited, or still had a time to wait for, when it
   was read; else the status the first write had.
   */
  lemma RecoveryHookWrites(row: Row, recovery: nat, logged: bool, hasData: bool, waitTill: bool, failed: bool,
                           later: Row)
    requires var read := Next(row, RecoverRead(recovery, logged, hasData, waitTill, failed));
             && recovery !in row.recovering && recovery in read.recovering && recovery in later.recovering
             && later.recovering[recovery] == Next(read, RecoverWrite(recovery)).recovering[recovery]
    ensures var first := if !logged || row.status == Failed then row.status else Crashed;
            Next(later, RecoverWrite(recovery)).status ==
            if later.status == Canceled then Canceled
            else if waitTill || row.status == Waiting then Waiting
            else if first == Crashed || first == Canceled then first
            else if first == Failed || failed then Failed else Success
  {
  }

  // ----- Start time -----

  lemma {:induction false} StartedAtIsKept(row: Row, steps: seq<RowStep>)
    requires row.startedAt.Some?
    ensures Run(row, steps).startedAt == row.startedAt
  {
    if steps != [] { StartedAtIsKept(row, steps[..|steps| - 1]); }
  }
}
