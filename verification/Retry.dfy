/**
 Retrying with exponential back-off, and resuming a parent with it: `withRetry`,
 `isRetryableResumeError` and `resumeParentExecution` of packages/cli/src/wait-tracker.ts.
 */
module Retry {
  import opened Prelude

  datatype ErrorClass = UserError | UnexpectedError | OperationalError | OtherError
  datatype Outcome = Done | Failed(error: ErrorClass)

  const MAX_PARENT_RESUME_ATTEMPTS := 3

  predicate IsRetryableResumeError(error: ErrorClass) {
    !(error.UserError? || error.UnexpectedError?)
  }

  /** Errors of the user, and unexpected ones, would only repeat themselves; every other class is tried again. */
  lemma RetriedClasses(error: ErrorClass)
    ensures IsRetryableResumeError(error) <==> error == OperationalError || error == OtherError
  {
  }

  /** Attempt `n` is the last: it succeeds, must not be retried, or exhausts the attempts. */
  predicate Final(operation: nat -> Outcome, maxAttempts: int, shouldRetry: ErrorClass -> bool, n: nat) {
    operation(n).Done? || n >= maxAttempts || !shouldRetry(operation(n).error)
  }

  /** `calls` is the first final attempt: the number of calls `withRetry` makes. */
  ghost predicate FirstFinal(operation: nat -> Outcome, maxAttempts: int, shouldRetry: ErrorClass -> bool, calls: nat) {
    && 1 <= calls && Final(operation, maxAttempts, shouldRetry, calls)
    && forall n :: 1 <= n < calls ==> !Final(operation, maxAttempts, shouldRetry, n)
  }

  /**
   `operation(n)` is what the n-th call does, counted from 1. Returns the outcome of the
   last call, how many calls were made, and the total time slept.
   */
  method WithRetry(operation: nat -> Outcome, maxAttempts: int, shouldRetry: ErrorClass -> bool)
    returns (outcome: Outcome, calls: nat, slept: nat)
    ensures FirstFinal(operation, maxAttempts, shouldRetry, calls) && outcome == operation(calls)
    ensures if maxAttempts >= 1 then calls <= maxAttempts else calls == 1
    ensures slept == 100 * (Pow2(calls - 1) - 1)
  {
    var attempt := 1;
    slept := 0;
    while true
      invariant 1 <= attempt && if maxAttempts >= 1 then attempt <= maxAttempts else attempt == 1
      invariant forall n :: 1 <= n < attempt ==> !Final(operation, maxAttempts, shouldRetry, n)
      invariant slept == 100 * (Pow2(attempt - 1) - 1)
      decreases maxAttempts - attempt
    {
      outcome := operation(attempt);
      if outcome.Done? { return outcome, attempt, slept; }
      if attempt >= maxAttempts || !shouldRetry(outcome.error) { return outcome, attempt, slept; }
      slept := slept + 100 * Pow2(attempt - 1);
      attempt := attempt + 1;
    }
  }

  /** How the promise of a child's run settles; a run without a result resolves to nothing. */
  datatype ChildPromise = Rejects | Resolves(status: Option<string>)

  predicate Finished(child: ChildPromise) {
    child.Resolves? && child.status.Some? && child.status.value != "waiting"
  }

  /**
   Resuming a parent never rejects: whatever fails is logged. The parent is started only
   after its patch was written, and a child that is itself waiting, left no result, or
   whose promise rejects, touches nothing.
   */
  method ResumeParentExecution(child: ChildPromise, update: nat -> Outcome, start: nat -> Outcome)
    returns (updates: nat, starts: nat, logged: bool)
    ensures !Finished(child) ==> updates == starts == 0 && (logged <==> child.Rejects?)
    ensures Finished(child) ==>
              && FirstFinal(update, MAX_PARENT_RESUME_ATTEMPTS, IsRetryableResumeError, updates)
              && (if update(updates).Done?
                  then FirstFinal(start, MAX_PARENT_RESUME_ATTEMPTS, IsRetryableResumeError, starts)
                  else starts == 0)
              && (logged <==> update(updates).Failed? || start(starts).Failed?)
    ensures updates <= MAX_PARENT_RESUME_ATTEMPTS && starts <= MAX_PARENT_RESUME_ATTEMPTS
  {
    updates, starts, logged := 0, 0, false;
    if child.Rejects? { return 0, 0, true; }
    if child.status.None? || child.status.value == "waiting" { return; }
    var outcome, slept;
    outcome, updates, slept := WithRetry(update, MAX_PARENT_RESUME_ATTEMPTS, IsRetryableResumeError);
    if outcome.Failed? { logged := true; return; }
    outcome, starts, slept := WithRetry(start, MAX_PARENT_RESUME_ATTEMPTS, IsRetryableResumeError);
    logged := outcome.Failed?;
  }
}
