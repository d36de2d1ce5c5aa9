/**
 Execution time limits: `determineWorkflowDeadline` and `resolveSubworkflowDeadline` of
 packages/cli/src/workflow-execute-additional-data.ts, and the soft and hard limits of
 `runMainProcess` in packages/cli/src/workflow-runner.ts. Times are milliseconds, configured
 timeouts are seconds.
 */
module Deadlines {
  import opened Prelude

  datatype Config = Config(timeout: int, maxTimeout: int)

  function Min(a: int, b: int): int { if a <= b then a else b }
  function Max(a: int, b: int): int { if a >= b then a else b }

  // ----- Sub-workflows -----

  function DetermineDeadline(startTime: int, own: Option<int>, config: Config): Option<int> {
    var seconds := own.GetOr(config.timeout);
    if seconds <= 0 then None
    else Some(startTime + (if config.maxTimeout > 0 then Min(seconds, config.maxTimeout) else seconds) * 1000)
  }

  function ResolveSubworkflowDeadline(own: Option<int>, parent: Option<int>, doNotWait: bool): Option<int> {
    if doNotWait then own
    else if parent.Some? && own.Some? then Some(Min(parent.value, own.value))
    else if parent.Some? then parent
    else own
  }

  /** One sub-workflow call: the child's own deadline, and whether the caller waits for it. */
  datatype Link = Link(own: Option<int>, doNotWait: bool)

  /** `executionTimeoutTimestamp` at the end of a chain of calls from `root`. */
  function Effective(root: Option<int>, links: seq<Link>): Option<int> {
    if links == [] then root
    else
      var last := links[|links| - 1];
      ResolveSubworkflowDeadline(last.own, Effective(root, links[..|links| - 1]), last.doNotWait)
  }

  /** The own deadlines that still bind: since the last call nobody waits for, or the root. */
  function Binding(root: Option<int>, links: seq<Link>): seq<Option<int>> {
    if links == [] then [root]
    else
      var last := links[|links| - 1];
      if last.doNotWait then [last.own] else Binding(root, links[..|links| - 1]) + [last.own]
  }

  ghost predicate IsMinimum(d: Option<int>, ds: seq<Option<int>>) {
    && (forall i :: 0 <= i < |ds| && ds[i].Some? ==> d.Some? && d.value <= ds[i].value)
    && (d.Some? ==> d in ds)
  }

  lemma {:induction false} EffectiveIsMinimum(root: Option<int>, links: seq<Link>)
    ensures IsMinimum(Effective(root, links), Binding(root, links))
  {
    if links == [] {
      assert root in [root];
    } else {
      var front, last := links[..|links| - 1], links[|links| - 1];
      EffectiveIsMinimum(root, front);
      var d, ds := Effective(root, links), Binding(root, links);
      assert ds[|ds| - 1] == last.own;
      if !last.doNotWait {
        var e, es := Effective(root, front), Binding(root, front);
        forall i | 0 <= i < |ds| && ds[i].Some? ensures d.Some? && d.value <= ds[i].value {
          if i < |es| { assert ds[i] == es[i]; }
        }
        if d.Some? && d != last.own { assert d == e && e in es; }
      }
    }
  }

  /** A child that is waited for, at any depth, never outlives a waiting ancestor. */
  lemma {:induction false} SynchronousChildEndsFirst(root: Option<int>, links: seq<Link>, i: nat, j: nat)
    requires i <= j <= |links|
    requires forall k :: i <= k < j ==> !links[k].doNotWait
    ensures var ancestor, child := Effective(root, links[..i]), Effective(root, links[..j]);
            ancestor.Some? ==> child.Some? && child.value <= ancestor.value
  {
    if i < j {
      SynchronousChildEndsFirst(root, links, i, j - 1);
      assert links[..j][..j - 1] == links[..j - 1];
    }
  }

  // ----- The main process -----

  /** The clamp at the top of `runMainProcess`; zero or less means no limit. */
  function WorkflowTimeout(own: Option<int>, config: Config): int {
    var seconds := own.GetOr(config.timeout);
    if seconds > 0 then Min(seconds, config.maxTimeout) else seconds
  }

  function SoftDeadline(now: int, own: Option<int>, config: Config): Option<int> {
    var t := WorkflowTimeout(own, config);
    if t <= 0 then None else Some(now + t * 1000)
  }

  /**
   The two computations of a soft deadline agree exactly when the maximum is positive or no
   timeout is set: with a maximum of zero or less the main process enforces no limit at
   all, while a sub-workflow keeps its own.
   */
  lemma SoftDeadlinesAgree(now: int, own: Option<int>, config: Config)
    ensures SoftDeadline(now, own, config) == DetermineDeadline(now, own, config)
            <==> config.maxTimeout > 0 || own.GetOr(config.timeout) <= 0
  {
    var seconds := own.GetOr(config.timeout);
    if config.maxTimeout <= 0 && seconds > 0 {
      assert SoftDeadline(now, own, config).None? && DetermineDeadline(now, own, config).Some?;
    }
  }

  datatype Armed = NoTimer | StopNow | Timer(delay: int)

  /** The hard timer, armed at `now` for a run whose execution started at `startedAt`. */
  method ArmHardTimer(now: int, startedAt: Option<int>, own: Option<int>, config: Config) returns (armed: Armed)
    ensures armed == HardTimer(now, startedAt, own, config)
  {
    var workflowTimeout := own.GetOr(config.timeout);
    if workflowTimeout > 0 {
      workflowTimeout := Min(workflowTimeout, config.maxTimeout);
    }
    if workflowTimeout > 0 {
      var timeout := Min(workflowTimeout, config.maxTimeout) * 1000;
      if startedAt.Some? {
        timeout := Max(timeout - (now - startedAt.value), 0);
      }
      if timeout == 0 {
        return StopNow;
      } else {
        return Timer(timeout);
      }
    }
    return NoTimer;
  }

  function HardTimer(now: int, startedAt: Option<int>, own: Option<int>, config: Config): Armed {
    var limit := WorkflowTimeout(own, config) * 1000;
    if limit <= 0 then NoTimer
    else
      var left := limit - (now - startedAt.GetOr(now));
      if left <= 0 then StopNow else Timer(left)
  }

  /** When an armed timer stops the execution. */
  function Expiry(now: int, armed: Armed): Option<int> {
    match armed
    case NoTimer => None
    case StopNow => Some(now)
    case Timer(delay) => Some(now + delay)
  }

  /** The timeout that applies, in seconds: the workflow's own, if it has one, else the configured one. */
  ghost predicate Applies(seconds: int, own: Option<int>, config: Config) {
    (own.Some? && seconds == own.value) || (own.None? && seconds == config.timeout)
  }

  /**
   A run without a positive timeout, or under a maximum that is not positive, is never
   stopped. Any other is stopped once the smaller of the two, in milliseconds, has passed
   since the execution started, or at once if that is past.
   */
  lemma HardLimitOutcome(now: int, startedAt: Option<int>, own: Option<int>, config: Config, seconds: int)
    requires Applies(seconds, own, config)
    ensures var armed := HardTimer(now, startedAt, own, config);
            var start := if startedAt.Some? then startedAt.value else now;
            && (armed == NoTimer <==> seconds <= 0 || config.maxTimeout <= 0)
            && (armed != NoTimer ==>
                  var limit := (if seconds <= config.maxTimeout then seconds else config.maxTimeout) * 1000;
                  && (armed == StopNow <==> now - start >= limit)
                  && (now - start < limit ==> armed == Timer(start + limit - now))
                  && Expiry(now, armed) == Some(if start + limit >= now then start + limit else now))
  {
  }

  /** The soft deadline of the main process, under the same conditions, counts from now. */
  lemma SoftLimitOutcome(now: int, own: Option<int>, config: Config, seconds: int)
    requires Applies(seconds, own, config)
    ensures SoftDeadline(now, own, config) ==
            if seconds <= 0 || config.maxTimeout <= 0 then None
            else if seconds <= config.maxTimeout then Some(now + 1000 * seconds)
            else Some(now + 1000 * config.maxTimeout)
  {
  }

  /** That of a sub-workflow is capped by a positive maximum only. */
  lemma SubworkflowLimitOutcome(start: int, own: Option<int>, config: Config, seconds: int)
    requires Applies(seconds, own, config)
    ensures var deadline := DetermineDeadline(start, own, config);
            && (deadline.None? <==> seconds <= 0)
            && (deadline.Some? ==>
                  && deadline.value <= start + 1000 * seconds
                  && (config.maxTimeout > 0 ==> deadline.value <= start + 1000 * config.maxTimeout)
                  && (deadline.value == start + 1000 * seconds
                      || (config.maxTimeout > 0 && deadline.value == start + 1000 * config.maxTimeout)))
  {
  }

  /** One stretch of running: resumed at `at`, and by itself it would park after `length`. */
  datatype Leg = Leg(at: int, length: nat)

  /** When a leg actually ends, its hard timer armed as it resumes. */
  function LegEnd(leg: Leg, startedAt: int, own: Option<int>, config: Config): int {
    var expiry := Expiry(leg.at, HardTimer(leg.at, Some(startedAt), own, config));
    if expiry.Some? then Min(leg.at + leg.length, expiry.value) else leg.at + leg.length
  }

  /** Each leg starts after the previous one ended; the time between is spent waiting. */
  ghost predicate Resumes(legs: seq<Leg>, startedAt: int, own: Option<int>, config: Config) {
    && (legs != [] ==> startedAt <= legs[0].at)
    && forall i :: 0 <= i < |legs| - 1 ==> LegEnd(legs[i], startedAt, own, config) <= legs[i + 1].at
  }

  /**
   Waiting never extends the limit: whenever it resumes, the timer expires at the original
   start plus the limit, or at once if that is past.
   */
  lemma {:induction false} HardTimeoutIsWaitInvariant(legs: seq<Leg>, startedAt: int, own: Option<int>,
                                                      config: Config, seconds: int, i: nat)
    requires Resumes(legs, startedAt, own, config) && i < |legs|
    requires Applies(seconds, own, config) && seconds > 0 && config.maxTimeout > 0
    ensures var limit := Min(seconds, config.maxTimeout) * 1000; var at := legs[i].at;
            && startedAt <= at
            && Expiry(at, HardTimer(at, Some(startedAt), own, config)) == Some(Max(at, startedAt + limit))
            && LegEnd(legs[i], startedAt, own, config) <= Max(at, startedAt + limit)
  {
    if i > 0 {
      HardTimeoutIsWaitInvariant(legs, startedAt, own, config, seconds, i - 1);
      assert LegEnd(legs[i - 1], startedAt, own, config) <= legs[i - 1 + 1].at;
    }
  }

  /** Total time spent running. */
  function Running(legs: seq<Leg>, startedAt: int, own: Option<int>, config: Config): int {
    if legs == [] then 0
    else
      var last := legs[|legs| - 1];
      Running(legs[..|legs| - 1], startedAt, own, config) + (LegEnd(last, startedAt, own, config) - last.at)
  }

  /** Over any number of resumes, the execution runs no longer than its limit. */
  lemma {:induction false} RunningTimeIsBounded(legs: seq<Leg>, startedAt: int, own: Option<int>, config: Config,
                                                seconds: int)
    requires Resumes(legs, startedAt, own, config)
    requires Applies(seconds, own, config) && seconds > 0 && config.maxTimeout > 0
    ensures var limit := Min(seconds, config.maxTimeout) * 1000;
            && Running(legs, startedAt, own, config) <= limit
            && (legs != [] ==> Running(legs, startedAt, own, config) <=
                               Min(LegEnd(legs[|legs| - 1], startedAt, own, config), startedAt + limit) - startedAt)
  {
    if legs != [] {
      var n := |legs| - 1;
      var front := legs[..n];
      assert forall i :: 0 <= i < |front| ==> front[i] == legs[i];
      assert Resumes(front, startedAt, own, config);
      RunningTimeIsBounded(front, startedAt, own, config, seconds);
      HardTimeoutIsWaitInvariant(legs, startedAt, own, config, seconds, n);
      if n > 0 { assert LegEnd(legs[n - 1], startedAt, own, config) <= legs[n - 1 + 1].at; }
    }
  }

  /** The soft deadline, by contrast, moves with every resume. */
  lemma SoftDeadlineMovesWithResume(at: int, startedAt: int, own: Option<int>, config: Config, seconds: int)
    requires startedAt <= at && Applies(seconds, own, config) && seconds > 0 && config.maxTimeout > 0
    ensures var soft := SoftDeadline(at, own, config);
            var hard := Expiry(at, HardTimer(at, Some(startedAt), own, config));
            && soft.Some? && hard.Some? && hard.value <= soft.value
            && (hard.value == soft.value <==> at == startedAt)
  {
  }
}
