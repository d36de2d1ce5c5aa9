/**
 Handing a child's result to its waiting parent: `updateParentExecutionWithChildResults`
 and `shouldRestartParentExecution` of packages/cli/src/workflow-helpers.ts.

 Several children may report to one parent before it resumes. `Folded` is the parent after
 a sequence of whole reports; `Interleaved` splits each report at its await, between the
 read of the parent and the write.
 */
module ParentHandover {
  import opened Prelude

  type Data = string
  type Failure = string
  type UserId = string

  /** Credential usage; a flag is only ever present when true. */
  datatype Usage = Usage(used: bool, attempted: bool, resolvedUser: Option<UserId>)

  const NO_USAGE := Usage(false, false, None)

  datatype Metadata = Metadata(usage: Usage, resumeError: Option<Failure>, subExecution: Option<string>)
  datatype StackEntry = StackEntry(node: string, data: Data, metadata: Metadata)
  datatype TaskFlags = TaskFlags(used: bool, attempted: bool)

  /** The parts of a stored execution the update reads or writes. */
  datatype Parent = Parent(
    status: string,
    stack: seq<StackEntry>,
    tasks: map<string, seq<TaskFlags>>,   // runData, per node name
    runtimeUser: Option<Option<UserId>>)  // runtimeData?.executedByUserId

  /** A finished child: its error, its last node's data, its usage, and its own identity. */
  datatype Report = Report(error: Option<Failure>, lastData: Option<Data>, usage: Usage, child: Option<string>)

  /** The early return: a child with neither error nor data reports nothing at all. */
  predicate Silent(r: Report) {
    r.error.None? && r.lastData.None?
  }

  /** Otherwise the update goes ahead only for a waiting parent with a stack. */
  predicate Writes(p: Parent, r: Report) {
    !Silent(r) && p.status == "waiting" && p.stack != []
  }

  /** `{ ...earlier, ...reported }`: reported flags are set, a reported user replaces. */
  function Merge(earlier: Usage, reported: Usage): Usage {
    Usage(earlier.used || reported.used, earlier.attempted || reported.attempted,
          if reported.resolvedUser.Some? then reported.resolvedUser else earlier.resolvedUser)
  }

  function FlagTask(task: TaskFlags, u: Usage): TaskFlags {
    TaskFlags(task.used || u.used, task.attempted || u.attempted)
  }

  /** What one report writes over the parent it read. */
  function Patched(p: Parent, r: Report): Parent {
    if !Writes(p, r) then p
    else
      var top := p.stack[0];
      var metadata := top.metadata.(usage := Merge(top.metadata.usage, r.usage));
      var top' :=
        if r.error.Some? then
          top.(metadata := metadata.(resumeError := r.error,
                                     subExecution := if r.child.Some? then r.child else metadata.subExecution))
        else top.(metadata := metadata, data := r.lastData.value);
      var tasks' :=
        if top.node in p.tasks && p.tasks[top.node] != [] then
          var ts := p.tasks[top.node];
          p.tasks[top.node := ts[|ts| - 1 := FlagTask(ts[|ts| - 1], r.usage)]]
        else p.tasks;
      var runtimeUser' :=
        if r.usage.used && r.usage.resolvedUser.Some? && p.runtimeUser.Some? then Some(r.usage.resolvedUser)
        else p.runtimeUser;
      Parent(p.status, [top'] + p.stack[1..], tasks', runtimeUser')
  }

  /** The update reads, patches and writes the stored parent. */
  method UpdateParent(stored: map<string, Parent>, parentId: string, r: Report) returns (stored': map<string, Parent>)
    ensures stored' == if parentId in stored then stored[parentId := Patched(stored[parentId], r)] else stored
  {
    stored' := stored;
    if r.error.None? && r.lastData.None? {
      assert parentId in stored ==> stored == stored[parentId := Patched(stored[parentId], r)];
      return;
    }
    if parentId !in stored { return; }
    var parent := stored[parentId];
    if parent.status != "waiting" || |parent.stack| == 0 {
      assert stored == stored[parentId := Patched(parent, r)];
      return;
    }
    var top := parent.stack[0];
    var tasks, runtimeUser := parent.tasks, parent.runtimeUser;
    if r.usage != NO_USAGE {
      top := top.(metadata := top.metadata.(usage := Merge(top.metadata.usage, r.usage)));
      if top.node in tasks && |tasks[top.node]| > 0 {
        var ts := tasks[top.node];
        var last := ts[|ts| - 1];
        if r.usage.used { last := last.(used := true); }
        if r.usage.attempted { last := last.(attempted := true); }
        tasks := tasks[top.node := ts[|ts| - 1 := last]];
      }
      if r.usage.used && r.usage.resolvedUser.Some? && runtimeUser.Some? {
        runtimeUser := Some(r.usage.resolvedUser);
      }
    } else {
      if top.node in tasks && |tasks[top.node]| > 0 {
        ghost var ts := tasks[top.node];
        assert ts[|ts| - 1 := FlagTask(ts[|ts| - 1], r.usage)] == ts;
        assert tasks[top.node := ts] == tasks;
      }
    }
    if r.error.Some? {
      top := top.(metadata := top.metadata.(resumeError := r.error));
      if r.child.Some? { top := top.(metadata := top.metadata.(subExecution := r.child)); }
    } else {
      top := top.(data := r.lastData.value);
    }
    stored' := stored[parentId := Parent(parent.status, [top] + parent.stack[1..], tasks, runtimeUser)];
  }

  /** A parent restarts unless its child was started with `shouldResume: false`. */
  function ShouldRestart(parent: Option<Option<bool>>): bool {
    parent.Some? && parent.value.GetOr(true)
  }

  /** Only a parent is restarted, and it is unless its child says not to: a missing flag means yes. */
  lemma RestartsUnlessRefused(parent: Option<Option<bool>>)
    ensures ShouldRestart(parent) <==> parent.Some? && parent.value != Some(false)
    ensures ShouldRestart(Some(None))
  {
  }

  /** A report without error and data, or to a parent that is not waiting or has no stack, changes nothing. */
  lemma IgnoredReport(p: Parent, r: Report)
    requires p.status != "waiting" || p.stack == [] || (r.error == None && r.lastData == None)
    ensures Patched(p, r) == p
  {
  }

  // ----- Any number of whole reports -----

  function Folded(p: Parent, rs: seq<Report>): Parent {
    if rs == [] then p else Patched(Folded(p, rs[..|rs| - 1]), rs[|rs| - 1])
  }

  ghost predicate Waiting(p: Parent) {
    p.status == "waiting" && p.stack != []
  }

  predicate AnyUsed(rs: seq<Report>) {
    exists r :: r in rs && !Silent(r) && r.usage.used
  }

  predicate AnyAttempted(rs: seq<Report>) {
    exists r :: r in rs && !Silent(r) && r.usage.attempted
  }

  /** The last report that has something for `pick`, in report order. */
  function LastOf<T>(rs: seq<Report>, pick: Report -> Option<T>): Option<T> {
    if rs == [] then None
    else
      var last := pick(rs[|rs| - 1]);
      if last.Some? then last else LastOf(rs[..|rs| - 1], pick)
  }

  /** Data is taken only from a child that did not fail. */
  function SuccessData(r: Report): Option<Data> {
    if r.error.Some? then None else r.lastData
  }

  function FailedChild(r: Report): Option<string> {
    if r.error.Some? then r.child else None
  }

  function ReportedUser(r: Report): Option<UserId> {
    if Silent(r) then None else r.usage.resolvedUser
  }

  function RunUser(r: Report): Option<UserId> {
    if Silent(r) || !r.usage.used then None else r.usage.resolvedUser
  }

  function OrElse<T>(a: Option<T>, b: Option<T>): Option<T> {
    if a.Some? then a else b
  }

  /**
   The parent after any sequence of reports, in closed form: flags are the OR over the
   children that reported anything, data and error are the last such child's, and nothing
   but the top of the stack, its waiting task and the runtime user has changed.
   */
  lemma {:induction false} FoldedInClosedForm(p: Parent, rs: seq<Report>)
    requires Waiting(p)
    ensures var q := Folded(p, rs);
            && q.status == p.status && |q.stack| == |p.stack| && q.stack[1..] == p.stack[1..]
            && q.stack[0] == StackEntry(
                 p.stack[0].node,
                 OrElse(LastOf(rs, SuccessData), Some(p.stack[0].data)).value,
                 Metadata(
                   Usage(p.stack[0].metadata.usage.used || AnyUsed(rs),
                         p.stack[0].metadata.usage.attempted || AnyAttempted(rs),
                         OrElse(LastOf(rs, ReportedUser), p.stack[0].metadata.usage.resolvedUser)),
                   OrElse(LastOf(rs, (r: Report) => r.error), p.stack[0].metadata.resumeError),
                   OrElse(LastOf(rs, FailedChild), p.stack[0].metadata.subExecution)))
            && (p.runtimeUser.None? ==> q.runtimeUser.None?)
            && (p.runtimeUser.Some? ==> q.runtimeUser == Some(OrElse(LastOf(rs, RunUser), p.runtimeUser.value)))
  {
    if rs != [] {
      var front, r := rs[..|rs| - 1], rs[|rs| - 1];
      FoldedInClosedForm(p, front);
      assert rs == front + [r];
      assert forall x :: x in rs <==> x in front || x == r;
    }
  }

  /** The waiting task accumulates the same flags; every other task is left alone. */
  lemma {:induction false} FoldedTasks(p: Parent, rs: seq<Report>)
    requires Waiting(p)
    ensures var q := Folded(p, rs); var node := p.stack[0].node;
            && q.stack != [] && q.stack[0].node == node && q.status == p.status
            && q.tasks.Keys == p.tasks.Keys
            && (forall n :: n in p.tasks && n != node ==> q.tasks[n] == p.tasks[n])
            && (node in p.tasks ==>
                  var ts, ts' := p.tasks[node], q.tasks[node];
                  && |ts'| == |ts|
                  && (ts != [] ==> ts' == ts[|ts| - 1 := TaskFlags(ts[|ts| - 1].used || AnyUsed(rs),
                                                                    ts[|ts| - 1].attempted || AnyAttempted(rs))]))
  {
    if rs != [] {
      var front, r := rs[..|rs| - 1], rs[|rs| - 1];
      FoldedTasks(p, front);
      assert rs == front + [r];
      assert forall x :: x in rs <==> x in front || x == r;
    }
  }

  /** Flags do not depend on the order in which the children report. */
  lemma FlagsAreOrderIndependent(p: Parent, rs: seq<Report>, rs': seq<Report>)
    requires Waiting(p) && multiset(rs) == multiset(rs')
    ensures |Folded(p, rs).stack| == |Folded(p, rs').stack| == |p.stack|
    ensures Folded(p, rs).stack[0].metadata.usage.used == Folded(p, rs').stack[0].metadata.usage.used
    ensures Folded(p, rs).stack[0].metadata.usage.attempted == Folded(p, rs').stack[0].metadata.usage.attempted
  {
    FoldedInClosedForm(p, rs);
    FoldedInClosedForm(p, rs');
    forall r ensures r in rs <==> r in rs' {
      assert r in rs <==> r in multiset(rs);
      assert r in rs' <==> r in multiset(rs');
    }
  }

  /**
   Each flag is the OR over all children exactly when, if a silent child has it, the parent
   or a child that reports has it too.
   */
  lemma AllChildrensFlags(p: Parent, rs: seq<Report>)
    requires Waiting(p)
    ensures |Folded(p, rs).stack| == |p.stack|
    ensures var q := Folded(p, rs).stack[0].metadata.usage; var before := p.stack[0].metadata.usage;
            (q.used == (before.used || exists r :: r in rs && r.usage.used))
            <==> ((exists r :: r in rs && Silent(r) && r.usage.used) ==> before.used || AnyUsed(rs))
    ensures var q := Folded(p, rs).stack[0].metadata.usage; var before := p.stack[0].metadata.usage;
            (q.attempted == (before.attempted || exists r :: r in rs && r.usage.attempted))
            <==> ((exists r :: r in rs && Silent(r) && r.usage.attempted) ==> before.attempted || AnyAttempted(rs))
  {
    FoldedInClosedForm(p, rs);
  }

  // ----- Reports whose read and write interleave -----

  datatype Action = Read(child: nat, report: Report) | Write(child: nat) | Advance(parent: Parent)

  /** The stored parent, and what each child has read and not yet written back. */
  datatype Race = Race(parent: Parent, pending: map<nat, (Parent, Report)>)

  function Act(s: Race, a: Action): Race {
    match a
    case Read(child, report) => s.(pending := s.pending[child := (s.parent, report)])
    case Write(child) =>
      if child !in s.pending then s
      else
        var (read, report) := s.pending[child];
        // the write replaces the data only, and is conditional on nothing
        var parent' := if Writes(read, report) then Patched(read, report).(status := s.parent.status) else s.parent;
        Race(parent', s.pending - {child})
    case Advance(parent) => s.(parent := parent) // the parent resumes and runs on
  }

  function Interleaved(s: Race, actions: seq<Action>): Race {
    if actions == [] then s else Act(Interleaved(s, actions[..|actions| - 1]), actions[|actions| - 1])
  }

  // ----- Where the stored parent comes from -----

  /** The parents a race has had: the first one, and one for each time it resumed. */
  function Bases(p: Parent, actions: seq<Action>): (bases: seq<Parent>)
    ensures bases != []
  {
    if actions == [] then [p]
    else
      var last := actions[|actions| - 1];
      Bases(p, actions[..|actions| - 1]) + (if last.Advance? then [last.parent] else [])
  }

  /** What a stored parent was made from: one of those parents, and the reports folded into it. */
  datatype Origin = Origin(generation: nat, reports: seq<Report>)

  /** The last action is a write that goes ahead. */
  predicate Effective(p: Parent, actions: seq<Action>) {
    actions != [] &&
    var s, last := Interleaved(Race(p, map[]), actions[..|actions| - 1]), actions[|actions| - 1];
    last.Write? && last.child in s.pending && Writes(s.pending[last.child].0, s.pending[last.child].1)
  }

  /** The lineage of the stored parent: a write adds its report to what its own read had seen. */
  function Latest(p: Parent, actions: seq<Action>): Origin
    decreases |actions|, 1
  {
    if actions == [] then Origin(0, [])
    else
      var front, last := actions[..|actions| - 1], actions[|actions| - 1];
      if last.Advance? then Origin(|Bases(p, front)|, [])
      else if Effective(p, actions) then
        var o := ReadBy(p, front, last.child);
        Origin(o.generation, o.reports + [Interleaved(Race(p, map[]), front).pending[last.child].1])
      else Latest(p, front)
  }

  /** The lineage of what `child` last read. */
  function ReadBy(p: Parent, actions: seq<Action>, child: nat): Origin
    decreases |actions|, 0
  {
    if actions == [] then Origin(0, [])
    else
      var front, last := actions[..|actions| - 1], actions[|actions| - 1];
      if last.Read? && last.child == child then Latest(p, front) else ReadBy(p, front, child)
  }

  /** `q` was made from the origin `o`; only its status may since have moved on. */
  ghost predicate MadeFrom(bases: seq<Parent>, o: Origin, q: Parent) {
    && o.generation < |bases|
    && q == Folded(bases[o.generation], o.reports).(status := q.status)
    && (if o.reports == [] then q == bases[o.generation] else Waiting(bases[o.generation]))
  }

  lemma MoreBases(bases: seq<Parent>, more: seq<Parent>, o: Origin, q: Parent)
    requires MadeFrom(bases, o, q)
    ensures MadeFrom(bases + more, o, q)
  {
  }

  /** Folding one more report into a waiting parent. */
  lemma MadeByWrite(bases: seq<Parent>, o: Origin, q: Parent, r: Report, status: string)
    requires MadeFrom(bases, o, q) && Writes(q, r)
    ensures MadeFrom(bases, Origin(o.generation, o.reports + [r]), Patched(q, r).(status := status))
  {
    var b := bases[o.generation];
    PatchedKeepsStatus(b, o.reports);
    assert (o.reports + [r])[..|o.reports|] == o.reports;
    assert q == Folded(b, o.reports);
  }

  lemma {:induction false} PatchedKeepsStatus(p: Parent, rs: seq<Report>)
    ensures Folded(p, rs).status == p.status
  {
    if rs != [] { PatchedKeepsStatus(p, rs[..|rs| - 1]); }
  }

  /** In every interleaving the stored parent, and whatever a child holds, are made from their lineage. */
  lemma {:induction false} ParentIsMadeFromLineage(p: Parent, actions: seq<Action>)
    ensures var s := Interleaved(Race(p, map[]), actions);
            && MadeFrom(Bases(p, actions), Latest(p, actions), s.parent)
            && forall child :: child in s.pending ==>
               MadeFrom(Bases(p, actions), ReadBy(p, actions, child), s.pending[child].0)
  {
    if actions != [] {
      var front, last := actions[..|actions| - 1], actions[|actions| - 1];
      ParentIsMadeFromLineage(p, front);
      var m, s, bases := Interleaved(Race(p, map[]), front), Interleaved(Race(p, map[]), actions), Bases(p, front);
      if last.Advance? {
        MoreBases(bases, [last.parent], Latest(p, front), m.parent);
        forall child | child in s.pending
          ensures MadeFrom(Bases(p, actions), ReadBy(p, actions, child), s.pending[child].0)
        {
          MoreBases(bases, [last.parent], ReadBy(p, front, child), m.pending[child].0);
        }
      } else {
        assert Bases(p, actions) == bases;
        if Effective(p, actions) {
          MadeByWrite(bases, ReadBy(p, front, last.child), m.pending[last.child].0, m.pending[last.child].1,
              m.parent.status);
        }
      }
    }
  }

  // ----- Which reports survive -----

  ghost predicate NoAdvance(actions: seq<Action>) {
    forall i :: 0 <= i < |actions| ==> !actions[i].Advance?
  }

  /** The reports whose writes went ahead, in the order of the writes. */
  function Recorded(p: Parent, actions: seq<Action>): seq<Report> {
    if actions == [] then []
    else
      var front, last := actions[..|actions| - 1], actions[|actions| - 1];
      Recorded(p, front) +
      (if Effective(p, actions) then [Interleaved(Race(p, map[]), front).pending[last.child].1] else [])
  }

  /** While the parent does not resume, the stored parent is the fold of its lineage alone. */
  lemma LineageFolds(p: Parent, actions: seq<Action>)
    requires NoAdvance(actions)
    ensures Interleaved(Race(p, map[]), actions).parent == Folded(p, Latest(p, actions).reports)
    ensures Bases(p, actions) == [p] && Interleaved(Race(p, map[]), actions).parent.status == p.status
  {
    ParentIsMadeFromLineage(p, actions);
    OneBase(p, actions);
    PatchedKeepsStatus(p, Latest(p, actions).reports);
  }

  lemma {:induction false} OneBase(p: Parent, actions: seq<Action>)
    requires NoAdvance(actions)
    ensures Bases(p, actions) == [p] && Interleaved(Race(p, map[]), actions).parent.status == p.status
  {
    if actions != [] {
      var front := actions[..|actions| - 1];
      assert forall i :: 0 <= i < |front| ==> front[i] == actions[i];
      assert !actions[|actions| - 1].Advance?;
      OneBase(p, front);
    }
  }

  /**
   Every usage flag that was written survives exactly when it is set in the parent or by a
   report of the lineage.
   */
  lemma FlagsSurviveIff(p: Parent, actions: seq<Action>)
    requires Waiting(p) && NoAdvance(actions)
    ensures var q := Interleaved(Race(p, map[]), actions).parent;
            var before, written, lineage := p.stack[0].metadata.usage, Recorded(p, actions), Latest(p, actions).reports;
            && |q.stack| == |p.stack|
            && (q.stack[0].metadata.usage.used == (before.used || AnyUsed(written))
                <==> (AnyUsed(written) ==> before.used || AnyUsed(lineage)))
            && (q.stack[0].metadata.usage.attempted == (before.attempted || AnyAttempted(written))
                <==> (AnyAttempted(written) ==> before.attempted || AnyAttempted(lineage)))
  {
    LineageFolds(p, actions);
    FoldedInClosedForm(p, Latest(p, actions).reports);
    LineageIsRecorded(p, actions);
  }

  /** Nothing is in the lineage that was not written. */
  lemma {:induction false} LineageIsRecorded(p: Parent, actions: seq<Action>)
    requires NoAdvance(actions)
    ensures forall r :: r in Latest(p, actions).reports ==> r in Recorded(p, actions)
    ensures forall child :: forall r :: r in ReadBy(p, actions, child).reports ==> r in Recorded(p, actions)
  {
    if actions != [] {
      var front := actions[..|actions| - 1];
      assert forall i :: 0 <= i < |front| ==> front[i] == actions[i];
      assert !actions[|actions| - 1].Advance?;
      LineageIsRecorded(p, front);
    }
  }

  /** How many writes had gone ahead when `child` last read. */
  function SeenBy(p: Parent, actions: seq<Action>, child: nat): nat {
    if actions == [] then 0
    else
      var front, last := actions[..|actions| - 1], actions[|actions| - 1];
      if last.Read? && last.child == child then |Recorded(p, front)| else SeenBy(p, front, child)
  }

  /** No write that goes ahead has another one between it and its own read. */
  ghost predicate Serial(p: Parent, actions: seq<Action>) {
    actions != [] ==>
      && Serial(p, actions[..|actions| - 1])
      && (Effective(p, actions) ==>
            SeenBy(p, actions[..|actions| - 1], actions[|actions| - 1].child)
                == |Recorded(p, actions[..|actions| - 1])|)
  }

  lemma NoAdvanceFront(actions: seq<Action>)
    requires NoAdvance(actions) && actions != []
    ensures NoAdvance(actions[..|actions| - 1]) && !actions[|actions| - 1].Advance?
  {
    assert forall i :: 0 <= i < |actions| - 1 ==> actions[..|actions| - 1][i] == actions[i];
  }

  lemma {:induction false} LineageIsNoLonger(p: Parent, actions: seq<Action>, child: nat)
    requires NoAdvance(actions)
    ensures |Latest(p, actions).reports| <= |Recorded(p, actions)|
    ensures |ReadBy(p, actions, child).reports| <= SeenBy(p, actions, child) <= |Recorded(p, actions)|
    ensures SeenBy(p, actions, child) == |Recorded(p, actions)| ==> ReadBy(p, actions, child) == Latest(p, actions)
  {
    if actions != [] {
      NoAdvanceFront(actions);
      var front, last := actions[..|actions| - 1], actions[|actions| - 1];
      LineageIsNoLonger(p, front, child);
      if Effective(p, actions) { LineageIsNoLonger(p, front, last.child); }
    }
  }

  /** No report is lost exactly when the writes are serial. */
  lemma {:induction false} NothingLostIff(p: Parent, actions: seq<Action>)
    requires NoAdvance(actions)
    ensures Latest(p, actions).reports == Recorded(p, actions) <==> Serial(p, actions)
    ensures |Latest(p, actions).reports| == |Recorded(p, actions)| <==> Serial(p, actions)
    ensures Serial(p, actions) ==> Interleaved(Race(p, map[]), actions).parent == Folded(p, Recorded(p, actions))
  {
    LineageFolds(p, actions);
    if actions != [] {
      NoAdvanceFront(actions);
      var front, last := actions[..|actions| - 1], actions[|actions| - 1];
      NothingLostIff(p, front);
      if Effective(p, actions) { LineageIsNoLonger(p, front, last.child); }
    }
  }

  // ----- A parent that resumes meanwhile -----

  predicate ReadIn(actions: seq<Action>, child: nat) {
    actions != [] &&
    var last := actions[|actions| - 1];
    (last.Read? && last.child == child) || ReadIn(actions[..|actions| - 1], child)
  }

  /** The race `before`, then the parent runs on as `resumed`, then the first `k` actions of `after`. */
  function Resumed(before: seq<Action>, resumed: Parent, after: seq<Action>, k: nat): seq<Action>
    requires k <= |after|
  {
    before + [Advance(resumed)] + after[..k]
  }

  lemma ResumedStep(before: seq<Action>, resumed: Parent, after: seq<Action>, k: nat)
    requires k < |after|
    ensures var all := Resumed(before, resumed, after, k + 1);
            all[|all| - 1] == after[k] && all[..|all| - 1] == Resumed(before, resumed, after, k)
  {
  }

  lemma ResumedStart(before: seq<Action>, resumed: Parent, after: seq<Action>)
    ensures var all := Resumed(before, resumed, after, 0);
            all[|all| - 1] == Advance(resumed) && all[..|all| - 1] == before
  {
  }

  lemma {:induction false} GenerationsExist(p: Parent, actions: seq<Action>, child: nat)
    ensures Latest(p, actions).generation < |Bases(p, actions)|
            && ReadBy(p, actions, child).generation < |Bases(p, actions)|
  {
    if actions != [] {
      var front, last := actions[..|actions| - 1], actions[|actions| - 1];
      GenerationsExist(p, front, child);
      if Effective(p, actions) { GenerationsExist(p, front, last.child); }
    }
  }

  /** A child that has not read again still holds what it read before the parent resumed. */
  lemma {:induction false} UnreadIsStale(p: Parent, before: seq<Action>, resumed: Parent, after: seq<Action>, k: nat,
                                         child: nat)
    requires k <= |after| && !ReadIn(after[..k], child)
    ensures ReadBy(p, Resumed(before, resumed, after, k), child) == ReadBy(p, before, child)
    ensures ReadBy(p, before, child).generation < |Bases(p, before)|
  {
    GenerationsExist(p, before, child);
    if k == 0 {
      ResumedStart(before, resumed, after);
    } else {
      ResumedStep(before, resumed, after, k - 1);
      assert after[..k][..k - 1] == after[..k - 1];
      UnreadIsStale(p, before, resumed, after, k - 1, child);
    }
  }

  /** The stored parent still is the one that resumed, with reports folded into it. */
  ghost predicate Kept(p: Parent, before: seq<Action>, resumed: Parent, after: seq<Action>, k: nat)
    requires k <= |after|
  {
    Latest(p, Resumed(before, resumed, after, k)).generation == |Bases(p, before)|
  }

  lemma {:induction false} ReadAgainIsFresh(p: Parent, before: seq<Action>, resumed: Parent, after: seq<Action>,
                                            k: nat, child: nat)
    requires k <= |after| && ReadIn(after[..k], child) && NoAdvance(after)
    requires forall j :: 0 <= j <= k ==> Kept(p, before, resumed, after, j)
    ensures ReadBy(p, Resumed(before, resumed, after, k), child).generation == |Bases(p, before)|
  {
    ResumedStep(before, resumed, after, k - 1);
    if !(after[k - 1].Read? && after[k - 1].child == child) {
      assert after[..k][..k - 1] == after[..k - 1];
      ReadAgainIsFresh(p, before, resumed, after, k - 1, child);
    } else {
      assert Kept(p, before, resumed, after, k - 1);
    }
  }

  /** The write at position `k` after the parent resumed goes ahead with something read before. */
  ghost predicate WritesStale(p: Parent, before: seq<Action>, resumed: Parent, after: seq<Action>, k: nat)
    requires k < |after|
  {
    Effective(p, Resumed(before, resumed, after, k + 1)) && !ReadIn(after[..k], after[k].child)
  }

  /**
   A parent that has resumed is never overwritten with what it was before exactly when every
   report written after it resumed was also read after it resumed.
   */
  lemma ResumedIsKeptIff(p: Parent, before: seq<Action>, resumed: Parent, after: seq<Action>)
    requires NoAdvance(after)
    ensures (forall k :: 0 <= k <= |after| ==> Kept(p, before, resumed, after, k))
            <==> (forall k :: 0 <= k < |after| ==> !WritesStale(p, before, resumed, after, k))
  {
    if forall k :: 0 <= k <= |after| ==> Kept(p, before, resumed, after, k) {
      forall k | 0 <= k < |after| ensures !WritesStale(p, before, resumed, after, k) {
        assert Kept(p, before, resumed, after, k + 1);
        ResumedStep(before, resumed, after, k);
        if WritesStale(p, before, resumed, after, k) { UnreadIsStale(p, before, resumed, after, k, after[k].child); }
      }
    }
    if forall k :: 0 <= k < |after| ==> !WritesStale(p, before, resumed, after, k) {
      forall k | 0 <= k <= |after| ensures Kept(p, before, resumed, after, k) {
        FreshWritesKeep(p, before, resumed, after, k);
      }
    }
  }

  lemma {:induction false} FreshWritesKeep(p: Parent, before: seq<Action>, resumed: Parent, after: seq<Action>, n: nat)
    requires n <= |after| && NoAdvance(after)
    requires forall k :: 0 <= k < |after| ==> !WritesStale(p, before, resumed, after, k)
    ensures forall k :: 0 <= k <= n ==> Kept(p, before, resumed, after, k)
  {
    if n == 0 {
      ResumedStart(before, resumed, after);
    } else {
      FreshWritesKeep(p, before, resumed, after, n - 1);
      ResumedStep(before, resumed, after, n - 1);
      assert Kept(p, before, resumed, after, n - 1) && !WritesStale(p, before, resumed, after, n - 1);
      if Effective(p, Resumed(before, resumed, after, n)) {
        ReadAgainIsFresh(p, before, resumed, after, n - 1, after[n - 1].child);
      }
    }
  }

  // ----- The shortest schedules that go wrong -----

  /**
   Two children that both read before either writes: the second write replaces the first,
   so the parent keeps a usage flag of the first child exactly when it had it already or
   the second child sets it too.
   */
  lemma OverlapKeepsFlagIff(p: Parent, first: Report, second: Report)
    requires Waiting(p) && !Silent(first) && !Silent(second)
    ensures var before := p.stack[0].metadata.usage;
            var q := Interleaved(Race(p, map[]), [Read(1, first), Read(2, second), Write(1), Write(2)]).parent;
            && q == Patched(p, second)
            && q.stack != []
            && (q.stack[0].metadata.usage.used == (before.used || first.usage.used || second.usage.used)
                <==> (first.usage.used ==> before.used || second.usage.used))
  {
    Overlapping(p, first, second);
  }

  lemma Overlapping(p: Parent, first: Report, second: Report)
    requires Waiting(p) && !Silent(first) && !Silent(second)
    ensures Interleaved(Race(p, map[]), [Read(1, first), Read(2, second), Write(1), Write(2)])
            == Race(Patched(p, second), map[])
  {
    var none: seq<Action> := [];
    var bothRead := [Read(1, first), Read(2, second)];
    var all := [Read(1, first), Read(2, second), Write(1), Write(2)];
    assert bothRead[..1] == [Read(1, first)] && bothRead[..1][..0] == none;
    assert Interleaved(Race(p, map[]), [Read(1, first)]) == Race(p, map[1 := (p, first)]);
    assert Interleaved(Race(p, map[]), bothRead) == Race(p, map[1 := (p, first), 2 := (p, second)]);
    assert all[..3] == bothRead + [Write(1)] && (bothRead + [Write(1)])[..2] == bothRead;
    assert map[1 := (p, first), 2 := (p, second)] - {1} == map[2 := (p, second)];
    assert Interleaved(Race(p, map[]), all[..3]) == Race(Patched(p, first), map[2 := (p, second)]);
    assert map[2 := (p, second)] - {2} == map[];
  }

  /**
   A parent that resumed between the read and the write keeps its new status but gets
   the waiting parent's stack back, patched.
   */
  lemma LateWrite(p: Parent, resumed: Parent, r: Report)
    requires Writes(p, r)
    ensures Interleaved(Race(p, map[]), [Read(0, r), Advance(resumed), Write(0)]).parent ==
            Patched(p, r).(status := resumed.status)
  {
    var all := [Read(0, r), Advance(resumed), Write(0)];
    var none: seq<Action> := [];
    assert all[..2] == [Read(0, r), Advance(resumed)] && all[..2][..1] == [Read(0, r)] && all[..2][..1][..0] == none;
    assert Interleaved(Race(p, map[]), [Read(0, r)]) == Race(p, map[0 := (p, r)]);
    assert Interleaved(Race(p, map[]), all[..2]) == Race(resumed, map[0 := (p, r)]);
  }
}
