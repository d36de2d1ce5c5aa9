/**
 Any number of processes, each with its own active executions, over one table of rows.

 The only thing they share is the row: `add` claims it (active-executions.ts:114-143), and
 what the claim answers decides whether that process registers the execution or gives its
 reservation back. `Run` folds any sequence of events of any of the processes.
 */
module Cluster {
  import opened Prelude
  import opened Concurrency
  import Local = ActiveExecutions
  import LocalRuns = ActiveExecutionsRuns
  import Rows = ExecutionClaims

  type Process = nat

  datatype Cluster = Cluster(rows: map<ExecutionId, Rows.Row>, procs: map<Process, Local.State>)

  datatype Event =
    | Create(p: Process, id: ExecutionId, mode: Mode)          // `add` of a new execution: row and attempt
    | Resume(p: Process, id: ExecutionId, mode: Mode)          // `add` of an existing one
    | ClaimRow(p: Process, token: Token, expected: Rows.RowStatus)
    | Join(p: Process, token: Token, now: nat)
    | Fail(p: Process, token: Token)                           // a database call of `add` throws
    | Within(p: Process, step: Local.Step)                     // anything else inside a process
    | OnRow(id: ExecutionId, write: Rows.RowStep)              // any other write to a row

  function Start(limits: map<Process, Option<nat>>, regular: bool): Cluster {
    Cluster(map[], map p | p in limits :: Local.Initial(limits[p], regular))
  }

  /** The add `token` of process `p`, once it is past its reservation. */
  function Adding(c: Cluster, p: Process, token: Token): Option<Local.Attempt> {
    if p in c.procs && token in c.procs[p].attempts && c.procs[p].attempts[token].phase.PastReserve?
    then Some(c.procs[p].attempts[token]) else None
  }

  function Inside(c: Cluster, p: Process, step: Local.Step): Cluster {
    if p in c.procs then c.(procs := c.procs[p := Local.Next(c.procs[p], step)]) else c
  }

  function Written(c: Cluster, id: ExecutionId, step: Rows.RowStep): Cluster {
    if id in c.rows then c.(rows := c.rows[id := Rows.Next(c.rows[id], step)]) else c
  }

  /** The compare-and-swap at lines 129-139: the loser's reservation is released. */
  function Claim(c: Cluster, p: Process, token: Token, id: ExecutionId, expected: Rows.RowStatus): Cluster {
    var step := Rows.Claim(Rows.Runner(p, token), expected);
    if id in c.rows && Rows.Wins(c.rows[id], step) then Written(c, id, step) else Inside(c, p, Local.Abort(token))
  }

  predicate Won(rows: map<ExecutionId, Rows.Row>, id: ExecutionId, r: Rows.Runner) {
    id in rows && r in rows[id].won
  }

  predicate HasWon(c: Cluster, id: ExecutionId, r: Rows.Runner) {
    Won(c.rows, id, r)
  }

  function Next(c: Cluster, event: Event): Cluster {
    match event
    case Create(p, id, mode) =>
      if p !in c.procs || id in c.rows then c
      else
        var c' := c.(rows := c.rows[id := Rows.Created(Rows.Runner(p, c.procs[p].next))]);
        Inside(c', p, Local.Begin(id, mode))
    case Resume(p, id, mode) => Inside(c, p, Local.Begin(id, mode))
    case ClaimRow(p, token, expected) =>
      var a := Adding(c, p, token);
      if a.None? || HasWon(c, a.value.id, Rows.Runner(p, token)) then c else Claim(c, p, token, a.value.id, expected)
    case Join(p, token, now) =>
      var a := Adding(c, p, token);
      if a.Some? && HasWon(c, a.value.id, Rows.Runner(p, token)) then Inside(c, p, Local.Register(token, now)) else c
    case Fail(p, token) =>
      var a := Adding(c, p, token);
      if a.None? then c else Inside(Written(c, a.value.id, Rows.Die(Rows.Runner(p, token))), p, Local.Abort(token))
    case Within(p, step) => if step.Begin? || step.Register? || step.Abort? then c else Inside(c, p, step)
    case OnRow(id, write) => if write.Claim? then c else Written(c, id, write)
  }

  function Run(c: Cluster, events: seq<Event>): Cluster {
    if events == [] then c else Next(Run(c, events[..|events| - 1]), events[|events| - 1])
  }

  // ----- The invariant -----

  /** Only the winner of a row has an incarnation of it. */
  ghost predicate Backed(rows: map<ExecutionId, Rows.Row>, p: Process, entries: map<Token, Local.Entry>) {
    forall t :: t in entries ==> Won(rows, entries[t].id, Rows.Runner(p, t))
  }

  /** Winners are adds that have begun. */
  ghost predicate Begun(won: set<Rows.Runner>, procs: map<Process, Local.State>) {
    forall r :: r in won ==> r.process in procs && r.token < procs[r.process].next
  }

  ghost predicate ProcessOk(rows: map<ExecutionId, Rows.Row>, p: Process, s: Local.State) {
    Local.Inv(s) && Backed(rows, p, s.reg.entries)
  }

  ghost predicate RowOk(row: Rows.Row, procs: map<Process, Local.State>) {
    Rows.Accounted(row) && Begun(row.won, procs)
  }

  ghost predicate Inv(c: Cluster) {
    && (forall p :: p in c.procs ==> ProcessOk(c.rows, p, c.procs[p]))
    && (forall id :: id in c.rows ==> RowOk(c.rows[id], c.procs))
  }

  /** A step inside one process creates an incarnation only by registering. */
  lemma EntriesOf(s: Local.State, step: Local.Step, t: Token)
    requires Local.Inv(s)
    ensures var s' := Local.Next(s, step);
            t in s'.reg.entries ==>
              || (t in s.reg.entries && s'.reg.entries[t].id == s.reg.entries[t].id)
              || (Local.Joining(s, step).Some? && step.token == t && s'.reg.entries[t].id == s.attempts[t].id)
  {
    LocalRuns.StepIsEvent(s, step);
    if t in s.reg.entries { LocalRuns.EntryEvolves(s.reg, Local.Joining(s, step), s.regular, step, t); }
  }

  lemma NextGrows(s: Local.State, step: Local.Step)
    ensures Local.Next(s, step).next == if step.Begin? then s.next + 1 else s.next
  {
  }

  /** The add that `step` completes, if any, has won its row. */
  predicate JoinsWinner(rows: map<ExecutionId, Rows.Row>, p: Process, s: Local.State, step: Local.Step) {
    Local.Joining(s, step).Some? ==> Won(rows, s.attempts[step.token].id, Rows.Runner(p, step.token))
  }

  lemma ProcessStep(rows: map<ExecutionId, Rows.Row>, p: Process, s: Local.State, step: Local.Step)
    requires ProcessOk(rows, p, s) && JoinsWinner(rows, p, s, step)
    ensures ProcessOk(rows, p, Local.Next(s, step))
  {
    Local.NextKeepsInv(s, step);
    BackedAfter(rows, p, s, step);
  }

  lemma BackedAfter(rows: map<ExecutionId, Rows.Row>, p: Process, s: Local.State, step: Local.Step)
    requires Local.Inv(s) && Backed(rows, p, s.reg.entries) && JoinsWinner(rows, p, s, step)
    ensures Backed(rows, p, Local.Next(s, step).reg.entries)
  {
    var entries := Local.Next(s, step).reg.entries;
    forall t | t in entries ensures Won(rows, entries[t].id, Rows.Runner(p, t)) { EntriesOf(s, step, t); }
  }

  lemma InsideKeepsInv(c: Cluster, p: Process, step: Local.Step)
    requires Inv(c) && p in c.procs && JoinsWinner(c.rows, p, c.procs[p], step)
    ensures Inv(Inside(c, p, step))
  {
    ProcessStep(c.rows, p, c.procs[p], step);
    NextGrows(c.procs[p], step);
    RowsStayOk(c.rows, c.procs, p, Local.Next(c.procs[p], step));
  }

  lemma RowsStayOk(rows: map<ExecutionId, Rows.Row>, procs: map<Process, Local.State>, p: Process, s': Local.State)
    requires (forall id :: id in rows ==> RowOk(rows[id], procs)) && p in procs && s'.next >= procs[p].next
    ensures forall id :: id in rows ==> RowOk(rows[id], procs[p := s'])
  {
  }

  /** A row written, or created, with no fewer winners than before. */
  lemma RowKeepsInv(c: Cluster, id: ExecutionId, row: Rows.Row)
    requires Inv(c) && RowOk(row, c.procs) && (id in c.rows ==> c.rows[id].won <= row.won)
    ensures Inv(c.(rows := c.rows[id := row]))
  {
    forall p | p in c.procs ensures ProcessOk(c.rows[id := row], p, c.procs[p]) {
      BackedByMore(c.rows, id, row, p, c.procs[p].reg.entries);
    }
  }

  lemma BackedByMore(rows: map<ExecutionId, Rows.Row>, id: ExecutionId, row: Rows.Row, p: Process,
                     entries: map<Token, Local.Entry>)
    requires Backed(rows, p, entries) && (id in rows ==> rows[id].won <= row.won)
    ensures Backed(rows[id := row], p, entries)
  {
  }

  lemma WrittenKeepsInv(c: Cluster, id: ExecutionId, step: Rows.RowStep)
    requires Inv(c) && id in c.rows && (step.Claim? ==> Begun({step.who}, c.procs))
    ensures Inv(Written(c, id, step))
  {
    Rows.NextKeepsAccount(c.rows[id], step);
    WinnersGrow(c.rows[id], step);
    RowKeepsInv(c, id, Rows.Next(c.rows[id], step));
  }

  lemma WinnersGrow(row: Rows.Row, step: Rows.RowStep)
    ensures Rows.Next(row, step).won == if Rows.Wins(row, step) then row.won + {step.who} else row.won
  {
  }

  lemma RegisterKeepsInv(c: Cluster, p: Process, token: Token, now: nat)
    requires Inv(c) && Adding(c, p, token).Some? && HasWon(c, Adding(c, p, token).value.id, Rows.Runner(p, token))
    ensures Inv(Inside(c, p, Local.Register(token, now)))
  {
    InsideKeepsInv(c, p, Local.Register(token, now));
  }

  lemma JoinKeepsInv(c: Cluster, p: Process, token: Token, now: nat)
    requires Inv(c)
    ensures Inv(Next(c, Join(p, token, now)))
  {
    hide Local.Inv, Local.Next;
    var a := Adding(c, p, token);
    if a.Some? && HasWon(c, a.value.id, Rows.Runner(p, token)) {
      RegisterKeepsInv(c, p, token, now);
      assert Next(c, Join(p, token, now)) == Inside(c, p, Local.Register(token, now));
    }
  }

  /** The row is created once its creator has begun. */
  lemma CreateKeepsInv(c: Cluster, p: Process, id: ExecutionId, mode: Mode)
    requires Inv(c)
    ensures Inv(Next(c, Create(p, id, mode)))
  {
    hide Local.Next, Local.Inv;
    if p !in c.procs || id in c.rows { return; }
    var begun := Inside(c, p, Local.Begin(id, mode));
    var row := Rows.Created(Rows.Runner(p, c.procs[p].next));
    InsideKeepsInv(c, p, Local.Begin(id, mode));
    NextGrows(c.procs[p], Local.Begin(id, mode));
    RowKeepsInv(begun, id, row);
    assert Next(c, Create(p, id, mode)) == begun.(rows := c.rows[id := row]);
  }

  /** Adds in flight have begun. */
  lemma AddingHasBegun(c: Cluster, p: Process, token: Token)
    requires Inv(c) && Adding(c, p, token).Some?
    ensures p in c.procs && Begun({Rows.Runner(p, token)}, c.procs)
  {
    assert ProcessOk(c.rows, p, c.procs[p]);
  }

  lemma AbortKeepsInv(c: Cluster, p: Process, token: Token)
    requires Inv(c) && p in c.procs
    ensures Inv(Inside(c, p, Local.Abort(token)))
  {
    InsideKeepsInv(c, p, Local.Abort(token));
  }

  lemma ClaimKeepsInv(c: Cluster, p: Process, token: Token, expected: Rows.RowStatus)
    requires Inv(c)
    ensures Inv(Next(c, ClaimRow(p, token, expected)))
  {
    if Adding(c, p, token).None? { return; }
    var id, r := Adding(c, p, token).value.id, Rows.Runner(p, token);
    if HasWon(c, id, r) {
    } else if ClaimSucceeds(c, id, r, expected) {
      AddingHasBegun(c, p, token);
      WrittenKeepsInv(c, id, Rows.Claim(r, expected));
      ClaimWins(c, p, token, id, expected);
    } else {
      AbortKeepsInv(c, p, token);
      ClaimLoses(c, p, token, id, expected);
    }
  }

  predicate ClaimSucceeds(c: Cluster, id: ExecutionId, r: Rows.Runner, expected: Rows.RowStatus) {
    id in c.rows && Rows.Wins(c.rows[id], Rows.Claim(r, expected))
  }

  lemma ClaimWins(c: Cluster, p: Process, token: Token, id: ExecutionId, expected: Rows.RowStatus)
    requires AddsFor(c, p, token, id) && ClaimSucceeds(c, id, Rows.Runner(p, token), expected)
    ensures Next(c, ClaimRow(p, token, expected))
            == c.(rows := c.rows[id := Rows.Claimed(c.rows[id], Rows.Runner(p, token))])
  {
  }

  lemma ClaimLoses(c: Cluster, p: Process, token: Token, id: ExecutionId, expected: Rows.RowStatus)
    requires AddsFor(c, p, token, id) && !HasWon(c, id, Rows.Runner(p, token))
    requires !ClaimSucceeds(c, id, Rows.Runner(p, token), expected)
    ensures Next(c, ClaimRow(p, token, expected)) == Inside(c, p, Local.Abort(token))
  {
  }

  /** The add `token` of process `p` is about to claim the row `id`. */
  predicate AddsFor(c: Cluster, p: Process, token: Token, id: ExecutionId) {
    Adding(c, p, token).Some? && Adding(c, p, token).value.id == id
  }

  lemma DieKeepsInv(c: Cluster, id: ExecutionId, r: Rows.Runner)
    requires Inv(c)
    ensures Inv(Written(c, id, Rows.Die(r))) && Written(c, id, Rows.Die(r)).procs == c.procs
  {
    if id in c.rows { WrittenKeepsInv(c, id, Rows.Die(r)); }
  }

  lemma FailKeepsInv(c: Cluster, p: Process, token: Token)
    requires Inv(c)
    ensures Inv(Next(c, Fail(p, token)))
  {
    hide Local.Inv, Local.Next;
    var a := Adding(c, p, token);
    if a.Some? {
      var died := Written(c, a.value.id, Rows.Die(Rows.Runner(p, token)));
      DieKeepsInv(c, a.value.id, Rows.Runner(p, token));
      AbortKeepsInv(died, p, token);
      assert Next(c, Fail(p, token)) == Inside(died, p, Local.Abort(token));
    }
  }

  lemma WithinKeepsInv(c: Cluster, p: Process, step: Local.Step)
    requires Inv(c) && !step.Register?
    ensures Inv(Inside(c, p, step))
  {
    if p in c.procs { InsideKeepsInv(c, p, step); }
  }

  lemma NextKeepsInv(c: Cluster, event: Event)
    requires Inv(c)
    ensures Inv(Next(c, event))
  {
    hide Local.Inv, Local.Next;
    match event {
      case Create(p, id, mode) => CreateKeepsInv(c, p, id, mode);
      case Resume(p, id, mode) => WithinKeepsInv(c, p, Local.Begin(id, mode));
      case ClaimRow(p, token, expected) => ClaimKeepsInv(c, p, token, expected);
      case Join(p, token, now) => JoinKeepsInv(c, p, token, now);
      case Fail(p, token) => FailKeepsInv(c, p, token);
      case Within(p, step) => if !step.Register? { WithinKeepsInv(c, p, step); }
      case OnRow(id, write) => if id in c.rows && !write.Claim? { WrittenKeepsInv(c, id, write); }
    }
  }

  lemma {:induction false} RunKeepsInv(limits: map<Process, Option<nat>>, regular: bool, events: seq<Event>)
    ensures Inv(Run(Start(limits, regular), events))
  {
    if events == [] {
      forall p | p in limits ensures ProcessOk(map[], p, Local.Initial(limits[p], regular)) {
        LocalRuns.CapacityIsConserved(limits[p], regular, []);
      }
    } else {
      RunKeepsInv(limits, regular, events[..|events| - 1]);
      NextKeepsInv(Run(Start(limits, regular), events[..|events| - 1]), events[|events| - 1]);
    }
  }

  // ----- What the cluster guarantees -----

  /** Every incarnation of an execution there has been, in any process. */
  ghost function Incarnations(c: Cluster, id: ExecutionId): iset<Rows.Runner> {
    iset r: Rows.Runner | r.process in c.procs && r.token in c.procs[r.process].reg.entries
                          && c.procs[r.process].reg.entries[r.token].id == id
  }

  /**
   In every run of the cluster, all processes together have had at most one incarnation of
   an execution for its creation, one for each time it was recovered while new, and one for
   each time it waited, less the waits that were cancelled, overwritten or still go on.
   */
  lemma OneIncarnationPerClaim(limits: map<Process, Option<nat>>, regular: bool, events: seq<Event>,
                               id: ExecutionId, some: set<Rows.Runner>)
    requires forall r :: r in some ==> r in Incarnations(Run(Start(limits, regular), events), id)
    ensures var c := Run(Start(limits, regular), events);
            some != {} ==>
              && id in c.rows
              && |some| <= 1 + c.rows[id].newClaims + c.rows[id].claims
              && |some| <= 1 + c.rows[id].newClaims + c.rows[id].waits - c.rows[id].cancels
                           - c.rows[id].overwrites - Rows.WaitingNow(c.rows[id])
  {
    hide Run, Next, Local.Next, Local.Inv, Rows.Next;
    var c := Run(Start(limits, regular), events);
    RunKeepsInv(limits, regular, events);
    forall r | r in some ensures HasWon(c, id, r) { assert r in Incarnations(c, id); }
    if some != {} {
      var r :| r in some;
      assert HasWon(c, id, r);
      assert some <= c.rows[id].won;
      SubsetSize(some, c.rows[id].won);
    }
  }

  // ----- Every winner registers -----

  /** A winner that completes its add is registered, in its own process and with no write to any row. */
  lemma WinnerRegisters(c: Cluster, p: Process, token: Token, id: ExecutionId, now: nat)
    requires AddsFor(c, p, token, id) && HasWon(c, id, Rows.Runner(p, token))
    ensures var s' := Local.Next(c.procs[p], Local.Register(token, now)); var c' := Next(c, Join(p, token, now));
            && c' == c.(procs := c.procs[p := s'])
            && Lookup(s'.reg.active, id) == Some(token) && token !in s'.attempts
            && Rows.Runner(p, token) in Incarnations(c', id)
  {
    hide Local.Next;
    RegistersLocally(c.procs[p], token, now);
  }

  /** Nobody else registers. */
  lemma OnlyWinnersRegister(c: Cluster, p: Process, token: Token, id: ExecutionId, now: nat)
    requires AddsFor(c, p, token, id) && !HasWon(c, id, Rows.Runner(p, token))
    ensures Next(c, Join(p, token, now)) == c
  {
    hide Local.Next;
  }

  lemma RegistersLocally(s: Local.State, t: Token, now: nat)
    requires t in s.attempts && s.attempts[t].phase.PastReserve?
    ensures var s', id := Local.Next(s, Local.Register(t, now)), s.attempts[t].id;
            && Lookup(s'.reg.active, id) == Some(t) && t !in s'.attempts
            && t in s'.reg.entries && s'.reg.entries[t].id == id
  {
  }

  /** The add of `r` for this execution is in flight, or has registered. */
  ghost predicate Underway(c: Cluster, id: ExecutionId, r: Rows.Runner) {
    && r.process in c.procs
    && var s := c.procs[r.process];
       || (r.token in s.attempts && s.attempts[r.token].id == id)
       || (r.token in s.reg.entries && s.reg.entries[r.token].id == id)
  }

  ghost predicate WinnersKept(c: Cluster) {
    forall id :: id in c.rows ==> forall r :: r in c.rows[id].won ==> Underway(c, id, r)
  }

  lemma ReleaseKeepsAttempts(s: Local.State, t: Token, u: Token)
    ensures u in Local.ReleaseOf(s, t).attempts <==> u in s.attempts
    ensures u in s.attempts ==> Local.ReleaseOf(s, t).attempts[u].id == s.attempts[u].id
  {
  }

  lemma ReserveKeepsAttempts(s: Local.State, t: Token, u: Token)
    ensures u in Local.ReserveStep(s, t).attempts <==> u in s.attempts
    ensures u in s.attempts ==> Local.ReserveStep(s, t).attempts[u].id == s.attempts[u].id
  {
  }

  /** An add in flight stays in flight for its execution unless it fails or registers. */
  lemma AttemptsPersist(s: Local.State, step: Local.Step, t: Token)
    requires t in s.attempts && t < s.next && step != Local.Abort(t) && !(step.Register? && step.token == t)
    ensures t in Local.Next(s, step).attempts && Local.Next(s, step).attempts[t].id == s.attempts[t].id
  {
    hide Local.ReserveStep, Local.ReleaseOf, Local.RegistryNext;
    match step {
      case Reserve(u) => ReserveKeepsAttempts(s, u, t);
      case Abort(u) => ReleaseKeepsAttempts(s.(attempts := s.attempts - {u}), u, t);
      case RunHandler(u) =>
        ReleaseKeepsAttempts(s.(reg := Local.RegistryNext(s.reg, None, s.regular, step)), u, t);
      case _ =>
    }
  }

  lemma UnderwayStays(c: Cluster, p: Process, step: Local.Step, id: ExecutionId, r: Rows.Runner)
    requires Inv(c) && p in c.procs && Underway(c, id, r)
    requires r.process == p ==> step != Local.Abort(r.token)
    ensures Underway(Inside(c, p, step), id, r)
  {
    if r.process == p {
      var s, t := c.procs[p], r.token;
      assert ProcessOk(c.rows, p, s);
      LocalRuns.StepIsEvent(s, step);
      if t in s.reg.entries {
        LocalRuns.EntryEvolves(s.reg, Local.Joining(s, step), s.regular, step, t);
      } else if step.Register? && step.token == t {
        RegisteredOrSame(s, step, t);
      } else {
        AttemptsPersist(s, step, t);
      }
    }
  }

  lemma RegisteredOrSame(s: Local.State, step: Local.Step, t: Token)
    requires step.Register? && step.token == t && t in s.attempts
    ensures var s' := Local.Next(s, step);
            s' == s || (t in s'.reg.entries && s'.reg.entries[t].id == s.attempts[t].id)
  {
  }

  lemma InsideKeepsWinners(c: Cluster, p: Process, step: Local.Step)
    requires Inv(c) && WinnersKept(c)
    requires forall t :: step == Local.Abort(t) ==> forall id :: !HasWon(c, id, Rows.Runner(p, t))
    ensures WinnersKept(Inside(c, p, step))
  {
    hide Inv, Underway;
    if p in c.procs {
      forall id | id in c.rows ensures forall r :: r in c.rows[id].won ==> Underway(Inside(c, p, step), id, r) {
        forall r | r in c.rows[id].won ensures Underway(Inside(c, p, step), id, r) {
          assert HasWon(c, id, r) && r == Rows.Runner(r.process, r.token);
          UnderwayStays(c, p, step, id, r);
        }
      }
    }
  }

  lemma WrittenKeepsWinners(c: Cluster, id: ExecutionId, step: Rows.RowStep)
    requires WinnersKept(c) && (step.Claim? ==> Underway(c, id, step.who))
    ensures WinnersKept(Written(c, id, step))
  {
    if id in c.rows {
      WinnersGrow(c.rows[id], step);
      forall i, r | i in c.rows && r in Written(c, id, step).rows[i].won ensures Underway(c, i, r) {}
    }
  }

  /** The loser of a claim has won no other row either. */
  lemma LoserHasWonNothing(c: Cluster, p: Process, token: Token, id: ExecutionId)
    requires Inv(c) && WinnersKept(c) && AddsFor(c, p, token, id) && !HasWon(c, id, Rows.Runner(p, token))
    ensures forall i :: !HasWon(c, i, Rows.Runner(p, token))
  {
    assert ProcessOk(c.rows, p, c.procs[p]);
    forall i ensures !HasWon(c, i, Rows.Runner(p, token)) {
      assert HasWon(c, i, Rows.Runner(p, token)) ==> Underway(c, i, Rows.Runner(p, token));
    }
  }

  lemma ClaimKeepsWinners(c: Cluster, p: Process, token: Token, id: ExecutionId, expected: Rows.RowStatus)
    requires Inv(c) && WinnersKept(c) && AddsFor(c, p, token, id)
    ensures WinnersKept(Next(c, ClaimRow(p, token, expected)))
  {
    hide Inv, WinnersKept, Inside;
    if !HasWon(c, id, Rows.Runner(p, token)) {
      if ClaimSucceeds(c, id, Rows.Runner(p, token), expected) {
        WrittenKeepsWinners(c, id, Rows.Claim(Rows.Runner(p, token), expected));
      } else {
        LoserHasWonNothing(c, p, token, id);
        InsideKeepsWinners(c, p, Local.Abort(token));
      }
    }
  }

  lemma CreateKeepsWinners(c: Cluster, p: Process, id: ExecutionId, mode: Mode)
    requires Inv(c) && WinnersKept(c)
    ensures WinnersKept(Next(c, Create(p, id, mode)))
  {
    if p !in c.procs || id in c.rows { return; }
    var c' := Next(c, Create(p, id, mode));
    InsideKeepsWinners(c, p, Local.Begin(id, mode));
    CreatedRow(c, p, id, mode);
    forall i, r | i in c'.rows && r in c'.rows[i].won ensures Underway(c', i, r) {
      if i != id { assert Underway(Inside(c, p, Local.Begin(id, mode)), i, r); }
    }
  }

  lemma CreatedRow(c: Cluster, p: Process, id: ExecutionId, mode: Mode)
    requires p in c.procs && id !in c.rows
    ensures var c', r := Next(c, Create(p, id, mode)), Rows.Runner(p, c.procs[p].next);
            && c'.rows == c.rows[id := Rows.Created(r)] && c'.procs == Inside(c, p, Local.Begin(id, mode)).procs
            && Underway(c', id, r) && Rows.Created(r).won == {r}
  {
  }

  lemma NextKeepsWinners(c: Cluster, event: Event)
    requires Inv(c) && WinnersKept(c) && !event.Fail?
    ensures WinnersKept(Next(c, event))
  {
    hide Inv, WinnersKept, Local.Next;
    match event {
      case Create(p, id, mode) => CreateKeepsWinners(c, p, id, mode);
      case Resume(p, id, mode) => InsideKeepsWinners(c, p, Local.Begin(id, mode));
      case ClaimRow(p, token, expected) =>
        if Adding(c, p, token).Some? { ClaimKeepsWinners(c, p, token, Adding(c, p, token).value.id, expected); }
      case Join(p, token, now) => InsideKeepsWinners(c, p, Local.Register(token, now));
      case Within(p, step) => if !step.Begin? && !step.Register? && !step.Abort? { InsideKeepsWinners(c, p, step); }
      case OnRow(id, write) => if !write.Claim? { WrittenKeepsWinners(c, id, write); }
    }
  }

  lemma {:induction false} RunKeepsWinners(limits: map<Process, Option<nat>>, regular: bool, events: seq<Event>)
    requires forall i :: 0 <= i < |events| ==> !events[i].Fail?
    ensures WinnersKept(Run(Start(limits, regular), events))
  {
    hide Next;
    if events != [] {
      var front, last := events[..|events| - 1], events[|events| - 1];
      assert forall i :: 0 <= i < |front| ==> front[i] == events[i];
      RunKeepsWinners(limits, regular, front);
      RunKeepsInv(limits, regular, front);
      NextKeepsWinners(Run(Start(limits, regular), front), last);
    }
  }

  /**
   While no database call fails, nobody's claim is in vain: whoever created or won an
   execution is still adding it or has registered it. Once no add of it is in flight, its
   incarnations in all processes are exactly its winners, so exactly as many as its creation,
   its recoveries while new, and the waits that were claimed.
   */
  lemma EveryWinnerRegisters(limits: map<Process, Option<nat>>, regular: bool, events: seq<Event>, id: ExecutionId)
    requires forall i :: 0 <= i < |events| ==> !events[i].Fail?
    requires id in Run(Start(limits, regular), events).rows
    ensures var c := Run(Start(limits, regular), events);
            && (forall r :: r in c.rows[id].won ==> Underway(c, id, r))
            && |c.rows[id].won| == 1 + c.rows[id].newClaims + c.rows[id].claims
            && ((forall p, t :: p in c.procs && t in c.procs[p].attempts ==> c.procs[p].attempts[t].id != id) ==>
                  forall r :: r in c.rows[id].won <==> r in Incarnations(c, id))
  {
    hide Next, Local.Inv;
    var c := Run(Start(limits, regular), events);
    RunKeepsWinners(limits, regular, events);
    RunKeepsInv(limits, regular, events);
    forall r | r in Incarnations(c, id) ensures r in c.rows[id].won {
      assert ProcessOk(c.rows, r.process, c.procs[r.process]);
      assert Won(c.rows, id, Rows.Runner(r.process, r.token));
    }
  }

  /** What losing a claim leaves behind: no row, no registry and no other process has changed. */
  ghost predicate LostBy(c: Cluster, c': Cluster, p: Process, token: Token) {
    && c'.rows == c.rows && c'.procs.Keys == c.procs.Keys
    && (forall q :: q in c.procs ==> c'.procs[q].reg == c.procs[q].reg && (q != p ==> c'.procs[q] == c.procs[q]))
    && p in c'.procs && token !in c'.procs[p].attempts && token !in c'.procs[p].acquired
  }

  lemma AbortTouchesNothing(c: Cluster, p: Process, token: Token)
    requires Inv(c) && Adding(c, p, token).Some?
    ensures LostBy(c, Inside(c, p, Local.Abort(token)), p, token)
  {
    assert ProcessOk(c.rows, p, c.procs[p]);
    LocalRuns.LoserTouchesNothing(c.procs[p], token);
  }

  /** A claim succeeds exactly on a row in the expected status; the loser keeps no slot and touches nothing. */
  lemma ClaimOutcome(c: Cluster, p: Process, token: Token, id: ExecutionId, expected: Rows.RowStatus)
    requires Inv(c) && AddsFor(c, p, token, id) && !HasWon(c, id, Rows.Runner(p, token))
    requires expected.New? || expected.Waiting?
    ensures var c' := Next(c, ClaimRow(p, token, expected));
            if id in c.rows && c.rows[id].status == expected then
              c'.procs == c.procs && c'.rows == c.rows[id := Rows.Claimed(c.rows[id], Rows.Runner(p, token))]
            else LostBy(c, c', p, token)
  {
    if ClaimSucceeds(c, id, Rows.Runner(p, token), expected) {
      ClaimWins(c, p, token, id, expected);
    } else {
      ClaimLoses(c, p, token, id, expected);
      AbortTouchesNothing(c, p, token);
    }
  }

  /** A claim of a row that is waiting ends the wait. */
  lemma ClaimEndsWait(c: Cluster, p: Process, t: Token, id: ExecutionId)
    requires Inv(c) && AddsFor(c, p, t, id) && ClaimSucceeds(c, id, Rows.Runner(p, t), Rows.Waiting)
    ensures var c1 := Next(c, ClaimRow(p, t, Rows.Waiting));
            Inv(c1) && c1.procs == c.procs && id in c1.rows
            && c1.rows[id].status.Running? && c1.rows[id].won == c.rows[id].won + {Rows.Runner(p, t)}
  {
    ClaimWins(c, p, t, id, Rows.Waiting);
    ClaimKeepsInv(c, p, t, Rows.Waiting);
  }

  /** Of two adds that race for a waiting row, in one process or in two, the second always loses. */
  lemma SecondClaimLoses(c: Cluster, p: Process, t: Token, q: Process, u: Token, id: ExecutionId)
    requires Inv(c) && (p != q || t != u) && AddsFor(c, p, t, id) && AddsFor(c, q, u, id)
    requires !HasWon(c, id, Rows.Runner(p, t)) && !HasWon(c, id, Rows.Runner(q, u))
    requires id in c.rows && c.rows[id].status.Waiting?
    ensures var c1 := Next(c, ClaimRow(p, t, Rows.Waiting)); var c2 := Next(c1, ClaimRow(q, u, Rows.Waiting));
            HasWon(c1, id, Rows.Runner(p, t)) && !HasWon(c1, id, Rows.Runner(q, u)) && LostBy(c1, c2, q, u)
  {
    hide Local.Inv, Local.Next;
    var c1 := Next(c, ClaimRow(p, t, Rows.Waiting));
    ClaimEndsWait(c, p, t, id);
    assert AddsFor(c1, q, u, id);
    ClaimOutcome(c1, q, u, id, Rows.Waiting);
  }

  // ----- Rows in a cluster -----

  /** What an event writes to the row `id`, if anything. */
  function WriteTo(c: Cluster, event: Event, id: ExecutionId): Option<Rows.RowStep> {
    match event
    case ClaimRow(p, token, expected) =>
      if AddsFor(c, p, token, id) then Some(Rows.Claim(Rows.Runner(p, token), expected)) else None
    case Fail(p, token) => if AddsFor(c, p, token, id) then Some(Rows.Die(Rows.Runner(p, token))) else None
    case OnRow(i, write) => if i == id && !write.Claim? then Some(write) else None
    case _ => None
  }

  lemma RowAfter(c: Cluster, event: Event, id: ExecutionId)
    ensures id in c.rows ==>
              && id in Next(c, event).rows
              && Next(c, event).rows[id] ==
                 if WriteTo(c, event, id).Some? then Rows.Next(c.rows[id], WriteTo(c, event, id).value) else c.rows[id]
    ensures id !in c.rows && id in Next(c, event).rows ==>
            event.Create? && exists r :: Next(c, event).rows[id] == Rows.Created(r)
  {
    hide Local.Next;
  }

  /** The step an event makes a process take, if any: of its adds, or anything else within it. */
  function StepOf(c: Cluster, event: Event, p: Process): Option<Local.Step> {
    match event
    case Create(q, id, mode) => if q == p && id !in c.rows then Some(Local.Begin(id, mode)) else None
    case Resume(q, id, mode) => if q == p then Some(Local.Begin(id, mode)) else None
    case ClaimRow(q, token, expected) => // a lost claim
      if q == p && Adding(c, p, token).Some? && !HasWon(c, Adding(c, p, token).value.id, Rows.Runner(p, token))
         && !(Adding(c, p, token).value.id in c.rows && c.rows[Adding(c, p, token).value.id].status == expected
              && (expected == Rows.New || expected == Rows.Waiting))
      then Some(Local.Abort(token)) else None
    case Join(q, token, now) =>
      if q == p && Adding(c, p, token).Some? && HasWon(c, Adding(c, p, token).value.id, Rows.Runner(p, token))
      then Some(Local.Register(token, now)) else None
    case Fail(q, token) => if q == p && Adding(c, p, token).Some? then Some(Local.Abort(token)) else None
    case Within(q, step) => if q == p && !step.Begin? && !step.Register? && !step.Abort? then Some(step) else None
    case OnRow(_, _) => None
  }

  /** With `RowAfter`: the cluster is its rows and its processes, each taking steps of its own machine only. */
  lemma ProcessAfter(c: Cluster, event: Event, p: Process)
    requires p in c.procs
    ensures p in Next(c, event).procs
    ensures Next(c, event).procs[p] ==
            if StepOf(c, event, p).Some? then Local.Next(c.procs[p], StepOf(c, event, p).value) else c.procs[p]
  {
    hide Local.Next;
  }

  /** No event gives a row a second runner, or one while it waits. */
  ghost predicate Tidy(c: Cluster, events: seq<Event>) {
    events != [] ==>
      && Tidy(c, events[..|events| - 1])
      && var m, last := Run(c, events[..|events| - 1]), events[|events| - 1];
         forall id :: id in m.rows && WriteTo(m, last, id).Some? ==>
             !Rows.Disorders(m.rows[id], WriteTo(m, last, id).value)
  }

  /** The writes from outside that ended a wait of the row. */
  function Tramplings(c: Cluster, events: seq<Event>, id: ExecutionId): nat {
    if events == [] then 0
    else
      var front, last := events[..|events| - 1], events[|events| - 1];
      var m := Run(c, front);
      var write := WriteTo(m, last, id);
      var tramples := id in m.rows && write.Some? && Rows.Tramples(m.rows[id], write.value);
      Tramplings(c, front, id) + (if tramples then 1 else 0)
  }

  /**
   Then, across all processes, no execution ever has two runners, none has one while it
   waits, and every wait ends in exactly one claim or cancellation, save those that a write
   from outside ended.
   */
  lemma {:induction false} ResumeOnceAcrossProcesses(limits: map<Process, Option<nat>>, regular: bool,
                                                     events: seq<Event>, id: ExecutionId)
    requires Tidy(Start(limits, regular), events) && id in Run(Start(limits, regular), events).rows
    ensures var row := Run(Start(limits, regular), events).rows[id];
            var trampled := Tramplings(Start(limits, regular), events, id);
            && Rows.SingleRunner(row)
            && row.claims + row.cancels == row.waits - Rows.WaitingNow(row) - trampled
  {
    hide Local.Next, Local.Inv, Next;
    RunKeepsInv(limits, regular, events);
    OverwritesAreTramplings(limits, regular, events, id);
  }

  lemma {:induction false} NotYetTrampled(limits: map<Process, Option<nat>>, regular: bool, events: seq<Event>,
                                          id: ExecutionId)
    requires id !in Run(Start(limits, regular), events).rows
    ensures Tramplings(Start(limits, regular), events, id) == 0
  {
    hide Local.Next, Next;
    if events != [] {
      var front := events[..|events| - 1];
      RowAfter(Run(Start(limits, regular), front), events[|events| - 1], id);
      NotYetTrampled(limits, regular, front, id);
    }
  }

  lemma {:induction false} OverwritesAreTramplings(limits: map<Process, Option<nat>>, regular: bool,
                                                   events: seq<Event>, id: ExecutionId)
    requires Tidy(Start(limits, regular), events) && id in Run(Start(limits, regular), events).rows
    ensures var row := Run(Start(limits, regular), events).rows[id];
            Rows.SingleRunner(row) && row.overwrites == Tramplings(Start(limits, regular), events, id)
  {
    hide Local.Next, Local.Inv, Next;
    if events != [] {
      var front, last := events[..|events| - 1], events[|events| - 1];
      var m := Run(Start(limits, regular), front);
      RunKeepsInv(limits, regular, front);
      RowAfter(m, last, id);
      if id in m.rows {
        OverwritesAreTramplings(limits, regular, front, id);
        if WriteTo(m, last, id).Some? { Rows.OrderlyStep(m.rows[id], WriteTo(m, last, id).value); }
      } else {
        NotYetTrampled(limits, regular, front, id);
      }
    }
  }

  // ----- Lost wake-ups -----

  /** The events that end a wait: a claim that wins, a cancellation, or a write from outside. */
  predicate Wakes(c: Cluster, event: Event, id: ExecutionId)
    requires id in c.rows
  {
    var write := WriteTo(c, event, id);
    write.Some? && (Rows.Wins(c.rows[id], write.value) || write.value.Cancel? || Rows.Tramples(c.rows[id], write.value))
  }

  /** The row waits, and nobody runs it. */
  predicate Waits(c: Cluster, id: ExecutionId) {
    id in c.rows && c.rows[id].status.Waiting? && c.rows[id].runners == {}
  }

  lemma WaitEndsIff(c: Cluster, event: Event, id: ExecutionId)
    requires Waits(c, id)
    ensures Waits(Next(c, event), id) <==> !Wakes(c, event, id)
  {
    hide Next;
    RowAfter(c, event, id);
  }

  lemma RunPrefix(c: Cluster, events: seq<Event>, k: nat)
    requires k < |events|
    ensures Run(c, events[..k + 1]) == Next(Run(c, events[..k]), events[k])
  {
    assert events[..k + 1][..k] == events[..k];
  }

  ghost predicate WaitsThroughout(c: Cluster, events: seq<Event>, id: ExecutionId) {
    forall k :: 0 <= k <= |events| ==> Waits(Run(c, events[..k]), id)
  }

  ghost predicate NothingWakes(c: Cluster, events: seq<Event>, id: ExecutionId) {
    forall k :: 0 <= k < |events| ==> id in Run(c, events[..k]).rows && !Wakes(Run(c, events[..k]), events[k], id)
  }

  /**
   A wait goes on throughout a run exactly if none of its events is a winning claim, a
   cancellation, or a write from outside that ends it.
   */
  lemma WaitsThroughoutIff(c: Cluster, events: seq<Event>, id: ExecutionId)
    requires Waits(c, id)
    ensures WaitsThroughout(c, events, id) <==> NothingWakes(c, events, id)
  {
    hide Next, Wakes, Waits;
    if WaitsThroughout(c, events, id) {
      forall k | 0 <= k < |events|
        ensures id in Run(c, events[..k]).rows && !Wakes(Run(c, events[..k]), events[k], id)
      {
        RunPrefix(c, events, k);
        assert Waits(Run(c, events[..k]), id) && Waits(Run(c, events[..k + 1]), id);
        WaitingRowExists(Run(c, events[..k]), id);
        WaitEndsIff(Run(c, events[..k]), events[k], id);
      }
    }
    if NothingWakes(c, events, id) {
      forall k | 0 <= k <= |events| ensures Waits(Run(c, events[..k]), id) { UnwokenWaits(c, events, id, k); }
    }
  }

  lemma WaitingRowExists(c: Cluster, id: ExecutionId)
    requires Waits(c, id)
    ensures id in c.rows
  {
  }

  lemma {:induction false} UnwokenWaits(c: Cluster, events: seq<Event>, id: ExecutionId, n: nat)
    requires Waits(c, id) && n <= |events| && NothingWakes(c, events, id)
    ensures Waits(Run(c, events[..n]), id)
  {
    hide Next, Wakes, Waits;
    if n == 0 {
      assert events[..0] == [];
    } else {
      UnwokenWaits(c, events, id, n - 1);
      RunPrefix(c, events, n - 1);
      WaitEndsIff(Run(c, events[..n - 1]), events[n - 1], id);
    }
  }

  predicate RunBy(c: Cluster, id: ExecutionId, r: Rows.Runner) {
    id in c.rows && c.rows[id].status.Running? && c.rows[id].runners == {r}
  }

  /** What `WaitTracker.startExecution` does for a parent, and what the parent's own run does when it goes to wait. */
  function Resumes(c: Cluster, p: Process, t: Token): Cluster {
    Next(c, ClaimRow(p, t, Rows.Waiting))
  }

  function Parks(c: Cluster, id: ExecutionId, parent: Rows.Runner): Cluster {
    Next(c, OnRow(id, Rows.Save(parent, Rows.Waiting, false, true)))
  }

  /**
   A child that finishes while its parent still runs resumes it exactly if the parent's wait
   is saved first. Otherwise its claim is spent on a row that does not wait yet, and the
   parent then waits throughout exactly those continuations in which nobody else ends it.
   */
  lemma WakeUpIsLostIff(c: Cluster, p: Process, t: Token, id: ExecutionId, parent: Rows.Runner, events: seq<Event>)
    requires Inv(c) && AddsFor(c, p, t, id) && !HasWon(c, id, Rows.Runner(p, t))
    requires RunBy(c, id, parent)
    ensures RunBy(Resumes(Parks(c, id, parent), p, t), id, Rows.Runner(p, t))
    ensures var missed := Parks(Resumes(c, p, t), id, parent);
            && Waits(missed, id) && Adding(missed, p, t).None?
            && (WaitsThroughout(missed, events, id) <==> NothingWakes(missed, events, id))
  {
    hide Next, Inv;
    SavedFirstIsResumed(c, p, t, id, parent);
    var refused, missed := Resumes(c, p, t), Parks(Resumes(c, p, t), id, parent);
    ClaimOutcome(c, p, t, id, Rows.Waiting);
    ParkedWaits(refused, id, parent);
    WaitsThroughoutIff(missed, events, id);
  }

  lemma ParkedWaits(c: Cluster, id: ExecutionId, parent: Rows.Runner)
    requires RunBy(c, id, parent)
    ensures Waits(Parks(c, id, parent), id) && Parks(c, id, parent).procs == c.procs
    ensures Parks(c, id, parent).rows[id].won == c.rows[id].won
  {
  }

  lemma SavedFirstIsResumed(c: Cluster, p: Process, t: Token, id: ExecutionId, parent: Rows.Runner)
    requires Inv(c) && AddsFor(c, p, t, id) && !HasWon(c, id, Rows.Runner(p, t))
    requires RunBy(c, id, parent)
    ensures RunBy(Resumes(Parks(c, id, parent), p, t), id, Rows.Runner(p, t))
  {
    hide Inv, Local.Next;
    var parked := Parks(c, id, parent);
    ParkedWaits(c, id, parent);
    assert AddsFor(parked, p, t, id);
    ClaimWins(parked, p, t, id, Rows.Waiting);
  }

  // ----- The races are reachable -----

  /** In a process without limits a new add goes straight through. */
  lemma BeginAndReserve(s: Local.State, id: ExecutionId)
    requires !s.gate.enabled
    ensures Local.Next(Local.Next(s, Local.Begin(id, Webhook)), Local.Reserve(s.next)) ==
            s.(attempts := s.attempts[s.next := Local.Attempt(id, Webhook, Local.PastReserve)],
               acquired := s.acquired[s.next := Webhook], next := s.next + 1)
  {
    var opening, past := Local.Attempt(id, Webhook, Local.Opening), Local.Attempt(id, Webhook, Local.PastReserve);
    assert s.attempts[s.next := opening][s.next := past] == s.attempts[s.next := past];
  }

  lemma RunSnoc(c: Cluster, events: seq<Event>, event: Event, all: seq<Event>)
    requires all == events + [event]
    ensures Run(c, all) == Next(Run(c, events), event)
  {
    assert all[..|all| - 1] == events;
  }

  /** Every add of process 0 up to now is about to claim `id`. */
  ghost predicate Ready(c: Cluster, adds: nat, id: ExecutionId) {
    && c.procs.Keys == {0} && c.procs[0].next == adds && !c.procs[0].gate.enabled
    && forall t :: 0 <= t < adds ==> AddsFor(c, 0, t, id)
  }

  /** One more resume of `id` in process 0. */
  lemma ResumedAgain(c: Cluster, events: seq<Event>, adds: nat, id: ExecutionId)
    requires Ready(Run(c, events), adds, id)
    ensures var c' := Run(c, events + [Resume(0, id, Webhook), Within(0, Local.Reserve(adds))]);
            Ready(c', adds + 1, id) && c'.rows == Run(c, events).rows
  {
    hide Local.Next;
    var m := Run(c, events);
    RunSnoc(c, events, Resume(0, id, Webhook), events + [Resume(0, id, Webhook)]);
    RunSnoc(c, events + [Resume(0, id, Webhook)], Within(0, Local.Reserve(adds)),
            events + [Resume(0, id, Webhook), Within(0, Local.Reserve(adds))]);
    BeginAndReserve(m.procs[0], id);
    var p := m.procs[0];
    var p' := Local.Next(Local.Next(p, Local.Begin(id, Webhook)), Local.Reserve(adds));
    var c' := Run(c, events + [Resume(0, id, Webhook), Within(0, Local.Reserve(adds))]);
    assert c'.procs == m.procs[0 := p'] && c'.rows == m.rows;
    forall t | 0 <= t < adds + 1 ensures AddsFor(c', 0, t, id) {
      if t < adds {
        assert AddsFor(m, 0, t, id);
        assert p'.attempts[t] == p.attempts[t];
      }
    }
  }

  /** Created, let through, and its row written once. */
  function FirstEvents(id: ExecutionId, write: Rows.RowStep): seq<Event> {
    [Create(0, id, Webhook), Within(0, Local.Reserve(0)), OnRow(id, write)]
  }

  lemma CreatedAndWritten(id: ExecutionId, write: Rows.RowStep)
    requires !write.Claim?
    ensures var c := Run(Start(map[0 := None], true), FirstEvents(id, write));
            Ready(c, 1, id) && c.rows == map[id := Rows.Next(Rows.Created(Rows.Runner(0, 0)), write)]
  {
    hide Local.Next;
    var c0 := Start(map[0 := None], true);
    RunSnoc(c0, [], Create(0, id, Webhook), [Create(0, id, Webhook)]);
    RunSnoc(c0, [Create(0, id, Webhook)], Within(0, Local.Reserve(0)),
        [Create(0, id, Webhook), Within(0, Local.Reserve(0))]);
    RunSnoc(c0, [Create(0, id, Webhook), Within(0, Local.Reserve(0))], OnRow(id, write), FirstEvents(id, write));
    assert c0.procs == map[0 := Local.Initial(None, true)];
    BeginAndReserve(c0.procs[0], id);
  }

  /** A wake-up can be lost: the parent runs, and a resume of it is about to claim its row. */
  lemma LostWakeUpIsReachable(id: ExecutionId, now: nat)
    ensures var running := FirstEvents(id, Rows.SetRunning(Rows.Runner(0, 0), now));
            var c := Run(Start(map[0 := None], true), running + [Resume(0, id, Webhook), Within(0, Local.Reserve(1))]);
            Inv(c) && AddsFor(c, 0, 1, id) && !HasWon(c, id, Rows.Runner(0, 1)) && RunBy(c, id, Rows.Runner(0, 0))
  {
    hide Next, Inv, Local.Next, Local.Inv;
    var running := FirstEvents(id, Rows.SetRunning(Rows.Runner(0, 0), now));
    CreatedAndWritten(id, Rows.SetRunning(Rows.Runner(0, 0), now));
    ResumedAgain(Start(map[0 := None], true), running, 1, id);
    RunKeepsInv(map[0 := None], true, running + [Resume(0, id, Webhook), Within(0, Local.Reserve(1))]);
  }

  /** Two adds can race for a waiting row. */
  lemma RaceIsReachable(id: ExecutionId)
    ensures var parked := FirstEvents(id, Rows.Save(Rows.Runner(0, 0), Rows.Waiting, false, true));
            var one := parked + [Resume(0, id, Webhook), Within(0, Local.Reserve(1))];
            var c := Run(Start(map[0 := None], true), one + [Resume(0, id, Webhook), Within(0, Local.Reserve(2))]);
            && Inv(c) && AddsFor(c, 0, 1, id) && AddsFor(c, 0, 2, id) && Waits(c, id)
            && !HasWon(c, id, Rows.Runner(0, 1)) && !HasWon(c, id, Rows.Runner(0, 2))
  {
    hide Next, Inv, Local.Next, Local.Inv;
    var parked := FirstEvents(id, Rows.Save(Rows.Runner(0, 0), Rows.Waiting, false, true));
    var one := parked + [Resume(0, id, Webhook), Within(0, Local.Reserve(1))];
    CreatedAndWritten(id, Rows.Save(Rows.Runner(0, 0), Rows.Waiting, false, true));
    ResumedAgain(Start(map[0 := None], true), parked, 1, id);
    ResumedAgain(Start(map[0 := None], true), one, 2, id);
    RunKeepsInv(map[0 := None], true, one + [Resume(0, id, Webhook), Within(0, Local.Reserve(2))]);
  }
}
