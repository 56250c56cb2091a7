/**
 * The worker side of the protocol (action-engine/claim-worker.service.ts): one dispatch from the claimed
 * row to its outcome, in place, and the proof that it is a run of the action engine's steps.
 */
module ClaimWorker {
  import opened Options
  import opened RetryPolicy
  import opened ActionTable
  import opened ActionEngine
  import CB = CircuitBreaker

  /** What a dispatch meets: clock readings, the executor and its result, the jitter draw. */
  datatype Env = Env(
    checkedAt: int,      // clock of the breaker check
    hasExecutor: bool,
    outcome: Outcome,    // a thrown error is already classified
    startedAt: int,      // database clock of markRunning
    writtenAt: int,      // database clock of the outcome write
    workerNow: int,      // worker clock when the next schedule is computed
    jitter: real,
    sentTable: bool,
    recordedAt: int,     // clock readings of the breaker record
    pauseFrom: int
  )

  function OutcomeRows(rows: Table, id: ActionId, row: Row, env: Env): Table {
    match env.outcome
    case Ok(fields) => MarkSucceeded(rows, id, fields, env.sentTable, env.writtenAt)
    case Err(message, errorClass) =>
      MarkFailed(rows, id, Failure(row, message, errorClass, env.jitter, env.workerNow), env.writtenAt)
  }

  function OutcomeCells(cells: CB.Cells, row: Row, env: Env): CB.Cells {
    match env.outcome
    case Ok(_) =>
      CB.DeleteAll(CB.SuccessWritten(cells, row.accountId, env.recordedAt), row.accountId, CB.PAUSE_KEYS)
    case Err(message, _) => CB.FailureWritten(cells, row.accountId, message, env.recordedAt, env.pauseFrom)
  }

  function DispatchRows(rows: Table, cells: CB.Cells, id: ActionId, row: Row, env: Env): Table {
    if CB.IsPaused(cells, row.accountId, env.checkedAt) then
      MarkFailed(rows, id, Deferral(row, env.workerNow), env.writtenAt)
    else if !env.hasExecutor then rows
    else OutcomeRows(MarkRunning(rows, id, env.startedAt), id, row, env)
  }

  function DispatchCells(cells: CB.Cells, row: Row, env: Env): CB.Cells {
    if CB.IsPaused(cells, row.accountId, env.checkedAt) || !env.hasExecutor then cells
    else OutcomeCells(cells, row, env)
  }

  // ---------------------------------------------------------------- what an outcome leaves behind

  /** The row `was` of the table after the outcome, if it is still the one that was handed out. */
  ghost predicate RowTells(was: Row, r: Row, handed: Row, env: Env) {
    match env.outcome
    case Ok(f) => SucceededAs(was, r, f, env.sentTable, env.writtenAt)
    case Err(message, errorClass) =>
      SameAction(handed, was) && handed.attempts == was.attempts && Draw(env.jitter) ==>
        exists delayMs: real :: FailedAs(was, r, message, errorClass, env.jitter, env.workerNow, delayMs)
  }

  /** A success clears the account's count and pause; a failure counts one more and may pause it. */
  ghost predicate CellsTell(before: CB.Cells, after: CB.Cells, row: Row, env: Env) {
    match env.outcome
    case Ok(_) => CB.IsAfterSuccess(before, after, row.accountId, env.recordedAt)
    case Err(message, _) => CB.IsAfterFailure(before, after, row.accountId, message, env.recordedAt, env.pauseFrom)
  }

  ghost predicate OutcomeTold(before: Table, after: Table, cells: CB.Cells, cells': CB.Cells, id: ActionId, row: Row, env: Env) {
    && OnlyAt(before, after, id) && (id in before ==> RowTells(before[id], after[id], row, env))
    && CellsTell(cells, cells', row, env)
  }

  lemma OutcomeIsTold(rows: Table, cells: CB.Cells, id: ActionId, row: Row, env: Env)
    ensures OutcomeTold(rows, OutcomeRows(rows, id, row, env), cells, OutcomeCells(cells, row, env), id, row, env)
  {
    OutcomeRowTells(rows, id, row, env);
    OutcomeCellsTell(cells, row, env);
    hide RowTells, CellsTell, OutcomeCells, Failure;
  }

  lemma OutcomeCellsTell(cells: CB.Cells, row: Row, env: Env)
    ensures CellsTell(cells, OutcomeCells(cells, row, env), row, env)
  {
    hide CB.IsAfterSuccess, CB.IsAfterFailure;
    match env.outcome
    case Ok(_) => CB.SuccessCells(cells, row.accountId, env.recordedAt);
    case Err(message, _) => CB.FailureCells(cells, row.accountId, message, env.recordedAt, env.pauseFrom);
  }

  lemma OutcomeRowTells(rows: Table, id: ActionId, row: Row, env: Env)
    ensures id in rows ==>
      id in OutcomeRows(rows, id, row, env) && RowTells(rows[id], OutcomeRows(rows, id, row, env)[id], row, env)
  {
    hide Decide, Failure, FailedAs, SucceededAs, Draw;
    if id in rows && env.outcome.Ok? {
      SuccessSucceeds(rows[id], env.outcome.fields, env.sentTable, env.writtenAt);
    }
    if id in rows && env.outcome.Err? && SameAction(row, rows[id]) && row.attempts == rows[id].attempts && Draw(env.jitter) {
      FailureFailsTheRow(rows[id], row, env.outcome.message, env.outcome.errorClass, env.jitter, env.workerNow, env.writtenAt);
    }
  }

  class Worker {
    const table: Actions
    const breaker: CB.Breaker

    constructor (table: Actions, breaker: CB.Breaker)
      ensures this.table == table && this.breaker == breaker
    {
      this.table := table;
      this.breaker := breaker;
    }

    method PersistSuccess(id: ActionId, row: Row, fields: SuccessFields, env: Env)
      modifies table, breaker.state
      ensures table.rows == MarkSucceeded(old(table.rows), id, fields, env.sentTable, env.writtenAt)
      ensures breaker.state.cells ==
        CB.DeleteAll(CB.SuccessWritten(old(breaker.state.cells), row.accountId, env.recordedAt), row.accountId, CB.PAUSE_KEYS)
    {
      hide MarkSucceeded, CB.DeleteAll, CB.SuccessWritten, CB.IsAfterSuccess, AtRest, OnlyAt;
      table.SetSucceeded(id, fields, env.sentTable, env.writtenAt);
      breaker.RecordSuccess(row.accountId, env.recordedAt);
    }

    method PersistFailure(id: ActionId, row: Row, message: string, errorClass: ErrorClass, env: Env)
      modifies table, breaker.state
      ensures table.rows ==
        MarkFailed(old(table.rows), id, Failure(row, message, errorClass, env.jitter, env.workerNow), env.writtenAt)
      ensures breaker.state.cells ==
        CB.FailureWritten(old(breaker.state.cells), row.accountId, message, env.recordedAt, env.pauseFrom)
    {
      hide Decide, MarkFailed, CB.FailureWritten, CB.IsAfterFailure, CB.Load, OnlyAt, Eligible;
      var attempts := row.attempts + 1;
      var decision := Decide(attempts, errorClass, row.maxAttempts, env.jitter);
      var next := FailureFields(
        if decision.shouldRetry then Failed else Dead, attempts, message, errorClass,
        if decision.shouldRetry then Some((env.workerNow as real + decision.delayMs).Floor) else None);
      table.SetFailed(id, next, env.writtenAt);
      var _ := breaker.RecordFailure(row.accountId, message, env.recordedAt, env.pauseFrom);
    }

    method PersistOutcome(id: ActionId, row: Row, env: Env)
      modifies table, breaker.state
      ensures table.rows == OutcomeRows(old(table.rows), id, row, env)
      ensures breaker.state.cells == OutcomeCells(old(breaker.state.cells), row, env)
      ensures OutcomeTold(old(table.rows), table.rows, old(breaker.state.cells), breaker.state.cells, id, row, env)
    {
      OutcomeIsTold(table.rows, breaker.state.cells, id, row, env);
      hide OutcomeTold, Failure, MarkFailed, MarkSucceeded, CB.DeleteAll, CB.SuccessWritten, CB.FailureWritten;
      match env.outcome
      case Ok(fields) => PersistSuccess(id, row, fields, env);
      case Err(message, errorClass) => PersistFailure(id, row, message, errorClass, env);
    }

    method Dispatch(id: ActionId, row: Row, env: Env)
      modifies table, breaker.state
      ensures table.rows == DispatchRows(old(table.rows), old(breaker.state.cells), id, row, env)
      ensures breaker.state.cells == DispatchCells(old(breaker.state.cells), row, env)
    {
      var paused := breaker.Paused(row.accountId, env.checkedAt);
      if paused {
        table.SetFailed(id, Deferral(row, env.workerNow), env.writtenAt);
        return;
      }
      if !env.hasExecutor {
        return;
      }
      table.SetRunning(id, env.startedAt);
      PersistOutcome(id, row, env);
    }
  }

  // ---------------------------------------------------------------- a dispatch is a run

  function StepsOf(cells: CB.Cells, k: Ticket, row: Row, env: Env): seq<Step> {
    if CB.IsPaused(cells, row.accountId, env.checkedAt) then [Tick(env.writtenAt), Defer(k, env.workerNow)]
    else if !env.hasExecutor then [Skip(k)]
    else [Tick(env.startedAt), Start(k), Invoke(k), Return(k, env.outcome), Tick(env.writtenAt),
          Persist(k, env.sentTable, env.jitter, env.workerNow)]
  }

  /** The last two steps: the outcome returned, then written at its own time. */
  lemma ExecutedPart(s: State, k: Ticket, env: Env)
    requires AtPhase(s, k, Executing) && k.id !in Locked(s) && Draw(env.jitter)
    ensures var steps := [Return(k, env.outcome), Tick(env.writtenAt), Persist(k, env.sentTable, env.jitter, env.workerNow)];
      && IsRun(s, steps)
      && After(s, steps).rows == OutcomeRows(s.rows, k.id, s.live[k].row, env)
      && After(s, steps).live == s.live - {k}
  {
    hide Failure, Decide, MarkFailed, MarkSucceeded, Draw, IsRun, After;
    var s1 := DoReturn(s, k, env.outcome);
    var s2 := s1.(now := env.writtenAt);
    var persist := Persist(k, env.sentTable, env.jitter, env.workerNow);
    assert Locked(s2) == Locked(s);
    hide Locked;
    var s3 := Apply(s2, persist);
    NoStep(s3);
    FirstStep(s2, persist, []);
    FirstStep(s1, Tick(env.writtenAt), [persist] + []);
    FirstStep(s, Return(k, env.outcome), [Tick(env.writtenAt)] + ([persist] + []));
    assert [Return(k, env.outcome)] + ([Tick(env.writtenAt)] + ([persist] + [])) ==
      [Return(k, env.outcome), Tick(env.writtenAt), persist];
    assert s2.live - {k} == s.live - {k};
  }

  lemma StartedPart(s: State, k: Ticket, env: Env)
    requires AtPhase(s, k, Taken) && k.id !in Locked(s)
    ensures var steps := [Tick(env.startedAt), Start(k), Invoke(k)];
      && IsRun(s, steps)
      && After(s, steps).rows == MarkRunning(s.rows, k.id, env.startedAt)
      && AtPhase(After(s, steps), k, Executing) && After(s, steps).claims == s.claims
      && After(s, steps).live == s.live[k := s.live[k].(phase := Executing)]
  {
    hide MarkRunning, IsRun, After;
    var s1 := s.(now := env.startedAt);
    var s2 := DoStart(s1, k);
    assert Locked(s1) == Locked(s);
    hide Locked;
    var s3 := DoInvoke(s2, k);
    assert Enabled(s2, Invoke(k)) && Apply(s2, Invoke(k)) == s3;
    assert s3.live == s.live[k := s.live[k].(phase := Executing)];
    NoStep(s3);
    FirstStep(s2, Invoke(k), []);
    FirstStep(s1, Start(k), [Invoke(k)] + []);
    FirstStep(s, Tick(env.startedAt), [Start(k)] + ([Invoke(k)] + []));
    assert [Tick(env.startedAt)] + ([Start(k)] + ([Invoke(k)] + [])) == [Tick(env.startedAt), Start(k), Invoke(k)];
  }

  lemma {:induction false} RunThenRun(s: State, first: seq<Step>, second: seq<Step>)
    requires IsRun(s, first) && IsRun(After(s, first), second)
    ensures IsRun(s, first + second) && After(s, first + second) == After(After(s, first), second)
    decreases |first|
  {
    hide Apply, Enabled;
    if first == [] {
      assert first + second == second;
    } else {
      RunThenRun(Apply(s, first[0]), first[1..], second);
      assert (first + second)[1..] == first[1..] + second;
    }
  }

  /**
   * The worker's dispatch, left alone, is one run of the engine's steps from the claimed row to the end of
   * the dispatch, and leaves the table exactly as the method does.
   */
  lemma DispatchIsARun(s: State, cells: CB.Cells, k: Ticket, env: Env)
    requires AtPhase(s, k, Taken) && k.id !in Locked(s) && Draw(env.jitter)
    ensures var steps := StepsOf(cells, k, s.live[k].row, env);
      && IsRun(s, steps)
      && After(s, steps).rows == DispatchRows(s.rows, cells, k.id, s.live[k].row, env)
      && After(s, steps).live == s.live - {k}
  {
    hide CB.IsPaused, MarkFailed, OutcomeRows, MarkRunning, Draw;
    var row := s.live[k].row;
    if CB.IsPaused(cells, row.accountId, env.checkedAt) {
      var s1 := s.(now := env.writtenAt);
      assert Locked(s1) == Locked(s);
      FirstStep(s1, Defer(k, env.workerNow), []);
      FirstStep(s, Tick(env.writtenAt), [Defer(k, env.workerNow)]);
      assert [Tick(env.writtenAt)] + ([Defer(k, env.workerNow)] + []) == [Tick(env.writtenAt), Defer(k, env.workerNow)];
    } else if !env.hasExecutor {
      FirstStep(s, Skip(k), []);
      assert [Skip(k)] + [] == [Skip(k)];
    } else {
      var first := [Tick(env.startedAt), Start(k), Invoke(k)];
      var second := [Return(k, env.outcome), Tick(env.writtenAt), Persist(k, env.sentTable, env.jitter, env.workerNow)];
      StartedPart(s, k, env);
      var mid := After(s, first);
      assert Locked(mid) == Locked(s);
      ExecutedPart(mid, k, env);
      RunThenRun(s, first, second);
      assert first + second == StepsOf(cells, k, row, env);
      assert mid.live - {k} == s.live - {k};
    }
  }

  // ---------------------------------------------------------------- what the breaker hears from the worker

  /** The breaker event of a dispatch that executed. */
  function EventOf(row: Row, env: Env): CB.Event {
    match env.outcome
    case Ok(_) => CB.Success(row.accountId, env.recordedAt, true)
    case Err(message, _) => CB.Failure(row.accountId, message, env.recordedAt, env.pauseFrom)
  }

  predicate Executes(cells: CB.Cells, row: Row, env: Env) {
    !CB.IsPaused(cells, row.accountId, env.checkedAt) && env.hasExecutor
  }

  /** A dispatch writes one event to the breaker if it executes, and nothing if not. */
  lemma DispatchIsAnEvent(cells: CB.Cells, row: Row, env: Env)
    ensures DispatchCells(cells, row, env) == if Executes(cells, row, env) then CB.Write(cells, EventOf(row, env)) else cells
  {
  }

  type Job = (Row, Env)

  /** The breaker's cells after dispatches of any accounts, one after another. */
  function CellsAfter(jobs: seq<Job>): CB.Cells {
    if jobs == [] then map[] else
    var last := jobs[|jobs| - 1];
    DispatchCells(CellsAfter(jobs[..|jobs| - 1]), last.0, last.1)
  }

  function EventsOf(jobs: seq<Job>): seq<CB.Event> {
    if jobs == [] then [] else
    var front, last := jobs[..|jobs| - 1], jobs[|jobs| - 1];
    EventsOf(front) + (if Executes(CellsAfter(front), last.0, last.1) then [EventOf(last.0, last.1)] else [])
  }

  lemma NoEvents()
    ensures CB.CellsOf([]) == map[]
  {
  }

  lemma OneMoreEvent(log: seq<CB.Event>, e: CB.Event)
    ensures CB.CellsOf(log + [e]) == CB.Write(CB.CellsOf(log), e)
  {
    assert (log + [e])[..|log|] == log;
  }

  lemma {:induction false} WorkerWritesTheLog(jobs: seq<Job>)
    ensures CellsAfter(jobs) == CB.CellsOf(EventsOf(jobs))
  {
    hide DispatchCells, Executes, EventOf, CB.Write, CB.CellsOf;
    assert CB.CellsOf([]) == map[] by { NoEvents(); }
    if jobs != [] {
      var front, last := jobs[..|jobs| - 1], jobs[|jobs| - 1];
      WorkerWritesTheLog(front);
      DispatchIsAnEvent(CellsAfter(front), last.0, last.1);
      assert CellsAfter(jobs) == DispatchCells(CellsAfter(front), last.0, last.1);
      if Executes(CellsAfter(front), last.0, last.1) {
        assert EventsOf(jobs) == EventsOf(front) + [EventOf(last.0, last.1)];
        OneMoreEvent(EventsOf(front), EventOf(last.0, last.1));
      } else {
        assert EventsOf(jobs) == EventsOf(front) + [] == EventsOf(front);
      }
    }
  }

  /**
   * After any dispatches the next one is deferred exactly if the account's executed dispatches end in at least
   * three failures and less than an hour has passed since the last of them.
   */
  lemma DefersIff(jobs: seq<Job>, table: Table, id: ActionId, row: Row, env: Env)
    ensures var own := CB.Own(EventsOf(jobs), row.accountId);
      var paused := CB.Trailing(own) >= 3 && env.checkedAt < own[|own| - 1].pauseFrom + 3600000;
      && DispatchRows(table, CellsAfter(jobs), id, row, env) == (
           if paused then MarkFailed(table, id, Deferral(row, env.workerNow), env.writtenAt)
           else if !env.hasExecutor then table
           else OutcomeRows(MarkRunning(table, id, env.startedAt), id, row, env))
      && (!paused && env.hasExecutor <==> |EventsOf(jobs + [(row, env)])| == |EventsOf(jobs)| + 1)
  {
    hide CB.IsPaused, CB.Own, CB.Trailing, CB.Load, MarkFailed, MarkRunning, OutcomeRows, Deferral;
    WorkerWritesTheLog(jobs);
    CB.BreakerFollowsLog(EventsOf(jobs), row.accountId, env.checkedAt);
    CB.LastIsFailure(CB.Own(EventsOf(jobs), row.accountId));
    assert (jobs + [(row, env)])[..|jobs|] == jobs;
  }
}
