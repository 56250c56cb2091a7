/**
 * The action engine as a step system: any number of workers claim rows, run executors and write
 * the outcome back, while administrators cancel, replay and archive the same rows and the circuit
 * breaker defers them. A worker may vanish between any two steps, and `locked_until` may pass at
 * any time. markSucceeded and markFailed are unguarded (WHERE id=$1), so their safety is a property
 * of whole runs, proved here from one invariant.
 */
module ActionEngine {
  import opened Options
  import opened RetryPolicy
  import opened ActionTable

  // ---------------------------------------------------------------- state

  datatype Outcome = Ok(fields: SuccessFields) | Err(message: string, errorClass: ErrorClass)

  /** Where a dispatch (claim-worker.service.ts) stands between two awaits. */
  datatype Phase = Taken | Started | Executing | Finished(outcome: Outcome)

  /** A live dispatch with the row it was handed by the claim. */
  datatype Dispatch = Dispatch(row: Row, phase: Phase)

  /** A dispatch is named by the claim that created it and the row. */
  datatype Ticket = Ticket(claim: nat, id: ActionId)

  /** A claimBatch transaction that has locked rows and not committed yet, with the rows as it saw them. */
  datatype Claim = Claim(worker: string, until: int, at: int, picked: map<ActionId, Row>)

  datatype Event =
    | Inserted(id: ActionId)
    | Replayed(id: ActionId)
    | Invoked(id: ActionId, key: string)
    | Returned(id: ActionId, key: string, ok: bool)
    | Recorded(id: ActionId, delayMs: real)

  datatype State = State(
    rows: Table,
    live: map<Ticket, Dispatch>,
    claims: map<nat, Claim>,
    now: int,
    log: seq<Event>
  )

  ghost predicate Init(s: State) {
    s.rows == map[] && s.live == map[] && s.claims == map[] && s.log == []
  }

  // ---------------------------------------------------------------- steps

  datatype Step =
    | Insert(id: ActionId, fields: NewAction)
    | ClaimLock(t: nat, worker: string, batch: nat, lockTtlSec: int, byPriority: bool, chosen: set<ActionId>)
    | ClaimCommit(t: nat)
    | ClaimAbort(t: nat)
    | Defer(k: Ticket, workerNow: int)
    | Skip(k: Ticket)
    | Start(k: Ticket)
    | Invoke(k: Ticket)
    | Return(k: Ticket, outcome: Outcome)
    | Persist(k: Ticket, sentTable: bool, jitter: real, workerNow: int)
    | Crash(k: Ticket)
    | ReplayRow(id: ActionId)
    | CancelRow(id: ActionId)
    | Archive
    | CancelAccount(account: string)
    | Tick(to: int)

  const BREAKER_DEFER_MS := 300000

  function Locked(s: State): set<ActionId> {
    set t, i | t in s.claims && i in s.claims[t].picked :: i
  }

  predicate AtPhase(s: State, k: Ticket, p: Phase) { k in s.live && s.live[k].phase == p }

  /** A statement waits while another transaction holds a row it would change. */
  ghost predicate Enabled(s: State, step: Step) {
    match step
    case Insert(id, _) => id !in s.rows
    case ClaimLock(t, _, batch, _, byPriority, chosen) =>
      && t !in s.claims && (forall k :: k in s.live ==> k.claim != t)
      && IsBatch(s.rows, Free(s.rows, Locked(s), s.now), batch, byPriority, chosen)
    case ClaimCommit(t) => t in s.claims
    case ClaimAbort(t) => t in s.claims
    case Defer(k, _) => AtPhase(s, k, Taken) && k.id !in Locked(s)
    case Skip(k) => AtPhase(s, k, Taken)
    case Start(k) => AtPhase(s, k, Taken) && k.id !in Locked(s)
    case Invoke(k) => AtPhase(s, k, Started)
    case Return(k, _) => AtPhase(s, k, Executing)
    case Persist(k, _, jitter, _) =>
      k in s.live && s.live[k].phase.Finished? && k.id !in Locked(s) && Draw(jitter)
    case Crash(k) => k in s.live
    case ReplayRow(id) => id !in Locked(s)
    case CancelRow(id) => id !in Locked(s)
    case Archive => forall i :: i in s.rows && s.rows[i].status == Dead ==> i !in Locked(s)
    case CancelAccount(a) =>
      forall i :: i in s.rows && s.rows[i].accountId == a && Waiting(s.rows[i]) ==> i !in Locked(s)
    case Tick(_) => true
  }

  /** The write of persistOutcome for a failed execution. */
  function Failure(row: Row, message: string, errorClass: ErrorClass, jitter: real, workerNow: int): FailureFields {
    var attempts := row.attempts + 1;
    var decision := Decide(attempts, errorClass, row.maxAttempts, jitter);
    FailureFields(
      if decision.shouldRetry then Failed else Dead, attempts, message, errorClass,
      if decision.shouldRetry then Some((workerNow as real + decision.delayMs).Floor) else None)
  }

  /**
   * What a recorded failure makes of the row: one attempt more, the error noted, the lock gone. While attempts
   * remain and the error is not permanent it is failed and due again when the worker's clock has passed the
   * granted delay; else it is dead and due at no time.
   */
  ghost predicate FailedAs(
      was: Row, r: Row, message: string, errorClass: ErrorClass, jitter: real, workerNow: int, delayMs: real)
  {
    && SameAction(r, was) && r.result == was.result && Unlocked(r)
    && r.attempts == was.attempts + 1 && r.lastError == Some(message) && r.errorClass == Some(errorClass)
    && if errorClass != Permanent && was.attempts + 1 < was.maxAttempts then
         && r.status == Failed && r.scheduledAt == (workerNow as real + delayMs).Floor
         && IsDelay(errorClass, was.attempts + 1, jitter, delayMs)
         && forall t: int :: Eligible(r, t) <==> workerNow as real + delayMs < t as real + 1.0
       else
         r.status == Dead && r.scheduledAt == was.scheduledAt && delayMs == 0.0 && forall t :: !Eligible(r, t)
  }

  /** What a success makes of the row: done, unlocked, its result kept, and otherwise the action it was. */
  predicate SucceededAs(was: Row, r: Row, f: SuccessFields, sentTable: bool, at: int) {
    && r.status == Succeeded && Unlocked(r) && SameWork(r.(result := was.result), was)
    && r.result == Some(
         if sentTable then Sent(f.tweetId, f.tweetUrl, if f.sentAt.Some? then f.sentAt.value else at)
         else Done(if f.resultAt.Some? then f.resultAt.value else at))
  }

  lemma SuccessSucceeds(was: Row, f: SuccessFields, sentTable: bool, at: int)
    ensures SucceededAs(was, SucceedRow(was, f, sentTable, at), f, sentTable, at)
  {
  }

  /** The delay of the class, within its bounds. */
  predicate IsDelay(errorClass: ErrorClass, attempt: int, jitter: real, delayMs: real) {
    match errorClass
    case Auth => delayMs == 300000.0
    case RateLimit => 60000.0 <= delayMs <= 1800000.0 && delayMs == RateLimitDelay(attempt)
    case Transient => 1000.0 <= delayMs <= 300000.0 && delayMs == TransientDelay(attempt, jitter)
    case Permanent => false
  }

  lemma FailureFailsTheRow(was: Row, handed: Row, message: string, errorClass: ErrorClass, jitter: real, workerNow: int, now: int)
    requires SameAction(handed, was) && handed.attempts == was.attempts && Draw(jitter)
    ensures FailedAs(was, FailRow(was, Failure(handed, message, errorClass, jitter, workerNow), now), message, errorClass,
                     jitter, workerNow, Decide(was.attempts + 1, errorClass, was.maxAttempts, jitter).delayMs)
  {
    DecisionBounds(was.attempts + 1, errorClass, was.maxAttempts, jitter);
    if errorClass != Permanent && was.attempts + 1 < was.maxAttempts {
      DecisionDelays(was.attempts + 1, errorClass, was.maxAttempts, jitter);
    }
    hide Draw, RateLimitDelay, TransientDelay;
    var delay := Decide(was.attempts + 1, errorClass, was.maxAttempts, jitter).delayMs;
    var r := FailRow(was, Failure(handed, message, errorClass, jitter, workerNow), now);
    hide Decide;
    forall t
      ensures Eligible(r, t) <==> Waiting(r) && r.attempts < r.maxAttempts && r.scheduledAt <= t
      ensures (workerNow as real + delay).Floor <= t <==> workerNow as real + delay < t as real + 1.0
    {
      FloorAtMost(workerNow as real + delay, t);
    }
  }

  lemma FloorAtMost(x: real, t: int)
    ensures x.Floor <= t <==> x < t as real + 1.0
  {
  }

  /** The write of a breaker deferral: back to pending, no attempt spent. */
  function Deferral(row: Row, workerNow: int): FailureFields {
    FailureFields(Pending, row.attempts, "circuit breaker: account paused", Transient,
                  Some(workerNow + BREAKER_DEFER_MS))
  }

  ghost function DoInsert(s: State, id: ActionId, f: NewAction): State {
    s.(rows := InsertIfAbsent(s.rows, id, f, s.now),
       log := if KeyTaken(s.rows, f.key) then s.log else s.log + [Inserted(id)])
  }

  function DoClaimLock(s: State, t: nat, worker: string, lockTtlSec: int, chosen: set<ActionId>): State
    requires chosen <= s.rows.Keys
  {
    s.(claims := s.claims[t := Claim(worker, s.now + lockTtlSec * 1000, s.now, map i | i in chosen :: s.rows[i])])
  }

  function DoClaimCommit(s: State, t: nat): State
    requires t in s.claims
  {
    var c := s.claims[t];
    var born := map k | k in (set i | i in c.picked :: Ticket(t, i)) ::
                  Dispatch(Lease(c.picked[k.id], c.worker, c.until, c.at), Taken);
    s.(rows := ClaimRows(s.rows, c.picked.Keys, c.worker, c.until, c.at),
       claims := s.claims - {t},
       live := s.live + born)
  }

  function DoDefer(s: State, k: Ticket, workerNow: int): State
    requires k in s.live
  {
    s.(rows := MarkFailed(s.rows, k.id, Deferral(s.live[k].row, workerNow), s.now), live := s.live - {k})
  }

  function Advance(s: State, k: Ticket, p: Phase): map<Ticket, Dispatch>
    requires k in s.live
  {
    s.live[k := s.live[k].(phase := p)]
  }

  function DoStart(s: State, k: Ticket): State
    requires k in s.live
  {
    s.(rows := MarkRunning(s.rows, k.id, s.now), live := Advance(s, k, Started))
  }

  function DoInvoke(s: State, k: Ticket): State
    requires k in s.live
  {
    s.(live := Advance(s, k, Executing), log := s.log + [Invoked(k.id, s.live[k].row.key)])
  }

  function DoReturn(s: State, k: Ticket, outcome: Outcome): State
    requires k in s.live
  {
    s.(live := Advance(s, k, Finished(outcome)), log := s.log + [Returned(k.id, s.live[k].row.key, outcome.Ok?)])
  }

  function DoPersist(s: State, k: Ticket, sentTable: bool, jitter: real, workerNow: int): State
    requires k in s.live && s.live[k].phase.Finished?
  {
    var d := s.live[k];
    match d.phase.outcome
    case Ok(fields) =>
      s.(rows := MarkSucceeded(s.rows, k.id, fields, sentTable, s.now), live := s.live - {k})
    case Err(message, errorClass) =>
      s.(rows := MarkFailed(s.rows, k.id, Failure(d.row, message, errorClass, jitter, workerNow), s.now),
         live := s.live - {k},
         log := s.log + [Recorded(k.id, Decide(d.row.attempts + 1, errorClass, d.row.maxAttempts, jitter).delayMs)])
  }

  function DoReplay(s: State, id: ActionId): State {
    s.(rows := Replay(s.rows, id, s.now),
       log := if id in s.rows && Replayable(s.rows[id]) then s.log + [Replayed(id)] else s.log)
  }

  ghost function Apply(s: State, step: Step): State
    requires Enabled(s, step)
  {
    match step
    case Insert(id, f) => DoInsert(s, id, f)
    case ClaimLock(t, worker, _, lockTtlSec, _, chosen) => DoClaimLock(s, t, worker, lockTtlSec, chosen)
    case ClaimCommit(t) => DoClaimCommit(s, t)
    case ClaimAbort(t) => s.(claims := s.claims - {t})
    case Defer(k, workerNow) => DoDefer(s, k, workerNow)
    case Skip(k) => s.(live := s.live - {k})
    case Start(k) => DoStart(s, k)
    case Invoke(k) => DoInvoke(s, k)
    case Return(k, outcome) => DoReturn(s, k, outcome)
    case Persist(k, sentTable, jitter, workerNow) => DoPersist(s, k, sentTable, jitter, workerNow)
    case Crash(k) => s.(live := s.live - {k})
    case ReplayRow(id) => DoReplay(s, id)
    case CancelRow(id) => s.(rows := Cancel(s.rows, id, s.now))
    case Archive => s.(rows := ArchiveDead(s.rows, s.now))
    case CancelAccount(a) => s.(rows := CancelByAccount(s.rows, a, s.now))
    case Tick(to) => s.(now := to)
  }

  ghost predicate IsRun(s: State, steps: seq<Step>)
    decreases |steps|
  {
    steps == [] || (Enabled(s, steps[0]) && IsRun(Apply(s, steps[0]), steps[1..]))
  }

  ghost function After(s: State, steps: seq<Step>): State
    requires IsRun(s, steps)
    decreases |steps|
  {
    if steps == [] then s else After(Apply(s, steps[0]), steps[1..])
  }

  lemma FirstStep(s: State, step: Step, rest: seq<Step>)
    requires Enabled(s, step) && IsRun(Apply(s, step), rest)
    ensures IsRun(s, [step] + rest) && After(s, [step] + rest) == After(Apply(s, step), rest)
  {
    hide Apply, Enabled;
    assert ([step] + rest)[1..] == rest;
  }

  lemma NoStep(s: State)
    ensures IsRun(s, []) && After(s, []) == s
  {
  }

  // ---------------------------------------------------------------- what the log says about a row

  /** Counts since the row's insert or last replay, except `succeeded`, which counts the whole log. */
  datatype Tally = Tally(invoked: nat, failed: nat, recorded: nat, succeeded: nat, backoff: real)

  const ZERO := Tally(0, 0, 0, 0, 0.0)

  function Bump(t: Tally, e: Event, id: ActionId): Tally {
    if e.id != id then t else
    match e
    case Inserted(_) => ZERO.(succeeded := t.succeeded)
    case Replayed(_) => ZERO.(succeeded := t.succeeded)
    case Invoked(_, _) => t.(invoked := t.invoked + 1)
    case Returned(_, _, ok) => if ok then t.(succeeded := t.succeeded + 1) else t.(failed := t.failed + 1)
    case Recorded(_, delayMs) => t.(recorded := t.recorded + 1, backoff := t.backoff + delayMs)
  }

  function TallyOf(log: seq<Event>, id: ActionId): Tally {
    if log == [] then ZERO else Bump(TallyOf(log[..|log| - 1], id), log[|log| - 1], id)
  }

  lemma TallySnoc(log: seq<Event>, e: Event)
    ensures forall id :: TallyOf(log + [e], id) == Bump(TallyOf(log, id), e, id)
  {
    assert (log + [e])[..|log|] == log;
  }

  // ---------------------------------------------------------------- the invariant

  /** A row against its tally: attempts are the recorded failures, and each status has its own balance. */
  ghost predicate RowFits(r: Row, t: Tally) {
    && r.attempts == t.recorded
    && r.attempts <= (if r.maxAttempts >= 0 then r.maxAttempts else 0)
    && 0.0 <= t.backoff <= r.attempts as real * RATE_LIMIT_CAP_MS
    && (r.maxAttempts >= 1 ==> t.backoff <= (r.maxAttempts - 1) as real * RATE_LIMIT_CAP_MS)
    && match r.status
       case Running =>
         && r.attempts < r.maxAttempts
         && t.recorded <= t.failed && t.failed + t.succeeded <= t.invoked <= t.recorded + 1
       case Succeeded =>
         && r.attempts < r.maxAttempts
         && t.invoked == t.recorded + 1 && t.failed == t.recorded && t.succeeded == 1
       case _ =>
         && t.invoked == t.failed == t.recorded && t.succeeded == 0
         && (r.status == Claimed ==> r.attempts < r.maxAttempts)
         && (Waiting(r) ==> r.lockedUntil == None && r.lockedBy == None)
         && (Waiting(r) && r.maxAttempts >= 1 ==> r.attempts < r.maxAttempts)
  }

  /** The row is what the dispatch was handed, but for the status and stamp written by markRunning. */
  predicate Untouched(r: Row, d: Dispatch) {
    && d.row.status == Claimed
    && r.(status := Claimed, updatedAt := d.row.updatedAt) == d.row
    && r.status == (if d.phase == Taken then Claimed else Running)
  }

  predicate PhaseFits(p: Phase, t: Tally) {
    match p
    case Taken => true
    case Started => t.invoked == t.recorded
    case Executing => t.invoked == t.recorded + 1 && t.failed == t.recorded && t.succeeded == 0
    case Finished(Ok(_)) => t.invoked == t.recorded + 1 && t.failed == t.recorded && t.succeeded == 1
    case Finished(Err(_, _)) => t.invoked == t.recorded + 1 && t.failed == t.recorded + 1 && t.succeeded == 0
  }

  ghost predicate RowsOk(s: State) {
    forall i :: i in s.rows ==> RowFits(s.rows[i], TallyOf(s.log, i))
  }

  ghost predicate KeysUnique(s: State) {
    forall i, j :: i in s.rows && j in s.rows && s.rows[i].key == s.rows[j].key ==> i == j
  }

  predicate NamesRow(rows: Table, e: Event) {
    e.id in rows && (e.Returned? ==> e.key == rows[e.id].key)
  }

  ghost predicate LogNamesRows(s: State) {
    forall n :: 0 <= n < |s.log| ==> NamesRow(s.rows, s.log[n])
  }

  ghost predicate LiveOk(s: State) {
    forall k :: k in s.live ==>
      && k.id in s.rows && Untouched(s.rows[k.id], s.live[k])
      && PhaseFits(s.live[k].phase, TallyOf(s.log, k.id))
  }

  ghost predicate Exclusive(s: State) {
    forall k, m :: k in s.live && m in s.live && k.id == m.id ==> k == m
  }

  /** What a claim locked is still exactly as it was, and can be claimed. */
  ghost predicate HeldAsSeen(rows: Table, c: Claim) {
    forall i :: i in c.picked ==>
      && i in rows && rows[i] == c.picked[i] && Waiting(rows[i]) && rows[i].attempts < rows[i].maxAttempts
  }

  ghost predicate Apart(claims: map<nat, Claim>) {
    forall t, u, i :: t in claims && u in claims && i in claims[t].picked && i in claims[u].picked ==> t == u
  }

  ghost predicate ClaimsOk(s: State) {
    && (forall t :: t in s.claims ==> HeldAsSeen(s.rows, s.claims[t]))
    && Apart(s.claims)
    && (forall k :: k in s.live ==> k.claim !in s.claims)
  }

  ghost predicate Inv(s: State) {
    RowsOk(s) && KeysUnique(s) && LogNamesRows(s) && LiveOk(s) && Exclusive(s) && ClaimsOk(s)
  }

  lemma {:induction false} Unmentioned(log: seq<Event>, id: ActionId)
    requires forall n :: 0 <= n < |log| ==> log[n].id != id
    ensures TallyOf(log, id) == ZERO
  {
    if log != [] {
      Unmentioned(log[..|log| - 1], id);
    }
  }

  // ---------------------------------------------------------------- each kind of step keeps it

  /** From s to s' at most row j, its dispatches and the events about it have changed. */
  ghost predicate OnlyRow(s: State, s': State, j: ActionId) {
    && j in s.rows && s'.rows.Keys == s.rows.Keys
    && (forall i :: i in s.rows && i != j ==> s'.rows[i] == s.rows[i])
    && s'.rows[j].key == s.rows[j].key
    && s'.claims == s.claims
    && (forall k :: k in s'.live ==> k in s.live && (k.id != j ==> s'.live[k] == s.live[k]))
    && (s'.log == s.log || exists e :: OneEvent(s, s', j, e))
  }

  ghost predicate OneEvent(s: State, s': State, j: ActionId, e: Event) {
    s'.log == s.log + [e] && e.id == j && (e.Returned? ==> j in s.rows && e.key == s.rows[j].key)
  }

  lemma OtherTallies(s: State, s': State, j: ActionId)
    requires OnlyRow(s, s', j)
    ensures forall i :: i != j ==> TallyOf(s'.log, i) == TallyOf(s.log, i)
  {
    if s'.log != s.log {
      var e :| OneEvent(s, s', j, e);
      TallySnoc(s.log, e);
    }
  }

  /** Claims are safe from a step that changes no locked row, opens no claim and creates no dispatch. */
  lemma LockedRowsStay(s: State, s': State)
    requires ClaimsOk(s) && s'.claims == s.claims && s'.live.Keys <= s.live.Keys
    requires s'.rows.Keys == s.rows.Keys
    requires forall i :: i in Locked(s) && i in s.rows ==> s'.rows[i] == s.rows[i]
    ensures ClaimsOk(s')
  {
    forall t | t in s'.claims
      ensures HeldAsSeen(s'.rows, s'.claims[t])
    {
      assert HeldAsSeen(s.rows, s.claims[t]);
      assert forall i :: i in s.claims[t].picked ==> i in Locked(s);
    }
  }

  lemma SameKeysStayUnique(s: State, s': State)
    requires KeysUnique(s) && s'.rows.Keys == s.rows.Keys
    requires forall i :: i in s.rows ==> s'.rows[i].key == s.rows[i].key
    ensures KeysUnique(s')
  {
    forall i, m | i in s'.rows && m in s'.rows && s'.rows[i].key == s'.rows[m].key
      ensures i == m
    {
      assert s.rows[i].key == s.rows[m].key;
    }
  }

  lemma LogStaysNamed(s: State, s': State, e: Event)
    requires LogNamesRows(s) && s.rows.Keys <= s'.rows.Keys
    requires forall i :: i in s.rows ==> s'.rows[i].key == s.rows[i].key
    requires s'.log == s.log || (s'.log == s.log + [e] && NamesRow(s'.rows, e))
    ensures LogNamesRows(s')
  {
    forall n | 0 <= n < |s'.log|
      ensures NamesRow(s'.rows, s'.log[n])
    {
      if n < |s.log| {
        assert NamesRow(s.rows, s.log[n]);
      }
    }
  }

  lemma FewerDispatchesStayExclusive(s: State, s': State)
    requires Exclusive(s) && s'.live.Keys <= s.live.Keys
    ensures Exclusive(s')
  {
  }

  lemma OneRowStillFits(s: State, s': State, j: ActionId)
    requires RowsOk(s) && OnlyRow(s, s', j) && RowFits(s'.rows[j], TallyOf(s'.log, j))
    requires forall i :: i != j ==> TallyOf(s'.log, i) == TallyOf(s.log, i)
    ensures RowsOk(s')
  {
    hide RowFits, TallyOf;
  }

  lemma OneRowStillOwned(s: State, s': State, j: ActionId)
    requires LiveOk(s) && OnlyRow(s, s', j)
    requires forall i :: i != j ==> TallyOf(s'.log, i) == TallyOf(s.log, i)
    requires forall k :: k in s'.live && k.id == j ==>
      Untouched(s'.rows[j], s'.live[k]) && PhaseFits(s'.live[k].phase, TallyOf(s'.log, j))
    ensures LiveOk(s')
  {
    hide Untouched, PhaseFits, TallyOf;
  }

  /** To keep the invariant when one row moves, it is enough to look at that row. */
  lemma OneRowKeeps(s: State, s': State, j: ActionId)
    requires Inv(s) && OnlyRow(s, s', j)
    requires RowFits(s'.rows[j], TallyOf(s'.log, j))
    requires s'.rows[j] == s.rows[j] || j !in Locked(s)
    requires forall k :: k in s'.live && k.id == j ==>
      Untouched(s'.rows[j], s'.live[k]) && PhaseFits(s'.live[k].phase, TallyOf(s'.log, j))
    ensures Inv(s')
  {
    hide RowFits, Untouched, PhaseFits, TallyOf, KeysUnique, Exclusive, LogNamesRows, ClaimsOk, Locked, RowsOk, LiveOk;
    OtherTallies(s, s', j);
    OneRowStillFits(s, s', j);
    OneRowStillOwned(s, s', j);
    SameKeysStayUnique(s, s');
    FewerDispatchesStayExclusive(s, s');
    assert forall i :: i in Locked(s) && i in s.rows ==> s'.rows[i] == s.rows[i];
    LockedRowsStay(s, s');
    if s'.log == s.log {
      LogStaysNamed(s, s', Replayed(j));
    } else {
      var e :| OneEvent(s, s', j, e);
      LogStaysNamed(s, s', e);
    }
  }

  lemma FreshRowFits(f: NewAction, now: int)
    ensures RowFits(FreshRow(f, now), ZERO)
  {
  }

  lemma NewcomerIsUnmentioned(s: State, id: ActionId)
    requires LogNamesRows(s) && id !in s.rows
    ensures TallyOf(s.log, id) == ZERO
  {
    assert forall n :: 0 <= n < |s.log| ==> NamesRow(s.rows, s.log[n]);
    Unmentioned(s.log, id);
  }

  lemma InsertedRowsFit(s: State, id: ActionId, f: NewAction)
    requires RowsOk(s) && LogNamesRows(s) && id !in s.rows && !KeyTaken(s.rows, f.key)
    ensures RowsOk(DoInsert(s, id, f)) && (forall i :: i != id ==> TallyOf(DoInsert(s, id, f).log, i) == TallyOf(s.log, i))
  {
    hide RowFits, TallyOf, LogNamesRows;
    NewcomerIsUnmentioned(s, id);
    FreshRowFits(f, s.now);
    TallySnoc(s.log, Inserted(id));
  }

  lemma InsertKeeps(s: State, id: ActionId, f: NewAction)
    requires Inv(s) && id !in s.rows
    ensures Inv(DoInsert(s, id, f))
  {
    hide RowFits, PhaseFits, Untouched, TallyOf, Exclusive, Apart, RowsOk, LogNamesRows;
    if !KeyTaken(s.rows, f.key) {
      var s' := DoInsert(s, id, f);
      InsertedRowsFit(s, id, f);
      assert KeysUnique(s');
      LogStaysNamed(s, s', Inserted(id));
      assert LiveOk(s');
      FewerDispatchesStayExclusive(s, s');
      forall t | t in s'.claims
        ensures HeldAsSeen(s'.rows, s'.claims[t])
      {
        assert HeldAsSeen(s.rows, s.claims[t]);
      }
    }
  }

  lemma LockedClaimsOk(s: State, t: nat, worker: string, lockTtlSec: int, chosen: set<ActionId>)
    requires ClaimsOk(s) && t !in s.claims && (forall k :: k in s.live ==> k.claim != t)
    requires chosen <= Free(s.rows, Locked(s), s.now)
    ensures ClaimsOk(DoClaimLock(s, t, worker, lockTtlSec, chosen))
  {
    var s' := DoClaimLock(s, t, worker, lockTtlSec, chosen);
    var mine := s'.claims[t].picked;
    forall i | i in mine
      ensures i !in Locked(s) && Eligible(s.rows[i], s.now)
    {
      assert i in Free(s.rows, Locked(s), s.now);
    }
    forall u, i | u in s.claims && i in s.claims[u].picked
      ensures i !in mine
    {
      assert i in Locked(s);
    }
  }

  lemma ClaimLockKeeps(s: State, t: nat, worker: string, lockTtlSec: int, chosen: set<ActionId>)
    requires Inv(s) && t !in s.claims && (forall k :: k in s.live ==> k.claim != t)
    requires chosen <= Free(s.rows, Locked(s), s.now)
    ensures Inv(DoClaimLock(s, t, worker, lockTtlSec, chosen))
  {
    hide RowFits, Untouched, PhaseFits, TallyOf, KeysUnique, LogNamesRows, ClaimsOk, Locked;
    var s' := DoClaimLock(s, t, worker, lockTtlSec, chosen);
    assert RowsOk(s') && LiveOk(s') && Exclusive(s');
    SameKeysStayUnique(s, s');
    LogStaysNamed(s, s', Replayed(0));
    LockedClaimsOk(s, t, worker, lockTtlSec, chosen);
  }

  /** The rows a claim holds have no live dispatch: they are waiting, dispatched rows are not. */
  lemma PickedAreIdle(s: State, t: nat, k: Ticket)
    requires Inv(s) && t in s.claims && k in s.live
    ensures k.id !in s.claims[t].picked
  {
    assert Untouched(s.rows[k.id], s.live[k]) && !Waiting(s.rows[k.id]);
    assert HeldAsSeen(s.rows, s.claims[t]);
  }

  lemma ClaimCommitKeeps(s: State, t: nat)
    requires Inv(s) && t in s.claims
    ensures Inv(DoClaimCommit(s, t))
  {
    hide PhaseFits, TallyOf, KeysUnique, LogNamesRows, LiveOk, RowsOk, Exclusive, Apart, Untouched, RowFits;
    var s' := DoClaimCommit(s, t);
    var c := s.claims[t];
    assert HeldAsSeen(s.rows, c);
    forall k | k in s.live
      ensures k.id !in c.picked && k in s'.live && s'.live[k] == s.live[k]
    {
      PickedAreIdle(s, t, k);
    }
    assert forall i :: i in s.rows ==> s'.rows[i].key == s.rows[i].key;
    SameKeysStayUnique(s, s');
    LogStaysNamed(s, s', Replayed(0));
    CommittedRowsFit(s, t);
    CommittedDispatchesFit(s, t);
    CommittedDispatchesExclusive(s, t);
    OthersStayHeld(s, t);
  }

  lemma CommittedRowsFit(s: State, t: nat)
    requires RowsOk(s) && t in s.claims && HeldAsSeen(s.rows, s.claims[t])
    ensures RowsOk(DoClaimCommit(s, t))
  {
    hide TallyOf;
    var s' := DoClaimCommit(s, t);
    forall i | i in s'.rows
      ensures RowFits(s'.rows[i], TallyOf(s'.log, i))
    {
      assert RowFits(s.rows[i], TallyOf(s.log, i));
    }
  }

  /** A fresh dispatch holds the leased row; an older one sees its own row unmoved. */
  lemma CommittedDispatchesFit(s: State, t: nat)
    requires LiveOk(s) && t in s.claims && HeldAsSeen(s.rows, s.claims[t])
    requires forall k :: k in s.live ==> k.id !in s.claims[t].picked
    ensures LiveOk(DoClaimCommit(s, t))
  {
    hide TallyOf, PhaseFits;
    var s' := DoClaimCommit(s, t);
    var c := s.claims[t];
    forall k | k in s'.live
      ensures k.id in s'.rows && Untouched(s'.rows[k.id], s'.live[k])
      ensures PhaseFits(s'.live[k].phase, TallyOf(s'.log, k.id))
    {
      if k == Ticket(t, k.id) && k.id in c.picked {
        assert s'.live[k] == Dispatch(Lease(c.picked[k.id], c.worker, c.until, c.at), Taken);
        NewcomerFits(c.picked[k.id], c, TallyOf(s'.log, k.id));
      } else {
        assert k in s.live && s'.live[k] == s.live[k] && s'.rows[k.id] == s.rows[k.id];
      }
    }
  }

  lemma NewcomerFits(r: Row, c: Claim, t: Tally)
    ensures var leased := Lease(r, c.worker, c.until, c.at);
      Untouched(leased, Dispatch(leased, Taken)) && PhaseFits(Taken, t)
  {
  }

  lemma CommittedDispatchesExclusive(s: State, t: nat)
    requires Exclusive(s) && t in s.claims
    requires forall k :: k in s.live ==> k.id !in s.claims[t].picked
    ensures Exclusive(DoClaimCommit(s, t))
  {
  }

  lemma OthersStayHeld(s: State, t: nat)
    requires ClaimsOk(s) && t in s.claims && HeldAsSeen(s.rows, s.claims[t])
    ensures ClaimsOk(DoClaimCommit(s, t))
  {
    var s' := DoClaimCommit(s, t);
    forall u | u in s'.claims
      ensures HeldAsSeen(s'.rows, s'.claims[u])
    {
      assert HeldAsSeen(s.rows, s.claims[u]);
    }
  }

  lemma LeaveKeeps(s: State, k: Ticket)
    requires Inv(s) && k in s.live
    ensures Inv(s.(live := s.live - {k}))
  {
    hide RowFits, Untouched, PhaseFits, TallyOf, KeysUnique, Exclusive, LogNamesRows, ClaimsOk, Locked;
    var s' := s.(live := s.live - {k});
    assert OnlyRow(s, s', k.id);
    OneRowKeeps(s, s', k.id);
  }

  /** What the invariant says of the row of one dispatch. */
  lemma OwnRow(s: State, k: Ticket)
    requires Inv(s) && k in s.live
    ensures k.id in s.rows && s.rows[k.id].key == s.live[k].row.key
    ensures RowFits(s.rows[k.id], TallyOf(s.log, k.id))
    ensures Untouched(s.rows[k.id], s.live[k]) && PhaseFits(s.live[k].phase, TallyOf(s.log, k.id))
    ensures forall m :: m in s.live && m.id == k.id ==> m == k
  {
    hide RowFits, PhaseFits, TallyOf, KeysUnique, LogNamesRows, ClaimsOk;
  }

  lemma DeferredRowFits(r: Row, d: Dispatch, t: Tally, workerNow: int, now: int)
    requires RowFits(r, t) && Untouched(r, d) && d.phase == Taken
    ensures RowFits(FailRow(r, Deferral(d.row, workerNow), now), t)
  {
  }

  lemma DeferKeeps(s: State, k: Ticket, workerNow: int)
    requires Inv(s) && AtPhase(s, k, Taken) && k.id !in Locked(s)
    ensures Inv(DoDefer(s, k, workerNow))
  {
    hide RowFits, Untouched, PhaseFits, TallyOf, Inv, Locked, Deferral;
    var s' := DoDefer(s, k, workerNow);
    OwnRow(s, k);
    DeferredRowFits(s.rows[k.id], s.live[k], TallyOf(s.log, k.id), workerNow, s.now);
    assert OnlyRow(s, s', k.id);
    OneRowKeeps(s, s', k.id);
  }

  lemma StartedRowFits(r: Row, d: Dispatch, t: Tally, now: int)
    requires RowFits(r, t) && Untouched(r, d) && d.phase == Taken
    ensures r.status == Claimed && RowFits(RunRow(r, now), t)
    ensures Untouched(RunRow(r, now), d.(phase := Started)) && PhaseFits(Started, t)
  {
  }

  lemma StartKeeps(s: State, k: Ticket)
    requires Inv(s) && AtPhase(s, k, Taken) && k.id !in Locked(s)
    ensures Inv(DoStart(s, k))
  {
    hide RowFits, Untouched, PhaseFits, TallyOf, Inv, Locked;
    var s' := DoStart(s, k);
    OwnRow(s, k);
    StartedRowFits(s.rows[k.id], s.live[k], TallyOf(s.log, k.id), s.now);
    assert OnlyRow(s, s', k.id);
    OneRowKeeps(s, s', k.id);
  }

  lemma InvokedRowFits(r: Row, d: Dispatch, t: Tally)
    requires RowFits(r, t) && Untouched(r, d) && d.phase == Started && PhaseFits(Started, t)
    ensures var t' := t.(invoked := t.invoked + 1);
      RowFits(r, t') && Untouched(r, d.(phase := Executing)) && PhaseFits(Executing, t')
  {
  }

  lemma InvokeKeeps(s: State, k: Ticket)
    requires Inv(s) && AtPhase(s, k, Started)
    ensures Inv(DoInvoke(s, k))
  {
    hide RowFits, Untouched, PhaseFits, TallyOf, Inv, Locked;
    var s' := DoInvoke(s, k);
    var e := Invoked(k.id, s.live[k].row.key);
    OwnRow(s, k);
    TallySnoc(s.log, e);
    InvokedRowFits(s.rows[k.id], s.live[k], TallyOf(s.log, k.id));
    assert OneEvent(s, s', k.id, e);
    assert OnlyRow(s, s', k.id);
    OneRowKeeps(s, s', k.id);
  }

  lemma ReturnedRowFits(r: Row, d: Dispatch, t: Tally, outcome: Outcome)
    requires RowFits(r, t) && Untouched(r, d) && d.phase == Executing && PhaseFits(Executing, t)
    ensures var t' := if outcome.Ok? then t.(succeeded := t.succeeded + 1) else t.(failed := t.failed + 1);
      RowFits(r, t') && Untouched(r, d.(phase := Finished(outcome))) && PhaseFits(Finished(outcome), t')
  {
  }

  lemma ReturnKeeps(s: State, k: Ticket, outcome: Outcome)
    requires Inv(s) && AtPhase(s, k, Executing)
    ensures Inv(DoReturn(s, k, outcome))
  {
    hide RowFits, Untouched, PhaseFits, TallyOf, Inv, Locked;
    var s' := DoReturn(s, k, outcome);
    var e := Returned(k.id, s.live[k].row.key, outcome.Ok?);
    OwnRow(s, k);
    TallySnoc(s.log, e);
    ReturnedRowFits(s.rows[k.id], s.live[k], TallyOf(s.log, k.id), outcome);
    assert OneEvent(s, s', k.id, e);
    assert OnlyRow(s, s', k.id);
    OneRowKeeps(s, s', k.id);
  }

  /** The row arithmetic of a recorded failure: one more attempt, one more delay, both within budget. */
  lemma FailedRowFits(r: Row, d: Dispatch, t: Tally, jitter: real, workerNow: int, now: int)
    requires RowFits(r, t) && Untouched(r, d) && PhaseFits(d.phase, t) && Draw(jitter)
    requires d.phase.Finished? && d.phase.outcome.Err?
    ensures var o := d.phase.outcome;
      RowFits(FailRow(r, Failure(d.row, o.message, o.errorClass, jitter, workerNow), now),
              t.(recorded := t.recorded + 1,
                 backoff := t.backoff + Decide(d.row.attempts + 1, o.errorClass, d.row.maxAttempts, jitter).delayMs))
  {
    hide Decide, Draw;
    DecisionBounds(d.row.attempts + 1, d.phase.outcome.errorClass, d.row.maxAttempts, jitter);
  }

  lemma SucceededRowFits(r: Row, d: Dispatch, t: Tally, sentTable: bool, now: int)
    requires RowFits(r, t) && Untouched(r, d) && PhaseFits(d.phase, t)
    requires d.phase.Finished? && d.phase.outcome.Ok?
    ensures RowFits(SucceedRow(r, d.phase.outcome.fields, sentTable, now), t)
  {
  }

  lemma PersistKeeps(s: State, k: Ticket, sentTable: bool, jitter: real, workerNow: int)
    requires Inv(s) && k in s.live && s.live[k].phase.Finished? && k.id !in Locked(s) && Draw(jitter)
    ensures Inv(DoPersist(s, k, sentTable, jitter, workerNow))
  {
    hide *;
    var s' := DoPersist(s, k, sentTable, jitter, workerNow);
    PersistedRow(s, k, sentTable, jitter, workerNow);
    NobodyElse(s, k, sentTable, jitter, workerNow);
    OneRowKeeps(s, s', k.id);
  }

  lemma NobodyElse(s: State, k: Ticket, sentTable: bool, jitter: real, workerNow: int)
    requires Inv(s) && k in s.live && s.live[k].phase.Finished?
    ensures forall m :: m in DoPersist(s, k, sentTable, jitter, workerNow).live ==> m.id != k.id
  {
    hide RowsOk, LiveOk, LogNamesRows, ClaimsOk, KeysUnique, Failure, Decide;
  }

  lemma PersistedRow(s: State, k: Ticket, sentTable: bool, jitter: real, workerNow: int)
    requires Inv(s) && k in s.live && s.live[k].phase.Finished? && Draw(jitter)
    ensures var s' := DoPersist(s, k, sentTable, jitter, workerNow);
      k.id in s'.rows && OnlyRow(s, s', k.id) && RowFits(s'.rows[k.id], TallyOf(s'.log, k.id))
  {
    hide TallyOf, KeysUnique, LogNamesRows, ClaimsOk, Decide, Failure, Draw, Exclusive, RowFits, Untouched, PhaseFits;
    var s' := DoPersist(s, k, sentTable, jitter, workerNow);
    var d := s.live[k];
    var t := TallyOf(s.log, k.id);
    assert RowFits(s.rows[k.id], t) && Untouched(s.rows[k.id], d) && PhaseFits(d.phase, t);
    if d.phase.outcome.Err? {
      FailedRowFits(s.rows[k.id], d, t, jitter, workerNow, s.now);
      var e := Recorded(k.id, Decide(d.row.attempts + 1, d.phase.outcome.errorClass, d.row.maxAttempts, jitter).delayMs);
      TallySnoc(s.log, e);
      assert OneEvent(s, s', k.id, e);
    } else {
      SucceededRowFits(s.rows[k.id], d, t, sentTable, s.now);
    }
  }

  lemma ResetRowFits(r: Row, t: Tally, now: int)
    requires RowFits(r, t) && Replayable(r)
    ensures RowFits(ResetRow(r, now), ZERO.(succeeded := t.succeeded))
  {
  }

  /** A row that is neither claimed nor running has no live dispatch. */
  lemma IdleRow(s: State, id: ActionId)
    requires LiveOk(s) && id in s.rows && s.rows[id].status !in {Claimed, Running}
    ensures forall k :: k in s.live ==> k.id != id
  {
    hide PhaseFits, TallyOf;
  }

  lemma ReplayKeeps(s: State, id: ActionId)
    requires Inv(s) && id !in Locked(s)
    ensures Inv(DoReplay(s, id))
  {
    hide RowFits, TallyOf, KeysUnique, LogNamesRows, LiveOk, ClaimsOk, Locked, Exclusive, ResetRow;
    var s' := DoReplay(s, id);
    if id in s.rows && Replayable(s.rows[id]) {
      TallySnoc(s.log, Replayed(id));
      ResetRowFits(s.rows[id], TallyOf(s.log, id), s.now);
      ResetKeepsKey(s.rows[id], s.now);
      IdleRow(s, id);
      assert OneEvent(s, s', id, Replayed(id));
      assert OnlyRow(s, s', id);
      OneRowKeeps(s, s', id);
    }
  }

  lemma ResetKeepsKey(r: Row, now: int)
    ensures ResetRow(r, now).key == r.key
  {
  }

  predicate PutAway(before: Row, after: Row) {
    && (before.status == Dead || Waiting(before))
    && after == before.(status := Cancelled, updatedAt := after.updatedAt,
                        lockedUntil := after.lockedUntil, lockedBy := after.lockedBy)
  }

  lemma PutAwayRowFits(before: Row, after: Row, t: Tally)
    requires RowFits(before, t) && PutAway(before, after)
    ensures RowFits(after, t) && after.key == before.key && before.status !in {Claimed, Running}
  {
  }

  /** cancelAction, archiveDead and cancelPendingByAccount: each only puts away idle, unlocked rows. */
  lemma PutAwayKeeps(s: State, rows: Table)
    requires Inv(s) && rows.Keys == s.rows.Keys
    requires forall i :: i in rows ==> rows[i] == s.rows[i] || (i !in Locked(s) && PutAway(s.rows[i], rows[i]))
    ensures Inv(s.(rows := rows))
  {
    hide RowFits, Untouched, PhaseFits, TallyOf, KeysUnique, LogNamesRows, ClaimsOk, Locked, Exclusive, PutAway;
    var s' := s.(rows := rows);
    forall i | i in rows
      ensures RowFits(rows[i], TallyOf(s.log, i)) && rows[i].key == s.rows[i].key
      ensures rows[i] == s.rows[i] || s.rows[i].status !in {Claimed, Running}
    {
      if rows[i] != s.rows[i] {
        PutAwayRowFits(s.rows[i], rows[i], TallyOf(s.log, i));
      }
    }
    SameKeysStayUnique(s, s');
    LogStaysNamed(s, s', Replayed(0));
    FewerDispatchesStayExclusive(s, s');
    LockedRowsStay(s, s');
    forall k | k in s'.live
      ensures s'.rows[k.id] == s.rows[k.id]
    {
      if s'.rows[k.id] != s.rows[k.id] {
        IdleRow(s, k.id);
      }
    }
  }

  lemma CancelKeeps(s: State, id: ActionId)
    requires Inv(s) && id !in Locked(s)
    ensures Inv(s.(rows := Cancel(s.rows, id, s.now)))
  {
    hide Inv, Locked;
    PutAwayKeeps(s, Cancel(s.rows, id, s.now));
  }

  lemma ArchiveKeeps(s: State)
    requires Inv(s) && forall i :: i in s.rows && s.rows[i].status == Dead ==> i !in Locked(s)
    ensures Inv(s.(rows := ArchiveDead(s.rows, s.now)))
  {
    hide Inv, Locked;
    PutAwayKeeps(s, ArchiveDead(s.rows, s.now));
  }

  lemma CancelAccountKeeps(s: State, a: string)
    requires Inv(s) && forall i :: i in s.rows && s.rows[i].accountId == a && Waiting(s.rows[i]) ==> i !in Locked(s)
    ensures Inv(s.(rows := CancelByAccount(s.rows, a, s.now)))
  {
    hide Inv, Locked;
    PutAwayKeeps(s, CancelByAccount(s.rows, a, s.now));
  }

  lemma AbortKeeps(s: State, t: nat)
    requires Inv(s)
    ensures Inv(s.(claims := s.claims - {t}))
  {
    hide RowFits, Untouched, PhaseFits, TallyOf, HeldAsSeen;
    var s' := s.(claims := s.claims - {t});
    assert RowsOk(s') && KeysUnique(s') && LogNamesRows(s') && LiveOk(s') && Exclusive(s') && ClaimsOk(s');
  }

  lemma TickKeeps(s: State, to: int)
    requires Inv(s)
    ensures Inv(s.(now := to))
  {
    var s' := s.(now := to);
    assert RowsOk(s') && KeysUnique(s') && LogNamesRows(s') && LiveOk(s') && Exclusive(s') && ClaimsOk(s');
  }

  lemma StepKeeps(s: State, step: Step)
    requires Inv(s) && Enabled(s, step)
    ensures Inv(Apply(s, step))
  {
    hide Inv, DoInsert, DoClaimLock, DoClaimCommit, DoPersist, DoStart, DoDefer, DoReplay, Free, Draw, Locked,
      Cancel, ArchiveDead, CancelByAccount, Waiting, Advance;
    match step
    case Insert(id, f) => InsertKeeps(s, id, f);
    case ClaimLock(t, worker, _, lockTtlSec, _, chosen) => ClaimLockKeeps(s, t, worker, lockTtlSec, chosen);
    case ClaimCommit(t) => ClaimCommitKeeps(s, t);
    case ClaimAbort(t) => AbortKeeps(s, t);
    case Defer(k, workerNow) => DeferKeeps(s, k, workerNow);
    case Skip(k) => LeaveKeeps(s, k);
    case Start(k) => StartKeeps(s, k);
    case Invoke(k) => InvokeKeeps(s, k);
    case Return(k, outcome) => ReturnKeeps(s, k, outcome);
    case Persist(k, sentTable, jitter, workerNow) => PersistKeeps(s, k, sentTable, jitter, workerNow);
    case Crash(k) => LeaveKeeps(s, k);
    case ReplayRow(id) => ReplayKeeps(s, id);
    case CancelRow(id) => CancelKeeps(s, id);
    case Archive => ArchiveKeeps(s);
    case CancelAccount(a) => CancelAccountKeeps(s, a);
    case Tick(to) => TickKeeps(s, to);
  }

  lemma {:induction false} RunKeeps(s: State, steps: seq<Step>)
    requires Inv(s) && IsRun(s, steps)
    ensures Inv(After(s, steps))
    decreases |steps|
  {
    hide Inv, Apply, Enabled;
    if steps != [] {
      StepKeeps(s, steps[0]);
      RunKeeps(Apply(s, steps[0]), steps[1..]);
    }
  }
}
