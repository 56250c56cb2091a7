/**
 * One action table and the SQL statements that write it
 * (persistence/repositories/action-repository.ts and action-admin.repository.ts).
 * Every statement is a function from table to table; the class `Actions` performs them in place.
 */
module ActionTable {
  import opened Options
  import opened RetryPolicy

  type ActionId = nat

  datatype Status = Pending | Claimed | Running | Succeeded | Failed | Dead | Cancelled

  /** What a successful execution leaves in the result columns, which differ by table. */
  datatype Result =
    | Sent(tweetId: Option<string>, tweetUrl: Option<string>, sentAt: int)
    | Done(resultAt: int)

  datatype Row = Row(
    key: string,
    accountId: string,
    status: Status,
    attempts: int,
    maxAttempts: int,
    priority: int,
    scheduledAt: int,
    lockedUntil: Option<int>,
    lockedBy: Option<string>,
    lastError: Option<string>,
    errorClass: Option<ErrorClass>,
    result: Option<Result>,
    updatedAt: int
  )

  type Table = map<ActionId, Row>

  datatype NewAction = NewAction(key: string, accountId: string, scheduledAt: int, maxAttempts: Option<int>, priority: int)

  datatype SuccessFields = SuccessFields(
    tweetId: Option<string>, tweetUrl: Option<string>, sentAt: Option<int>, resultAt: Option<int>)

  datatype FailureFields = FailureFields(
    status: Status, attempts: int, lastError: string, errorClass: ErrorClass, scheduledAt: Option<int>)

  const DEFAULT_MAX_ATTEMPTS := 3

  function Coalesce<T>(x: Option<T>, fallback: T): T { if x.Some? then x.value else fallback }

  // ---------------------------------------------------------------- statements on one row

  predicate Waiting(r: Row) { r.status == Pending || r.status == Failed }

  predicate Eligible(r: Row, now: int) {
    && Waiting(r)
    && r.scheduledAt <= now
    && (r.lockedUntil.None? || r.lockedUntil.value < now)
    && r.attempts < r.maxAttempts
  }

  /** Strictly earlier in the claim order: priority first when the flag is on, then scheduled_at. */
  predicate Before(a: Row, b: Row, byPriority: bool) {
    if byPriority && a.priority != b.priority then a.priority > b.priority else a.scheduledAt < b.scheduledAt
  }

  function Lease(r: Row, worker: string, until: int, now: int): Row {
    r.(status := Claimed, lockedUntil := Some(until), lockedBy := Some(worker), updatedAt := now)
  }

  function ClaimRows(rows: Table, picked: set<ActionId>, worker: string, until: int, now: int): Table {
    map i | i in rows :: if i in picked then Lease(rows[i], worker, until, now) else rows[i]
  }

  function RunRow(r: Row, now: int): Row { r.(status := Running, updatedAt := now) }

  function MarkRunning(rows: Table, id: ActionId, now: int): Table {
    if id in rows && rows[id].status == Claimed then rows[id := RunRow(rows[id], now)] else rows
  }

  function SucceedRow(r: Row, f: SuccessFields, sentTable: bool, now: int): Row {
    var result := if sentTable then Sent(f.tweetId, f.tweetUrl, Coalesce(f.sentAt, now))
                  else Done(Coalesce(f.resultAt, now));
    r.(status := Succeeded, result := Some(result), lockedUntil := None, lockedBy := None, updatedAt := now)
  }

  /** No guard on status or owner: WHERE id=$1. */
  function MarkSucceeded(rows: Table, id: ActionId, f: SuccessFields, sentTable: bool, now: int): Table {
    if id in rows then rows[id := SucceedRow(rows[id], f, sentTable, now)] else rows
  }

  function FailRow(r: Row, f: FailureFields, now: int): Row {
    r.(status := f.status, attempts := f.attempts, lastError := Some(f.lastError),
       errorClass := Some(f.errorClass), scheduledAt := Coalesce(f.scheduledAt, r.scheduledAt),
       lockedUntil := None, lockedBy := None, updatedAt := now)
  }

  /** No guard on status or owner: WHERE id=$1. */
  function MarkFailed(rows: Table, id: ActionId, f: FailureFields, now: int): Table {
    if id in rows then rows[id := FailRow(rows[id], f, now)] else rows
  }

  ghost predicate KeyTaken(rows: Table, key: string) { exists i :: i in rows && rows[i].key == key }

  function FreshRow(f: NewAction, now: int): Row {
    Row(f.key, f.accountId, Pending, 0, Coalesce(f.maxAttempts, DEFAULT_MAX_ATTEMPTS), f.priority, f.scheduledAt,
        None, None, None, None, None, now)
  }

  /** ON CONFLICT (idempotency_key) DO NOTHING. */
  ghost function InsertIfAbsent(rows: Table, id: ActionId, f: NewAction, now: int): Table {
    if KeyTaken(rows, f.key) then rows else rows[id := FreshRow(f, now)]
  }

  predicate Replayable(r: Row) { r.status == Dead || r.status == Failed || r.status == Cancelled }

  function ResetRow(r: Row, now: int): Row {
    r.(status := Pending, attempts := 0, lockedUntil := None, lockedBy := None,
       lastError := None, errorClass := None, scheduledAt := now, updatedAt := now)
  }

  function Replay(rows: Table, id: ActionId, now: int): Table {
    if id in rows && Replayable(rows[id]) then rows[id := ResetRow(rows[id], now)] else rows
  }

  function CancelledRow(r: Row, now: int): Row {
    r.(status := Cancelled, lockedUntil := None, lockedBy := None, updatedAt := now)
  }

  function Cancel(rows: Table, id: ActionId, now: int): Table {
    if id in rows && Waiting(rows[id]) then rows[id := CancelledRow(rows[id], now)] else rows
  }

  function ArchiveDead(rows: Table, now: int): Table {
    map i | i in rows :: if rows[i].status == Dead then CancelledRow(rows[i], now) else rows[i]
  }

  /** Unlike the other cancels this one leaves the lock columns alone. */
  function CancelByAccount(rows: Table, account: string, now: int): Table {
    map i | i in rows ::
      if rows[i].accountId == account && Waiting(rows[i])
      then rows[i].(status := Cancelled, updatedAt := now) else rows[i]
  }

  // ---------------------------------------------------------------- what a statement leaves alone

  ghost predicate OnlyAt(before: Table, after: Table, id: ActionId) {
    after.Keys == before.Keys && forall i :: i in before && i != id ==> after[i] == before[i]
  }

  /** Whose action it is, and on what terms. */
  predicate SameAction(a: Row, b: Row) {
    a.key == b.key && a.accountId == b.accountId && a.maxAttempts == b.maxAttempts && a.priority == b.priority
  }

  /** Nothing but the status, the lock and the stamp differ. */
  predicate SameWork(a: Row, b: Row) {
    SameAction(a, b) && a.attempts == b.attempts && a.scheduledAt == b.scheduledAt
    && a.lastError == b.lastError && a.errorClass == b.errorClass && a.result == b.result
  }

  /** Claimed by the worker until then, and otherwise the action it was. */
  predicate LeasedTo(r: Row, was: Row, worker: string, until: int) {
    r.status == Claimed && r.lockedBy == Some(worker) && r.lockedUntil == Some(until) && SameWork(r, was)
  }

  predicate Unlocked(r: Row) { r.lockedUntil == None && r.lockedBy == None }

  /** A row as it is inserted: asked for, waiting, never tried. */
  predicate IsNew(r: Row, f: NewAction) {
    && r.key == f.key && r.accountId == f.accountId && r.scheduledAt == f.scheduledAt && r.priority == f.priority
    && r.maxAttempts == (if f.maxAttempts.Some? then f.maxAttempts.value else 3)
    && r.status == Pending && r.attempts == 0 && Unlocked(r)
    && r.lastError == None && r.errorClass == None && r.result == None
  }

  /** The row a claim may take at `now`, and its place in the order: priority first if asked for, then time. */
  predicate Claimable(r: Row, now: int) {
    && r.status in {Pending, Failed} && r.scheduledAt <= now && r.attempts < r.maxAttempts
    && (r.lockedUntil == None || r.lockedUntil.value < now)
  }

  predicate NoLater(a: Row, b: Row, byPriority: bool) {
    (byPriority && a.priority > b.priority) ||
    ((byPriority ==> a.priority == b.priority) && a.scheduledAt <= b.scheduledAt)
  }

  /** No guarded statement moves the row: not a claim, a start, a replay, a cancel or an archive. */
  ghost predicate AtRest(rows: Table, id: ActionId) {
    && (forall t :: MarkRunning(rows, id, t) == rows && Replay(rows, id, t) == rows && Cancel(rows, id, t) == rows)
    && (id in rows ==> rows[id].status != Dead && forall t :: !Eligible(rows[id], t))
  }

  // ---------------------------------------------------------------- choosing a batch

  function Free(rows: Table, locked: set<ActionId>, now: int): set<ActionId> {
    set i | i in rows && i !in locked && Eligible(rows[i], now)
  }

  /** ORDER BY ... FOR UPDATE SKIP LOCKED LIMIT batch: a full batch, and nobody earlier is left out. */
  ghost predicate IsBatch(rows: Table, free: set<ActionId>, batch: nat, byPriority: bool, picked: set<ActionId>)
    requires free <= rows.Keys
  {
    && picked <= free
    && |picked| == (if batch <= |free| then batch else |free|)
    && forall i, j :: i in picked && j in free - picked ==> !Before(rows[j], rows[i], byPriority)
  }

  function Could(rows: Table, locked: set<ActionId>, now: int): set<ActionId> {
    set i | i in rows && i !in locked && Claimable(rows[i], now)
  }

  /** What the statement promises of the rows picked, spelled out from its clauses. */
  ghost predicate IsClaim(rows: Table, locked: set<ActionId>, batch: nat, byPriority: bool, now: int, picked: set<ActionId>) {
    var could := Could(rows, locked, now);
    && picked <= could && |picked| == (if batch <= |could| then batch else |could|)
    && forall i, j :: i in picked && j in could - picked ==> NoLater(rows[i], rows[j], byPriority)
  }

  lemma FreeIsClaimable(rows: Table, locked: set<ActionId>, now: int)
    ensures Free(rows, locked, now) == Could(rows, locked, now)
  {
  }

  lemma NotBeforeIsNoLater(a: Row, b: Row, byPriority: bool)
    ensures !Before(b, a, byPriority) <==> NoLater(a, b, byPriority)
  {
  }

  lemma BatchIsClaim(rows: Table, locked: set<ActionId>, batch: nat, byPriority: bool, now: int, picked: set<ActionId>)
    requires IsBatch(rows, Free(rows, locked, now), batch, byPriority, picked)
    ensures IsClaim(rows, locked, batch, byPriority, now, picked)
  {
    FreeIsClaimable(rows, locked, now);
    hide Free, Could, Before, NoLater;
    forall i, j | i in picked && j in Free(rows, locked, now) - picked
      ensures i in rows && j in rows && NoLater(rows[i], rows[j], byPriority)
    {
      FreeAreRows(rows, locked, now);
      NotBeforeIsNoLater(rows[i], rows[j], byPriority);
    }
  }

  lemma FreeAreRows(rows: Table, locked: set<ActionId>, now: int)
    ensures Free(rows, locked, now) <= rows.Keys
  {
  }

  lemma BeforeIsTransitive(a: Row, b: Row, c: Row, byPriority: bool)
    requires !Before(b, a, byPriority) && !Before(c, b, byPriority)
    ensures !Before(c, a, byPriority)
  {
  }

  // ---------------------------------------------------------------- the table, updated in place

  class Actions {
    var rows: Table

    constructor ()
      ensures rows == map[]
    {
      rows := map[];
    }

    /** The earliest of a non-empty pool. */
    method First(pool: set<ActionId>, byPriority: bool) returns (best: ActionId)
      requires pool != {} && pool <= rows.Keys
      ensures best in pool
      ensures forall i :: i in pool ==> !Before(rows[i], rows[best], byPriority)
    {
      best :| best in pool;
      var rest := pool - {best};
      while rest != {}
        invariant best in pool && rest <= pool
        invariant forall i :: i in pool - rest ==> !Before(rows[i], rows[best], byPriority)
        decreases rest
      {
        var i :| i in rest;
        if Before(rows[i], rows[best], byPriority) {
          forall j | j in pool - rest
            ensures !Before(rows[j], rows[i], byPriority)
          {
            BeforeIsTransitive(rows[i], rows[best], rows[j], byPriority);
          }
          best := i;
        }
        rest := rest - {i};
      }
    }

    /** The common table expression of claimBatch: order, skip what others hold, limit. */
    method SelectBatch(locked: set<ActionId>, batch: nat, byPriority: bool, now: int)
      returns (picked: set<ActionId>)
      ensures IsBatch(rows, Free(rows, locked, now), batch, byPriority, picked)
    {
      var free := Free(rows, locked, now);
      var rest := free;
      picked := {};
      while |picked| < batch && rest != {}
        invariant picked !! rest && picked + rest == free
        invariant |picked| + |rest| == |free| && |picked| <= batch
        invariant forall i, j :: i in picked && j in rest ==> !Before(rows[j], rows[i], byPriority)
        decreases rest
      {
        var best := First(rest, byPriority);
        picked := picked + {best};
        rest := rest - {best};
      }
      assert free - picked == rest;
    }

    method ClaimBatch(worker: string, batch: nat, lockTtlSec: int, byPriority: bool, locked: set<ActionId>, now: int)
      returns (picked: set<ActionId>)
      modifies this
      ensures IsBatch(old(rows), Free(old(rows), locked, now), batch, byPriority, picked)
      ensures rows == ClaimRows(old(rows), picked, worker, now + lockTtlSec * 1000, now)
      ensures forall i :: i in rows && (i !in old(rows) || rows[i] != old(rows)[i]) ==> rows[i].updatedAt == now
      ensures IsClaim(old(rows), locked, batch, byPriority, now, picked)
      ensures rows.Keys == old(rows).Keys
      ensures forall i :: i in picked ==> LeasedTo(rows[i], old(rows)[i], worker, now + lockTtlSec * 1000)
      ensures forall i :: i in rows && i !in picked ==> rows[i] == old(rows)[i]
    {
      picked := SelectBatch(locked, batch, byPriority, now);
      BatchIsClaim(rows, locked, batch, byPriority, now, picked);
      rows := ClaimRows(rows, picked, worker, now + lockTtlSec * 1000, now);
    }

    method SetRunning(id: ActionId, now: int)
      modifies this
      ensures rows == MarkRunning(old(rows), id, now)
      ensures forall i :: i in rows && (i !in old(rows) || rows[i] != old(rows)[i]) ==> rows[i].updatedAt == now
      ensures OnlyAt(old(rows), rows, id) && (id in rows ==> SameWork(rows[id], old(rows)[id]))
      ensures id in rows ==> rows[id].lockedUntil == old(rows)[id].lockedUntil && rows[id].lockedBy == old(rows)[id].lockedBy
      ensures id in rows ==> (rows[id].status == Running <==> old(rows)[id].status in {Claimed, Running})
      ensures forall t :: MarkRunning(rows, id, t) == rows
    {
      if id in rows && rows[id].status == Claimed {
        rows := rows[id := RunRow(rows[id], now)];
      }
    }

    method SetSucceeded(id: ActionId, f: SuccessFields, sentTable: bool, now: int)
      modifies this
      ensures rows == MarkSucceeded(old(rows), id, f, sentTable, now)
      ensures forall i :: i in rows && (i !in old(rows) || rows[i] != old(rows)[i]) ==> rows[i].updatedAt == now
      ensures OnlyAt(old(rows), rows, id) && AtRest(rows, id)
      ensures id in rows ==> SameWork(rows[id].(result := old(rows)[id].result), old(rows)[id])
      ensures id in rows ==> rows[id].result == Some(
        if sentTable then Sent(f.tweetId, f.tweetUrl, if f.sentAt.Some? then f.sentAt.value else now)
        else Done(if f.resultAt.Some? then f.resultAt.value else now))
      ensures id in rows ==> rows[id].status == Succeeded && rows[id].lockedBy == None && rows[id].lockedUntil == None
    {
      rows := MarkSucceeded(rows, id, f, sentTable, now);
    }

    method SetFailed(id: ActionId, f: FailureFields, now: int)
      modifies this
      ensures rows == MarkFailed(old(rows), id, f, now)
      ensures forall i :: i in rows && (i !in old(rows) || rows[i] != old(rows)[i]) ==> rows[i].updatedAt == now
      ensures OnlyAt(old(rows), rows, id)
      ensures id in rows ==> SameAction(rows[id], old(rows)[id]) && rows[id].result == old(rows)[id].result
      ensures id in rows ==> Unlocked(rows[id]) && rows[id].status == f.status && rows[id].attempts == f.attempts
      ensures id in rows ==> rows[id].lastError == Some(f.lastError) && rows[id].errorClass == Some(f.errorClass)
      ensures id in rows ==> forall t :: Eligible(rows[id], t) <==>
        (f.status == Pending || f.status == Failed) && f.attempts < rows[id].maxAttempts
        && (if f.scheduledAt.Some? then f.scheduledAt.value else old(rows)[id].scheduledAt) <= t
    {
      rows := MarkFailed(rows, id, f, now);
    }

    /** Returns the new id, or nothing when the idempotency key is already there. */
    method Insert(id: ActionId, f: NewAction, now: int) returns (inserted: Option<ActionId>)
      requires id !in rows
      modifies this
      ensures rows == InsertIfAbsent(old(rows), id, f, now)
      ensures forall i :: i in rows && (i !in old(rows) || rows[i] != old(rows)[i]) ==> rows[i].updatedAt == now
      ensures inserted == if KeyTaken(old(rows), f.key) then None else Some(id)
      ensures inserted.None? <==> exists i :: i in old(rows) && old(rows)[i].key == f.key
      ensures inserted.None? ==> rows == old(rows)
      ensures inserted.Some? ==> rows.Keys == old(rows).Keys + {id} && forall i :: i in old(rows) ==> rows[i] == old(rows)[i]
      ensures inserted.Some? ==> inserted.value == id && IsNew(rows[id], f)
    {
      var rest := rows.Keys;
      while rest != {}
        invariant rest <= rows.Keys && rows == old(rows)
        invariant forall i :: i in rows.Keys - rest ==> rows[i].key != f.key
        decreases rest
      {
        var i :| i in rest;
        if rows[i].key == f.key {
          return None;
        }
        rest := rest - {i};
      }
      rows := rows[id := FreshRow(f, now)];
      inserted := Some(id);
    }

    /** `pairs`: the driver answers an UPDATE with its rows and their count, and the caller tests the length of that. */
    method ReplayAction(id: ActionId, now: int, pairs: bool) returns (replayed: bool)
      modifies this
      ensures rows == Replay(old(rows), id, now)
      ensures forall i :: i in rows && (i !in old(rows) || rows[i] != old(rows)[i]) ==> rows[i].updatedAt == now
      ensures OnlyAt(old(rows), rows, id)
      ensures var took := id in old(rows) && old(rows)[id].status in {Dead, Failed, Cancelled};
        && (replayed <==> pairs || took)
        && (!took ==> rows == old(rows))
        && (took ==> SameAction(rows[id], old(rows)[id]) && rows[id].result == old(rows)[id].result)
        && (took ==> rows[id].status == Pending && rows[id].attempts == 0 && Unlocked(rows[id]))
        && (took ==> rows[id].lastError == None && rows[id].errorClass == None)
        && (took ==> forall t :: Eligible(rows[id], t) <==> rows[id].maxAttempts >= 1 && now <= t)
      ensures forall t :: Replay(rows, id, t) == rows
    {
      var took := id in rows && Replayable(rows[id]);
      rows := Replay(rows, id, now);
      replayed := pairs || took;
    }

    method CancelAction(id: ActionId, now: int, pairs: bool) returns (cancelled: bool)
      modifies this
      ensures rows == Cancel(old(rows), id, now)
      ensures forall i :: i in rows && (i !in old(rows) || rows[i] != old(rows)[i]) ==> rows[i].updatedAt == now
      ensures OnlyAt(old(rows), rows, id)
      ensures var took := id in old(rows) && old(rows)[id].status in {Pending, Failed};
        && (cancelled <==> pairs || took)
        && (!took ==> rows == old(rows))
        && (took ==> SameWork(rows[id], old(rows)[id]) && rows[id].status == Cancelled && Unlocked(rows[id]))
      ensures forall t :: Cancel(rows, id, t) == rows && (id in rows ==> !Eligible(rows[id], t))
    {
      var took := id in rows && Waiting(rows[id]);
      rows := Cancel(rows, id, now);
      cancelled := pairs || took;
    }

    method Archive(now: int) returns (archived: nat)
      modifies this
      ensures rows == ArchiveDead(old(rows), now)
      ensures forall i :: i in rows && (i !in old(rows) || rows[i] != old(rows)[i]) ==> rows[i].updatedAt == now
      ensures archived == |set i | i in old(rows) && old(rows)[i].status == Dead|
      ensures rows.Keys == old(rows).Keys
      ensures forall i :: i in rows ==> rows[i].status != Dead && SameWork(rows[i], old(rows)[i])
      ensures forall i :: i in rows && old(rows)[i].status == Dead ==> rows[i].status == Cancelled && Unlocked(rows[i])
      ensures forall i :: i in rows && old(rows)[i].status != Dead ==> rows[i] == old(rows)[i]
      ensures forall i, t :: i in rows ==> (Eligible(rows[i], t) <==> Eligible(old(rows)[i], t))
      ensures forall t :: ArchiveDead(rows, t) == rows
    {
      archived := |set i | i in rows && rows[i].status == Dead|;
      rows := ArchiveDead(rows, now);
    }

    method CancelAccount(account: string, now: int)
      modifies this
      ensures rows == CancelByAccount(old(rows), account, now)
      ensures forall i :: i in rows && (i !in old(rows) || rows[i] != old(rows)[i]) ==> rows[i].updatedAt == now
      ensures rows.Keys == old(rows).Keys
      ensures forall i :: i in rows ==> SameWork(rows[i], old(rows)[i]) && !(rows[i].accountId == account && Waiting(rows[i]))
      ensures forall i :: i in rows && !(old(rows)[i].accountId == account && Waiting(old(rows)[i])) ==> rows[i] == old(rows)[i]
      ensures forall i :: i in rows && old(rows)[i].accountId == account && old(rows)[i].status in {Pending, Failed} ==>
        rows[i].status == Cancelled
        && rows[i].lockedUntil == old(rows)[i].lockedUntil && rows[i].lockedBy == old(rows)[i].lockedBy
      ensures forall i, t :: i in rows ==> (Eligible(rows[i], t) <==> Eligible(old(rows)[i], t) && rows[i].accountId != account)
      ensures forall t :: CancelByAccount(rows, account, t) == rows
    {
      rows := CancelByAccount(rows, account, now);
    }
  }
}
