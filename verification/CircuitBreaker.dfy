/**
 * The per-account circuit breaker (action-engine/circuit-breaker.service.ts) over the key-value table
 * `control_state` (persistence/repositories/control-state.repository.ts).
 */
module CircuitBreaker {
  import opened Options
  import opened Numerals

  // ---------------------------------------------------------------- the key-value table

  /** The keys of the breaker; other users of the table have keys of their own. */
  datatype Key =
    | KPaused | KReason | KPausedAt | KPauseUntil
    | KConsecutiveFailures | KLastFailureAt | KLastFailure | KLastSuccessAt
    | KOther(name: string)

  /** Primary key (account_id, key). */
  type Cells = map<(string, Key), string>
  type Entry = (Key, string)

  function UpsertAll(cells: Cells, account: string, entries: seq<Entry>): Cells {
    if entries == [] then cells else
    var last := entries[|entries| - 1];
    UpsertAll(cells, account, entries[..|entries| - 1])[(account, last.0) := last.1]
  }

  function DeleteAll(cells: Cells, account: string, keys: seq<Key>): Cells {
    map c | c in cells && !(c.0 == account && c.1 in keys) :: cells[c]
  }

  function Get(cells: Cells, account: string, key: Key): Option<string> {
    if (account, key) in cells then Some(cells[(account, key)]) else None
  }

  lemma UpsertSnoc(cells: Cells, account: string, entries: seq<Entry>, e: Entry)
    ensures UpsertAll(cells, account, entries + [e]) == UpsertAll(cells, account, entries)[(account, e.0) := e.1]
  {
    assert (entries + [e])[..|entries|] == entries;
  }

  class ControlState {
    var cells: Cells

    constructor ()
      ensures cells == map[]
    {
      cells := map[];
    }

    /** One transaction over all the entries. */
    method Upsert(account: string, entries: seq<Entry>)
      modifies this
      ensures cells == UpsertAll(old(cells), account, entries)
    {
      for n := 0 to |entries|
        invariant cells == UpsertAll(old(cells), account, entries[..n])
      {
        assert entries[..n + 1] == entries[..n] + [entries[n]];
        UpsertSnoc(old(cells), account, entries[..n], entries[n]);
        cells := cells[(account, entries[n].0) := entries[n].1];
      }
      assert entries[..|entries|] == entries;
    }

    method DeleteKeys(account: string, keys: seq<Key>)
      modifies this
      ensures cells == DeleteAll(old(cells), account, keys)
      ensures forall a, k :: Get(cells, a, k) == if a == account && k in keys then None else Get(old(cells), a, k)
      ensures DeleteAll(cells, account, keys) == cells
    {
      cells := DeleteAll(cells, account, keys);
    }
  }

  // ---------------------------------------------------------------- instants as text

  /** Text of an instant in milliseconds; the layout stands in for toISOString. */
  function Stamp(t: int): string {
    if t >= 0 then "+" + Decimal(t) else "-" + Decimal(-t)
  }

  /** new Date(text): an invalid text gives no instant. */
  function ReadStamp(s: string): Option<int> {
    if |s| > 1 && s[0] in "+-" && AllDigits(s[1..], 10)
    then Some(if s[0] == '+' then Parse(s[1..], 10) as int else 0 - Parse(s[1..], 10))
    else None
  }

  lemma StampRoundTrip(t: int)
    ensures ReadStamp(Stamp(t)) == Some(t)
  {
    var n: nat := if t >= 0 then t else -t;
    ParsePrint(n, 10);
    PrintIsCanonical(n, 10);
    assert Stamp(t)[1..] == Decimal(n);
  }

  lemma StampIsText(t: int)
    ensures Stamp(t) != ""
  {
  }

  /** parseInt(text ?? '0', 10) with NaN read as 0. */
  function ReadCount(v: Option<string>): nat {
    if v.None? then 0 else Parse(DigitPrefix(v.value, 10), 10)
  }

  lemma CountRoundTrip(n: nat)
    ensures ReadCount(Some(Decimal(n))) == n
  {
    ParsePrint(n, 10);
    AllDigitsPrefix(Decimal(n), 10);
  }

  // ---------------------------------------------------------------- the breaker

  const FAILURE_THRESHOLD := 3
  const PAUSE_MS := 60 * 60 * 1000
  const PAUSE_KEYS := [KReason, KPausedAt, KPauseUntil]

  datatype Snapshot = Snapshot(
    paused: bool,
    reason: Option<string>,
    pausedAt: Option<string>,
    pauseUntil: Option<string>,
    consecutiveFailures: nat,
    lastFailureAt: Option<string>,
    lastFailure: Option<string>,
    lastSuccessAt: Option<string>
  )

  function Load(cells: Cells, account: string): Snapshot {
    Snapshot(
      Get(cells, account, KPaused) == Some("true"),
      Get(cells, account, KReason),
      Get(cells, account, KPausedAt),
      Get(cells, account, KPauseUntil),
      ReadCount(Get(cells, account, KConsecutiveFailures)),
      Get(cells, account, KLastFailureAt),
      Get(cells, account, KLastFailure),
      Get(cells, account, KLastSuccessAt))
  }

  predicate IsPaused(cells: Cells, account: string, now: int) {
    var snap := Load(cells, account);
    && snap.paused
    && (snap.pauseUntil.None? || snap.pauseUntil == Some("") ||
        (ReadStamp(snap.pauseUntil.value).Some? && ReadStamp(snap.pauseUntil.value).value > now))
  }

  function Reason(failures: nat): string {
    "circuit breaker: " + Decimal(failures) + " consecutive failures"
  }

  /** The upsert of recordSuccess, before the pause keys are deleted. */
  function SuccessWritten(cells: Cells, account: string, at: int): Cells {
    cells[(account, KPaused) := "false"][(account, KConsecutiveFailures) := "0"][(account, KLastSuccessAt) := Stamp(at)]
  }

  /** The upsert of clear, before the pause keys are deleted. */
  function ClearWritten(cells: Cells, account: string): Cells {
    cells[(account, KPaused) := "false"][(account, KConsecutiveFailures) := "0"]
  }

  /** `at` and `pauseFrom` are the two readings of the clock in recordFailure. */
  function FailureWritten(cells: Cells, account: string, message: string, at: int, pauseFrom: int): Cells {
    var failures := Load(cells, account).consecutiveFailures + 1;
    var counted := cells[(account, KConsecutiveFailures) := Decimal(failures)]
                     [(account, KLastFailure) := message][(account, KLastFailureAt) := Stamp(at)];
    if failures < FAILURE_THRESHOLD then counted else
    counted[(account, KPaused) := "true"][(account, KReason) := Reason(failures)]
      [(account, KPausedAt) := Stamp(at)][(account, KPauseUntil) := Stamp(pauseFrom + PAUSE_MS)]
  }

  // ---------------------------------------------------------------- cell by cell

  /** What a reader finds under a key of the account after a success. */
  function CellAfterSuccess(before: Option<string>, key: Key, at: int): Option<string> {
    match key
    case KPaused => Some("false")
    case KConsecutiveFailures => Some("0")
    case KLastSuccessAt => Some(Stamp(at))
    case KReason => None
    case KPausedAt => None
    case KPauseUntil => None
    case _ => before
  }

  function CellAfterClear(before: Option<string>, key: Key): Option<string> {
    match key
    case KPaused => Some("false")
    case KConsecutiveFailures => Some("0")
    case KReason => None
    case KPausedAt => None
    case KPauseUntil => None
    case _ => before
  }

  /** And after the n-th failure in a row. */
  function CellAfterFailure(before: Option<string>, key: Key, n: nat, message: string, at: int, pauseFrom: int): Option<string> {
    match key
    case KConsecutiveFailures => Some(Decimal(n))
    case KLastFailure => Some(message)
    case KLastFailureAt => Some(Stamp(at))
    case KPaused => if n >= 3 then Some("true") else before
    case KReason => if n >= 3 then Some("circuit breaker: " + Decimal(n) + " consecutive failures") else before
    case KPausedAt => if n >= 3 then Some(Stamp(at)) else before
    case KPauseUntil => if n >= 3 then Some(Stamp(pauseFrom + 3600000)) else before
    case _ => before
  }

  ghost predicate IsAfterSuccess(before: Cells, after: Cells, account: string, at: int) {
    forall a, k :: Get(after, a, k) == if a == account then CellAfterSuccess(Get(before, a, k), k, at) else Get(before, a, k)
  }

  ghost predicate IsAfterClear(before: Cells, after: Cells, account: string) {
    forall a, k :: Get(after, a, k) == if a == account then CellAfterClear(Get(before, a, k), k) else Get(before, a, k)
  }

  ghost predicate IsAfterFailure(before: Cells, after: Cells, account: string, message: string, at: int, pauseFrom: int) {
    var n := ReadCount(Get(before, account, KConsecutiveFailures)) + 1;
    forall a, k :: Get(after, a, k) ==
      if a == account then CellAfterFailure(Get(before, a, k), k, n, message, at, pauseFrom) else Get(before, a, k)
  }

  lemma SuccessCells(cells: Cells, account: string, at: int)
    ensures IsAfterSuccess(cells, DeleteAll(SuccessWritten(cells, account, at), account, PAUSE_KEYS), account, at)
  {
    hide Stamp;
  }

  lemma ClearCells(cells: Cells, account: string)
    ensures IsAfterClear(cells, DeleteAll(ClearWritten(cells, account), account, PAUSE_KEYS), account)
  {
  }

  lemma FailureCells(cells: Cells, account: string, message: string, at: int, pauseFrom: int)
    ensures IsAfterFailure(cells, FailureWritten(cells, account, message, at, pauseFrom), account, message, at, pauseFrom)
  {
    hide Stamp, Decimal, ReadCount;
  }

  class Breaker {
    const state: ControlState

    constructor (state: ControlState)
      ensures this.state == state
    {
      this.state := state;
    }

    method Paused(account: string, now: int) returns (paused: bool)
      ensures paused == IsPaused(state.cells, account, now)
    {
      var snap := Load(state.cells, account);
      if !snap.paused { return false; }
      if snap.pauseUntil.None? || snap.pauseUntil.value == "" { return true; }
      var until := ReadStamp(snap.pauseUntil.value);
      paused := until.Some? && until.value > now;
    }

    method RecordSuccess(account: string, at: int)
      modifies state
      ensures state.cells == DeleteAll(SuccessWritten(old(state.cells), account, at), account, PAUSE_KEYS)
      ensures IsAfterSuccess(old(state.cells), state.cells, account, at)
    {
      hide IsAfterSuccess;
      SuccessCells(state.cells, account, at);
      ghost var c := state.cells;
      ghost var e: seq<Entry> := [(KPaused, "false"), (KConsecutiveFailures, "0")];
      UpsertSnoc(c, account, [], (KPaused, "false"));
      UpsertSnoc(c, account, [(KPaused, "false")], (KConsecutiveFailures, "0"));
      UpsertSnoc(c, account, e, (KLastSuccessAt, Stamp(at)));
      assert [] + [(KPaused, "false")] == [(KPaused, "false")];
      assert [(KPaused, "false")] + [(KConsecutiveFailures, "0")] == e;
      assert e + [(KLastSuccessAt, Stamp(at))] ==
        [(KPaused, "false"), (KConsecutiveFailures, "0"), (KLastSuccessAt, Stamp(at))];
      state.Upsert(account, [(KPaused, "false"), (KConsecutiveFailures, "0"), (KLastSuccessAt, Stamp(at))]);
      state.DeleteKeys(account, PAUSE_KEYS);
    }

    method RecordFailure(account: string, message: string, at: int, pauseFrom: int) returns (snap: Snapshot)
      modifies state
      ensures state.cells == FailureWritten(old(state.cells), account, message, at, pauseFrom)
      ensures IsAfterFailure(old(state.cells), state.cells, account, message, at, pauseFrom)
      ensures snap == Load(state.cells, account)
    {
      hide IsAfterFailure;
      FailureCells(state.cells, account, message, at, pauseFrom);
      ghost var c := state.cells;
      snap := Load(state.cells, account);
      var failures := snap.consecutiveFailures + 1;
      var updates: seq<Entry> := [];
      UpsertSnoc(c, account, updates, (KConsecutiveFailures, Decimal(failures)));
      updates := updates + [(KConsecutiveFailures, Decimal(failures))];
      UpsertSnoc(c, account, updates, (KLastFailure, message));
      updates := updates + [(KLastFailure, message)];
      UpsertSnoc(c, account, updates, (KLastFailureAt, Stamp(at)));
      updates := updates + [(KLastFailureAt, Stamp(at))];
      if failures >= FAILURE_THRESHOLD {
        UpsertSnoc(c, account, updates, (KPaused, "true"));
        updates := updates + [(KPaused, "true")];
        UpsertSnoc(c, account, updates, (KReason, Reason(failures)));
        updates := updates + [(KReason, Reason(failures))];
        UpsertSnoc(c, account, updates, (KPausedAt, Stamp(at)));
        updates := updates + [(KPausedAt, Stamp(at))];
        UpsertSnoc(c, account, updates, (KPauseUntil, Stamp(pauseFrom + PAUSE_MS)));
        updates := updates + [(KPauseUntil, Stamp(pauseFrom + PAUSE_MS))];
      }
      state.Upsert(account, updates);
      snap := Load(state.cells, account);
    }

    method Clear(account: string) returns (snap: Snapshot)
      modifies state
      ensures state.cells == DeleteAll(ClearWritten(old(state.cells), account), account, PAUSE_KEYS)
      ensures IsAfterClear(old(state.cells), state.cells, account)
      ensures snap == Load(state.cells, account)
    {
      hide IsAfterClear;
      ClearCells(state.cells, account);
      ghost var c := state.cells;
      UpsertSnoc(c, account, [], (KPaused, "false"));
      UpsertSnoc(c, account, [(KPaused, "false")], (KConsecutiveFailures, "0"));
      assert [] + [(KPaused, "false")] == [(KPaused, "false")];
      assert [(KPaused, "false")] + [(KConsecutiveFailures, "0")] == [(KPaused, "false"), (KConsecutiveFailures, "0")];
      state.Upsert(account, [(KPaused, "false"), (KConsecutiveFailures, "0")]);
      state.DeleteKeys(account, PAUSE_KEYS);
      snap := Load(state.cells, account);
    }
  }

  // ---------------------------------------------------------------- against the event log

  /** `finished` is false when the process stops between the upsert and the deletion of the pause keys. */
  datatype Event =
    | Success(account: string, at: int, finished: bool)
    | Failure(account: string, message: string, at: int, pauseFrom: int)
    | Cleared(account: string, finished: bool)

  function Write(cells: Cells, e: Event): Cells {
    match e
    case Success(a, at, finished) =>
      var c := SuccessWritten(cells, a, at);
      if finished then DeleteAll(c, a, PAUSE_KEYS) else c
    case Failure(a, message, at, pauseFrom) => FailureWritten(cells, a, message, at, pauseFrom)
    case Cleared(a, finished) =>
      var c := ClearWritten(cells, a);
      if finished then DeleteAll(c, a, PAUSE_KEYS) else c
  }

  function CellsOf(log: seq<Event>): Cells {
    if log == [] then map[] else Write(CellsOf(log[..|log| - 1]), log[|log| - 1])
  }

  /** The account's events, without anybody else's. */
  function Own(log: seq<Event>, account: string): seq<Event> {
    if log == [] then [] else
    var rest := Own(log[..|log| - 1], account);
    if log[|log| - 1].account == account then rest + [log[|log| - 1]] else rest
  }

  /** How many failures end a log. */
  function Trailing(log: seq<Event>): nat {
    if log == [] || !log[|log| - 1].Failure? then 0 else 1 + Trailing(log[..|log| - 1])
  }

  lemma LastIsFailure(log: seq<Event>)
    ensures Trailing(log) >= 1 ==> log != [] && log[|log| - 1].Failure?
  {
  }

  /** When the last success of a log was. */
  function LastSuccess(log: seq<Event>): Option<int> {
    if log == [] then None
    else if log[|log| - 1].Success? then Some(log[|log| - 1].at)
    else LastSuccess(log[..|log| - 1])
  }

  /** What the cells of one account say: the count, and when it pauses. */
  ghost predicate Mirrors(cells: Cells, account: string, own: seq<Event>) {
    var n := Trailing(own);
    && ReadCount(Get(cells, account, KConsecutiveFailures)) == n
    && (Get(cells, account, KPaused) == Some("true") <==> n >= FAILURE_THRESHOLD)
    && (n >= FAILURE_THRESHOLD ==>
          Get(cells, account, KPauseUntil) == Some(Stamp(own[|own| - 1].pauseFrom + PAUSE_MS)))
    && (n >= FAILURE_THRESHOLD ==>
          Get(cells, account, KPausedAt) == Some(Stamp(own[|own| - 1].at)) && Get(cells, account, KReason) == Some(Reason(n)))
    && Get(cells, account, KLastSuccessAt) == (if LastSuccess(own).Some? then Some(Stamp(LastSuccess(own).value)) else None)
    && (n >= 1 ==> Get(cells, account, KLastFailure) == Some(own[|own| - 1].message))
    && (n >= 1 ==> Get(cells, account, KLastFailureAt) == Some(Stamp(own[|own| - 1].at)))
  }

  lemma StrangersLeaveCells(cells: Cells, e: Event, account: string, key: Key)
    requires e.account != account
    ensures Get(Write(cells, e), account, key) == Get(cells, account, key)
  {
  }

  lemma QuietEventMirrors(cells: Cells, e: Event, own: seq<Event>)
    requires !e.Failure? && Mirrors(cells, e.account, own)
    ensures Mirrors(Write(cells, e), e.account, own + [e])
  {
    hide Decimal, Stamp;
    var c := Write(cells, e);
    ZeroText();
    CountRoundTrip(0);
    assert Get(c, e.account, KConsecutiveFailures) == Some("0");
    assert Get(c, e.account, KPaused) == Some("false");
    assert "false"[0] != "true"[0];
    assert Trailing(own + [e]) == 0;
    assert (own + [e])[..|own|] == own;
    assert LastSuccess(own + [e]) == if e.Success? then Some(e.at) else LastSuccess(own);
  }

  lemma FailureMirrors(cells: Cells, e: Event, own: seq<Event>)
    requires e.Failure? && Mirrors(cells, e.account, own)
    ensures Mirrors(Write(cells, e), e.account, own + [e])
  {
    hide Decimal, Stamp, ReadCount, Parse, Reason;
    var n := Trailing(own) + 1;
    assert (own + [e])[..|own|] == own;
    assert Trailing(own + [e]) == n;
    assert LastSuccess(own + [e]) == LastSuccess(own);
    CountRoundTrip(n);
    assert Load(cells, e.account).consecutiveFailures + 1 == n;
    var c := FailureWritten(cells, e.account, e.message, e.at, e.pauseFrom);
    assert Get(c, e.account, KConsecutiveFailures) == Some(Decimal(n));
    assert n < FAILURE_THRESHOLD ==> Get(c, e.account, KPaused) == Get(cells, e.account, KPaused);
  }

  lemma ZeroText()
    ensures Decimal(0) == "0"
  {
  }

  lemma {:induction false} LogMirrors(log: seq<Event>, account: string)
    ensures Mirrors(CellsOf(log), account, Own(log, account))
  {
    if log != [] {
      var front := log[..|log| - 1];
      var e := log[|log| - 1];
      LogMirrors(front, account);
      if e.account == account {
        if e.Failure? {
          FailureMirrors(CellsOf(front), e, Own(front, account));
        } else {
          QuietEventMirrors(CellsOf(front), e, Own(front, account));
        }
      } else {
        forall key
          ensures Get(CellsOf(log), account, key) == Get(CellsOf(front), account, key)
        {
          StrangersLeaveCells(CellsOf(front), e, account, key);
        }
      }
    }
  }

  /**
   * For any serial log of successes, failures and clears over any accounts, stopped or not between
   * the two writes of a success or a clear: `load` reports the account's trailing failure count, and
   * the account is paused exactly while that count is at least 3 and an hour has not passed since
   * the last failure.
   */
  lemma BreakerFollowsLog(log: seq<Event>, account: string, now: int)
    ensures var own := Own(log, account); var n := Trailing(own); var snap := Load(CellsOf(log), account);
      && snap.consecutiveFailures == n
      && (n >= 1 ==> snap.lastFailure == Some(own[|own| - 1].message))
      && (n >= 1 ==> snap.lastFailureAt == Some(Stamp(own[|own| - 1].at)))
      && snap.lastSuccessAt == (if LastSuccess(own).Some? then Some(Stamp(LastSuccess(own).value)) else None)
      && (n >= 3 ==> snap.reason == Some("circuit breaker: " + Decimal(n) + " consecutive failures"))
      && (snap.paused <==> n >= 3)
      && (n >= 3 ==> snap.pausedAt == Some(Stamp(own[|own| - 1].at)))
      && (n >= 3 ==> snap.pauseUntil == Some(Stamp(own[|own| - 1].pauseFrom + 3600000)))
      && (IsPaused(CellsOf(log), account, now) <==> n >= 3 && now < own[|own| - 1].pauseFrom + 3600000)
  {
    hide CellsOf, Own, Trailing, ReadCount, Stamp, ReadStamp, LastSuccess, Decimal;
    var own := Own(log, account);
    LogMirrors(log, account);
    LastIsFailure(own);
    if Trailing(own) >= FAILURE_THRESHOLD {
      var until := own[|own| - 1].pauseFrom + PAUSE_MS;
      StampRoundTrip(until);
      StampIsText(until);
    }
  }

  /** Deleting the pause keys changes nothing a reader of the pause decision sees. */
  lemma HalfWrittenSuccessIsSeenWhole(log: seq<Event>, account: string, at: int, now: int)
    ensures IsPaused(CellsOf(log + [Success(account, at, false)]), account, now)
        <==> IsPaused(CellsOf(log + [Success(account, at, true)]), account, now)
  {
    var half := log + [Success(account, at, false)];
    var whole := log + [Success(account, at, true)];
    assert half[..|log|] == log == whole[..|log|];
    BreakerFollowsLog(half, account, now);
    BreakerFollowsLog(whole, account, now);
  }
}
