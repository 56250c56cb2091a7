/** What every run of the action engine guarantees, read off its invariant. */
module EngineSafety {
  import opened Options
  import opened RetryPolicy
  import opened ActionTable
  import opened ActionEngine

  ghost predicate Reaches(start: State, steps: seq<Step>) { Init(start) && IsRun(start, steps) }

  lemma ReachableInv(start: State, steps: seq<Step>)
    requires Reaches(start, steps)
    ensures Inv(After(start, steps))
  {
    hide Apply, Enabled, After, IsRun;
    RunKeeps(start, steps);
  }

  // ---------------------------------------------------------------- at most one success

  lemma {:induction false} OkEventsAreCounted(log: seq<Event>, p: nat, id: ActionId)
    requires p < |log| && log[p].Returned? && log[p].ok && log[p].id == id
    ensures TallyOf(log, id).succeeded >= 1
  {
    if p < |log| - 1 {
      OkEventsAreCounted(log[..|log| - 1], p, id);
    }
  }

  lemma {:induction false} TwoOkEventsCountTwice(log: seq<Event>, p: nat, q: nat, id: ActionId)
    requires p < q < |log|
    requires log[p].Returned? && log[p].ok && log[p].id == id
    requires log[q].Returned? && log[q].ok && log[q].id == id
    ensures TallyOf(log, id).succeeded >= 2
  {
    var front := log[..|log| - 1];
    if q < |log| - 1 {
      TwoOkEventsCountTwice(front, p, q, id);
    } else {
      OkEventsAreCounted(front, p, id);
    }
  }

  ghost predicate OkAt(log: seq<Event>, p: int, key: string) {
    0 <= p < |log| && log[p].Returned? && log[p].ok && log[p].key == key
  }

  /**
   * Whatever the workers, crashes, lease expiries, repeated inserts, cancels, replays and archives:
   * for one idempotency key the executor returns ok at most once in the whole run.
   */
  lemma AtMostOneSuccessPerKey(start: State, steps: seq<Step>, key: string, p: int, q: int)
    requires Reaches(start, steps)
    requires OkAt(After(start, steps).log, p, key) && OkAt(After(start, steps).log, q, key)
    ensures p == q
  {
    hide Apply, Enabled, IsRun, TallyOf;
    var s := After(start, steps);
    hide After;
    ReachableInv(start, steps);
    assert NamesRow(s.rows, s.log[p]) && NamesRow(s.rows, s.log[q]);
    var id := s.log[p].id;
    assert s.log[q].id == id;
    assert RowFits(s.rows[id], TallyOf(s.log, id));
    if p < q {
      TwoOkEventsCountTwice(s.log, p, q, id);
    } else if q < p {
      TwoOkEventsCountTwice(s.log, q, p, id);
    }
  }

  // ---------------------------------------------------------------- rows nobody may touch again

  ghost predicate OwnStep(step: Step, k: Ticket) {
    (step.Defer? || step.Skip? || step.Start? || step.Invoke? || step.Return? || step.Persist? || step.Crash?)
    && step.k == k
  }

  /** Succeeded, or left claimed or running by a worker that is gone. */
  ghost predicate Frozen(s: State, id: ActionId) {
    && id in s.rows && s.rows[id].status in {Claimed, Running, Succeeded}
    && forall k :: k in s.live ==> k.id != id
  }

  lemma FrozenCommit(s: State, t: nat, id: ActionId)
    requires ClaimsOk(s) && t in s.claims && Frozen(s, id)
    ensures Frozen(DoClaimCommit(s, t), id) && DoClaimCommit(s, t).rows[id] == s.rows[id]
  {
    hide Apart;
    assert HeldAsSeen(s.rows, s.claims[t]);
  }

  lemma FrozenAdmin(s: State, step: Step, id: ActionId)
    requires Enabled(s, step) && Frozen(s, id)
    requires step.Insert? || step.ReplayRow? || step.CancelRow? || step.Archive? || step.CancelAccount?
    ensures Frozen(Apply(s, step), id) && Apply(s, step).rows[id] == s.rows[id]
  {
    hide Locked;
  }

  lemma FrozenDispatch(s: State, step: Step, m: Ticket, id: ActionId)
    requires Enabled(s, step) && Frozen(s, id) && m in s.live && OwnStep(step, m)
    ensures Frozen(Apply(s, step), id) && Apply(s, step).rows[id] == s.rows[id]
  {
    hide Locked, Failure, Deferral;
  }

  lemma FrozenStep(s: State, step: Step, id: ActionId)
    requires Inv(s) && Enabled(s, step) && Frozen(s, id)
    ensures Frozen(Apply(s, step), id) && Apply(s, step).rows[id] == s.rows[id]
  {
    hide RowsOk, KeysUnique, LogNamesRows, LiveOk, Exclusive, ClaimsOk, IsBatch, Free, Locked,
      DoInsert, DoClaimCommit, DoPersist, DoDefer, DoStart, DoReplay, Replay, Cancel, ArchiveDead, CancelByAccount;
    if step.Insert? || step.ReplayRow? || step.CancelRow? || step.Archive? || step.CancelAccount? {
      FrozenAdmin(s, step, id);
    } else if step.ClaimCommit? {
      FrozenCommit(s, step.t, id);
    } else if step.ClaimLock? || step.ClaimAbort? || step.Tick? {
    } else {
      FrozenDispatch(s, step, step.k, id);
    }
  }

  lemma {:induction false} FrozenRun(s: State, steps: seq<Step>, id: ActionId)
    requires Inv(s) && IsRun(s, steps) && Frozen(s, id)
    ensures id in After(s, steps).rows && After(s, steps).rows[id] == s.rows[id]
    decreases |steps|
  {
    hide Inv, Apply, Enabled;
    if steps != [] {
      StepKeeps(s, steps[0]);
      FrozenStep(s, steps[0], id);
      FrozenRun(Apply(s, steps[0]), steps[1..], id);
    }
  }

  /** `succeeded` absorbs: no later step changes any column of the row. */
  lemma SucceededIsFinal(start: State, before: seq<Step>, after: seq<Step>, id: ActionId)
    requires Reaches(start, before)
    requires IsRun(After(start, before), after)
    requires var s := After(start, before); id in s.rows && s.rows[id].status == Succeeded
    ensures var s := After(start, before); var e := After(s, after);
      id in e.rows && e.rows[id] == s.rows[id]
  {
    var s := After(start, before);
    hide After, IsRun;
    ReachableInv(start, before);
    forall k | k in s.live
      ensures k.id != id
    {
      assert Untouched(s.rows[k.id], s.live[k]);
    }
    FrozenRun(s, after, id);
  }

  /**
   * The price of the same guards: a row whose dispatch died while it was claimed or running stays
   * exactly so for ever, whatever the clock says about `locked_until`. Nothing reclaims it.
   */
  lemma OrphanIsNeverReclaimed(start: State, before: seq<Step>, after: seq<Step>, id: ActionId)
    requires Reaches(start, before)
    requires IsRun(After(start, before), after)
    requires var s := After(start, before);
      && id in s.rows && s.rows[id].status in {Claimed, Running}
      && forall k :: k in s.live ==> k.id != id
    ensures var s := After(start, before); var e := After(s, after);
      id in e.rows && e.rows[id] == s.rows[id]
  {
    var s := After(start, before);
    hide After, IsRun;
    ReachableInv(start, before);
    FrozenRun(s, after, id);
  }

  /** It takes one worker that claims a row and is gone. */
  function OrphanSteps(now: int): seq<Step> {
    [Insert(0, NewAction("key", "account", now, None, 0)), ClaimLock(0, "worker", 1, 300, false, {0}),
     ClaimCommit(0), Crash(Ticket(0, 0))]
  }

  function OrphanRow(now: int): Row { FreshRow(NewAction("key", "account", now, None, 0), now) }

  lemma OrphanInserted(start: State)
    requires Init(start)
    ensures var step := OrphanSteps(start.now)[0];
      Enabled(start, step) && Apply(start, step) == start.(rows := map[0 := OrphanRow(start.now)], log := [Inserted(0)])
  {
    assert !KeyTaken(start.rows, "key");
  }

  lemma OrphanLocked(s: State)
    requires s.rows == map[0 := OrphanRow(s.now)] && s.claims == map[] && s.live == map[]
    ensures var step := OrphanSteps(s.now)[1];
      Enabled(s, step) && Apply(s, step) == DoClaimLock(s, 0, "worker", 300, {0})
  {
    hide Free, Locked;
    OnlyRowIsTheBatch(s, OrphanRow(s.now));
  }

  lemma OrphanCommitted(s: State)
    requires s.rows == map[0 := OrphanRow(s.now)] && s.claims == map[] && s.live == map[]
    ensures var s' := DoClaimCommit(DoClaimLock(s, 0, "worker", 300, {0}), 0);
      && s'.live.Keys == {Ticket(0, 0)} && s'.now == s.now && 0 in s'.rows && s'.rows[0].status == Claimed
      && s'.rows[0].lockedUntil == Some(s.now + 300000)
  {
    hide Locked, Free;
    var locked := DoClaimLock(s, 0, "worker", 300, {0});
    assert locked.claims[0].picked.Keys == {0};
  }

  lemma OrphanRun(start: State)
    requires Init(start)
    ensures var steps := OrphanSteps(start.now);
      IsRun(start, steps) && var s := After(start, steps);
      && s.live == map[] && s.now == start.now && 0 in s.rows && s.rows[0].status == Claimed
      && s.rows[0].lockedUntil == Some(start.now + 300000)
  {
    hide IsRun, After, DoClaimCommit;
    var steps := OrphanSteps(start.now);
    var s1 := start.(rows := map[0 := OrphanRow(start.now)], log := [Inserted(0)]);
    var s2 := DoClaimLock(s1, 0, "worker", 300, {0});
    var s3 := DoClaimCommit(s2, 0);
    OrphanInserted(start);
    OrphanLocked(s1);
    OrphanCommitted(s1);
    assert Enabled(s2, steps[2]) && Apply(s2, steps[2]) == s3;
    assert Enabled(s3, steps[3]) && Apply(s3, steps[3]) == s3.(live := map[]);
    hide Apply, Enabled, OrphanSteps;
    NoStep(s3.(live := map[]));
    FirstStep(s3, steps[3], []);
    FirstStep(s2, steps[2], [steps[3]] + []);
    FirstStep(s1, steps[1], [steps[2]] + ([steps[3]] + []));
    FirstStep(start, steps[0], [steps[1]] + ([steps[2]] + ([steps[3]] + [])));
    assert |steps| == 4;
    assert steps == [steps[0]] + ([steps[1]] + ([steps[2]] + ([steps[3]] + [])));
  }

  lemma OnlyRowIsTheBatch(s: State, row: Row)
    requires s.rows == map[0 := row] && s.claims == map[] && Eligible(row, s.now)
    ensures IsBatch(s.rows, Free(s.rows, Locked(s), s.now), 1, false, {0})
  {
    assert Free(s.rows, Locked(s), s.now) == {0};
  }

  ghost predicate StuckRow(e: State, id: ActionId, until: int) {
    && id in e.rows && e.rows[id].status == Claimed && e.rows[id].lockedUntil == Some(until)
    && forall t :: !Eligible(e.rows[id], t)
  }

  /** From the empty table four steps lead to a row that no later run ever lets go, long past its lock. */
  lemma OrphansHappen(start: State)
    requires Init(start)
    ensures IsRun(start, OrphanSteps(start.now))
    ensures forall after :: IsRun(After(start, OrphanSteps(start.now)), after) ==>
      StuckRow(After(After(start, OrphanSteps(start.now)), after), 0, start.now + 300000)
  {
    OrphanRun(start);
    hide IsRun, After;
    forall after | IsRun(After(start, OrphanSteps(start.now)), after)
      ensures StuckRow(After(After(start, OrphanSteps(start.now)), after), 0, start.now + 300000)
    {
      OrphanIsNeverReclaimed(start, OrphanSteps(start.now), after, 0);
    }
  }

  // ---------------------------------------------------------------- ownership

  ghost predicate Undisturbed(s: State, s': State, k: Ticket) {
    && k in s.live && k in s'.live && s'.live[k] == s.live[k]
    && k.id in s.rows && k.id in s'.rows && s'.rows[k.id] == s.rows[k.id]
  }

  /** A dispatch's own step writes its own row and nobody else's entry. */
  lemma OwnStepIsLocal(s: State, step: Step, m: Ticket, k: Ticket)
    requires Enabled(s, step) && OwnStep(step, m) && k in s.live && k.id in s.rows && m.id != k.id
    ensures Undisturbed(s, Apply(s, step), k)
  {
    hide Locked, Failure, Deferral, Decide;
  }

  lemma NeighbourKeepsOff(s: State, step: Step, k: Ticket, m: Ticket)
    requires Inv(s) && Enabled(s, step) && k in s.live && OwnStep(step, m) && m != k
    ensures Undisturbed(s, Apply(s, step), k)
  {
    hide RowsOk, KeysUnique, LogNamesRows, ClaimsOk, PhaseFits, Untouched, Locked, Apply;
    assert m in s.live && m.id != k.id;
    assert k.id in s.rows;
    OwnStepIsLocal(s, step, m, k);
  }

  lemma CommitKeepsOff(s: State, t: nat, k: Ticket)
    requires Inv(s) && t in s.claims && k in s.live
    ensures Undisturbed(s, DoClaimCommit(s, t), k)
  {
    hide RowsOk, KeysUnique, LogNamesRows, Exclusive, TallyOf, PhaseFits, HeldAsSeen, Untouched;
    PickedAreIdle(s, t, k);
  }

  lemma AdminKeepsOff(s: State, step: Step, k: Ticket)
    requires Inv(s) && Enabled(s, step) && k in s.live
    requires step.Insert? || step.ReplayRow? || step.CancelRow? || step.Archive? || step.CancelAccount?
    ensures Undisturbed(s, Apply(s, step), k)
  {
    hide RowsOk, KeysUnique, LogNamesRows, ClaimsOk, Exclusive, PhaseFits, Locked, TallyOf, KeyTaken;
    assert Untouched(s.rows[k.id], s.live[k]);
  }

  /** No step but the dispatch's own changes its row, although the outcome writes check nothing. */
  lemma OthersKeepOff(s: State, step: Step, k: Ticket)
    requires Inv(s) && Enabled(s, step) && k in s.live && !OwnStep(step, k)
    ensures Undisturbed(s, Apply(s, step), k)
  {
    hide RowsOk, KeysUnique, LogNamesRows, ClaimsOk, Exclusive, PhaseFits, Untouched, Locked, Free, IsBatch, TallyOf,
      DoInsert, DoClaimCommit, DoPersist, DoDefer, DoStart, DoReplay, Replay, Cancel, ArchiveDead, CancelByAccount;
    if step.Insert? || step.ReplayRow? || step.CancelRow? || step.Archive? || step.CancelAccount? {
      AdminKeepsOff(s, step, k);
    } else if step.ClaimCommit? {
      CommitKeepsOff(s, step.t, k);
    } else if step.ClaimLock? || step.ClaimAbort? || step.Tick? {
      assert k.id in s.rows;
    } else {
      NeighbourKeepsOff(s, step, k, step.k);
    }
  }

  lemma {:induction false} OthersKeepOffRun(s: State, steps: seq<Step>, k: Ticket)
    requires Inv(s) && IsRun(s, steps) && k in s.live
    requires forall n :: 0 <= n < |steps| ==> !OwnStep(steps[n], k)
    ensures Undisturbed(s, After(s, steps), k)
    decreases |steps|
  {
    hide Apply, Enabled, OwnStep, RowsOk, KeysUnique, LogNamesRows, Exclusive, ClaimsOk;
    if steps == [] {
      assert k.id in s.rows;
    } else {
      assert !OwnStep(steps[0], k);
      StepKeeps(s, steps[0]);
      OthersKeepOff(s, steps[0], k);
      OthersKeepOffRun(Apply(s, steps[0]), steps[1..], k);
    }
  }

  /**
   * At every reachable state a row has at most one live dispatch, its status is claimed or running,
   * and apart from that status and the stamp it is the row the dispatch was handed: an unguarded
   * outcome write overwrites nobody's work, before or after `locked_until`.
   */
  lemma OneOwnerPerRow(start: State, steps: seq<Step>, k: Ticket, m: Ticket)
    requires Reaches(start, steps)
    requires k in After(start, steps).live && m in After(start, steps).live && k.id == m.id
    ensures k == m
    ensures var s := After(start, steps); var d := s.live[k];
      && k.id in s.rows
      && s.rows[k.id].status == (if d.phase == Taken then Claimed else Running)
      && s.rows[k.id].(status := d.row.status, updatedAt := d.row.updatedAt) == d.row
      && s.rows[k.id].attempts == d.row.attempts < d.row.maxAttempts
  {
    hide Apply, Enabled, IsRun, TallyOf;
    var s := After(start, steps);
    hide After;
    ReachableInv(start, steps);
    assert Untouched(s.rows[k.id], s.live[k]);
    assert RowFits(s.rows[k.id], TallyOf(s.log, k.id));
  }

  // ---------------------------------------------------------------- claims that overlap

  /** Between lock and commit no other step moves a claim or the rows it holds. */
  lemma ClaimHoldsStep(s: State, step: Step, t: nat)
    requires Inv(s) && Enabled(s, step) && t in s.claims && step != ClaimCommit(t) && step != ClaimAbort(t)
    ensures t in Apply(s, step).claims && Apply(s, step).claims[t] == s.claims[t]
  {
    hide Inv, DoInsert, DoPersist, Locked, Free, IsBatch;
    if step.Insert? {
      assert Apply(s, step) == DoInsert(s, step.id, step.fields);
      InsertLeavesClaims(s, step.id, step.fields);
    } else if step.Persist? {
      PersistLeavesClaims(s, step);
    }
  }

  lemma InsertLeavesClaims(s: State, id: ActionId, f: NewAction)
    ensures DoInsert(s, id, f).claims == s.claims
  {
  }

  lemma PersistLeavesClaims(s: State, step: Step)
    requires step.Persist? && Enabled(s, step)
    ensures Apply(s, step).claims == s.claims
  {
  }

  lemma {:induction false} ClaimHoldsRun(s: State, steps: seq<Step>, t: nat)
    requires Inv(s) && IsRun(s, steps) && t in s.claims
    requires forall n :: 0 <= n < |steps| ==> steps[n] != ClaimCommit(t) && steps[n] != ClaimAbort(t)
    ensures var e := After(s, steps);
      t in e.claims && e.claims[t] == s.claims[t] && HeldAsSeen(e.rows, e.claims[t])
    decreases |steps|
  {
    hide Apply, Enabled, HeldAsSeen, RowsOk, KeysUnique, LogNamesRows, LiveOk, Exclusive, Apart;
    if steps != [] {
      StepKeeps(s, steps[0]);
      ClaimHoldsStep(s, steps[0], t);
      ClaimHoldsRun(Apply(s, steps[0]), steps[1..], t);
    }
  }

  /**
   * Overlapping claimBatch calls return disjoint sets of rows, none of which has a live dispatch,
   * and each row is at commit what it was when it was locked.
   */
  lemma OverlappingClaimsAreDisjoint(start: State, steps: seq<Step>, t: nat, u: nat)
    requires Reaches(start, steps)
    requires t != u && t in After(start, steps).claims && u in After(start, steps).claims
    ensures var s := After(start, steps);
      && s.claims[t].picked.Keys !! s.claims[u].picked.Keys
      && (forall i :: i in s.claims[t].picked ==> i in s.rows && s.rows[i] == s.claims[t].picked[i])
      && (forall k :: k in s.live ==> k.id !in s.claims[t].picked)
  {
    hide Apply, Enabled, IsRun, TallyOf;
    var s := After(start, steps);
    hide After;
    ReachableInv(start, steps);
    assert HeldAsSeen(s.rows, s.claims[t]);
    forall k | k in s.live
      ensures k.id !in s.claims[t].picked
    {
      PickedAreIdle(s, t, k);
    }
  }

  /** Committing a claim gives exactly the locked rows to the worker, one fresh dispatch each. */
  ghost predicate HandsOut(c: Claim, t: nat, s: State, s': State) {
    && (forall i :: i in c.picked ==>
          && i in s'.rows && s'.rows[i] == Lease(c.picked[i], c.worker, c.until, c.at)
          && Ticket(t, i) in s'.live && s'.live[Ticket(t, i)] == Dispatch(s'.rows[i], Taken))
    && s'.live.Keys == s.live.Keys + (set i | i in c.picked :: Ticket(t, i))
    && (forall i :: i in s.rows && i !in c.picked ==> i in s'.rows && s'.rows[i] == s.rows[i])
  }

  lemma CommitHandsOut(s: State, t: nat)
    requires ClaimsOk(s) && t in s.claims
    ensures HandsOut(s.claims[t], t, s, DoClaimCommit(s, t))
  {
    hide Apart, Lease;
    var c, s' := s.claims[t], DoClaimCommit(s, t);
    assert HeldAsSeen(s.rows, c);
    forall i | i in c.picked
      ensures i in s'.rows && s'.rows[i] == Lease(c.picked[i], c.worker, c.until, c.at)
      ensures Ticket(t, i) in s'.live && s'.live[Ticket(t, i)] == Dispatch(s'.rows[i], Taken)
    {
      CommitLeasesOne(s, t, i);
    }
    hide HeldAsSeen;
  }

  lemma CommitLeasesOne(s: State, t: nat, i: ActionId)
    requires t in s.claims && HeldAsSeen(s.rows, s.claims[t]) && i in s.claims[t].picked
    ensures var c, s' := s.claims[t], DoClaimCommit(s, t);
      && i in s'.rows && s'.rows[i] == Lease(c.picked[i], c.worker, c.until, c.at)
      && Ticket(t, i) in s'.live && s'.live[Ticket(t, i)] == Dispatch(s'.rows[i], Taken)
  {
    hide Lease;
    assert Ticket(t, i).id == i;
  }

  /** What a locking step notes: the rows as it sees them. */
  function Noted(s: State, lock: Step): Claim
    requires lock.ClaimLock? && lock.chosen <= s.rows.Keys
  {
    Claim(lock.worker, s.now + lock.lockTtlSec * 1000, s.now, map i | i in lock.chosen :: s.rows[i])
  }

  lemma LockOpensClaim(s: State, lock: Step)
    requires lock.ClaimLock? && Enabled(s, lock)
    ensures IsBatch(s.rows, Free(s.rows, Locked(s), s.now), lock.batch, lock.byPriority, lock.chosen)
    ensures lock.t in Apply(s, lock).claims && Apply(s, lock).claims[lock.t] == Noted(s, lock)
  {
    hide Locked, IsBatch;
  }

  /**
   * Whatever happens between a claim's lock and its commit, the claim returns the rows it chose: as many as
   * are free and asked for, none left free that comes before one of them, each leased as it was when
   * locked, and a new dispatch for each and for no other row.
   */
  lemma ClaimReturnsItsBatch(s: State, lock: Step, between: seq<Step>)
    requires Inv(s) && lock.ClaimLock? && Enabled(s, lock) && IsRun(Apply(s, lock), between)
    requires forall n :: 0 <= n < |between| ==> between[n] != ClaimCommit(lock.t) && between[n] != ClaimAbort(lock.t)
    ensures var e := After(Apply(s, lock), between);
      lock.t in e.claims && HandsOut(Noted(s, lock), lock.t, e, DoClaimCommit(e, lock.t))
    ensures var e := After(Apply(s, lock), between);
      lock.t in e.claims && LeasesAsLocked(s, lock, DoClaimCommit(e, lock.t))
  {
    hide Apply, After, IsRun, Enabled, IsBatch, Free, Locked, Inv, HandsOut, DoClaimCommit, Noted;
    StepKeeps(s, lock);
    LockOpensClaim(s, lock);
    ClaimHoldsRun(Apply(s, lock), between, lock.t);
    RunKeeps(Apply(s, lock), between);
    InvIncludesClaims(After(Apply(s, lock), between));
    CommitHandsOut(After(Apply(s, lock), between), lock.t);
    LockedAreRows(s, lock);
    HandedOutAsLocked(s, lock, After(Apply(s, lock), between), DoClaimCommit(After(Apply(s, lock), between), lock.t));
  }

  /** Each row chosen is the worker's until the lease ends, and otherwise the action it was when it was locked. */
  ghost predicate LeasesAsLocked(s: State, lock: Step, e: State)
    requires lock.ClaimLock? && lock.chosen <= s.rows.Keys
  {
    forall i :: i in lock.chosen ==>
      && i in e.rows && LeasedTo(e.rows[i], s.rows[i], lock.worker, s.now + lock.lockTtlSec * 1000)
      && Ticket(lock.t, i) in e.live && e.live[Ticket(lock.t, i)] == Dispatch(e.rows[i], Taken)
  }

  lemma LockedAreRows(s: State, lock: Step)
    requires lock.ClaimLock? && Enabled(s, lock)
    ensures lock.chosen <= s.rows.Keys
  {
    hide Locked;
  }

  lemma HandedOutAsLocked(s: State, lock: Step, e: State, e': State)
    requires lock.ClaimLock? && lock.chosen <= s.rows.Keys && HandsOut(Noted(s, lock), lock.t, e, e')
    ensures LeasesAsLocked(s, lock, e')
  {
    hide LeasedTo, Lease;
    forall i | i in lock.chosen
      ensures i in e'.rows && LeasedTo(e'.rows[i], s.rows[i], lock.worker, s.now + lock.lockTtlSec * 1000)
    {
      LeaseLeases(s.rows[i], lock.worker, s.now + lock.lockTtlSec * 1000, s.now);
    }
  }

  lemma LeaseLeases(r: Row, worker: string, until: int, now: int)
    ensures LeasedTo(Lease(r, worker, until, now), r, worker, until)
  {
  }

  lemma BatchAfterBatch(rows: Table, free: set<ActionId>, b: nat, c: nat, byPriority: bool, first: set<ActionId>, second: set<ActionId>)
    requires free <= rows.Keys && IsBatch(rows, free, b, byPriority, first)
    requires IsBatch(rows, free - first, c, byPriority, second)
    ensures first !! second && IsBatch(rows, free, b + c, byPriority, first + second)
  {
    assert |free - first| == |free| - |first|;
    assert |first + second| == |first| + |second|;
  }

  // ---------------------------------------------------------------- any number of claims, with work between them

  function FreeIn(s: State): set<ActionId> { Free(s.rows, Locked(s), s.now) }

  /**
   * A step of a dispatch, a commit or an archive. An outcome or a deferral counts if it does not put its row
   * back in the queue for the present.
   */
  ghost predicate Calm(s: State, step: Step)
    requires Enabled(s, step)
  {
    || step.Skip? || step.Start? || step.Invoke? || step.Return? || step.Crash? || step.ClaimCommit? || step.Archive?
    || ((step.Persist? || step.Defer?) &&
        step.k.id in Apply(s, step).rows && !Eligible(Apply(s, step).rows[step.k.id], s.now))
  }

  /** The queue is the same: the same rows are free, with the same contents. */
  ghost predicate SameQueue(s: State, e: State) {
    FreeIn(e) == FreeIn(s) && forall i :: i in FreeIn(s) ==> i in s.rows && i in e.rows && e.rows[i] == s.rows[i]
  }

  lemma DispatchRowIsBusy(s: State, k: Ticket)
    requires Inv(s) && k in s.live
    ensures k.id in s.rows && !Waiting(s.rows[k.id]) && k.id !in Locked(s)
  {
    hide RowsOk, KeysUnique, LogNamesRows, Exclusive, PhaseFits, TallyOf;
    assert Untouched(s.rows[k.id], s.live[k]);
    forall t | t in s.claims
      ensures k.id !in s.claims[t].picked
    {
      assert HeldAsSeen(s.rows, s.claims[t]);
    }
  }

  /** A step that leaves the claims and every row but one busy one alone, and does not make that one eligible. */
  lemma OneBusyRowMoves(s: State, e: State, j: ActionId)
    requires e.claims == s.claims && e.now == s.now && e.rows.Keys == s.rows.Keys
    requires forall i :: i in s.rows && i != j ==> e.rows[i] == s.rows[i]
    requires j in s.rows ==> !Waiting(s.rows[j]) && !Eligible(e.rows[j], s.now)
    ensures SameQueue(s, e)
  {
    assert Locked(e) == Locked(s);
  }

  lemma OwnStepMovesOneRow(s: State, step: Step, k: Ticket, i: ActionId)
    requires Enabled(s, step) && OwnStep(step, k) && i != k.id
    ensures var e := Apply(s, step);
      && e.claims == s.claims && e.now == s.now && e.rows.Keys == s.rows.Keys
      && (i in s.rows ==> e.rows[i] == s.rows[i])
  {
    hide Locked, Failure, Deferral, Decide;
  }

  lemma CalmRowStaysBusy(s: State, step: Step, k: Ticket)
    requires Enabled(s, step) && OwnStep(step, k) && Calm(s, step)
    requires k.id in s.rows && !Waiting(s.rows[k.id])
    ensures k.id in Apply(s, step).rows && !Eligible(Apply(s, step).rows[k.id], s.now)
  {
    hide Locked, Failure, Deferral, Decide;
  }

  lemma OwnStepKeepsQueue(s: State, step: Step, k: Ticket)
    requires Inv(s) && Enabled(s, step) && Calm(s, step) && OwnStep(step, k)
    ensures SameQueue(s, Apply(s, step))
  {
    assert k in s.live;
    DispatchRowIsBusy(s, k);
    CalmRowStaysBusy(s, step, k);
    hide Inv, Locked, SameQueue, Apply, Enabled, Calm, Waiting, Eligible;
    OwnStepMovesOneRow(s, step, k, k.id + 1);
    forall i | i in s.rows && i != k.id
      ensures Apply(s, step).rows[i] == s.rows[i]
    {
      OwnStepMovesOneRow(s, step, k, i);
    }
    OneBusyRowMoves(s, Apply(s, step), k.id);
  }

  lemma ArchiveKeepsQueue(s: State)
    ensures SameQueue(s, s.(rows := ArchiveDead(s.rows, s.now)))
  {
    assert Locked(s.(rows := ArchiveDead(s.rows, s.now))) == Locked(s);
  }

  /** Committed rows were locked before and are claimed after: they were not free and are not. */
  lemma CommitKeepsQueue(s: State, t: nat)
    requires ClaimsOk(s) && t in s.claims
    ensures SameQueue(s, DoClaimCommit(s, t))
  {
    hide Apart;
    var e := DoClaimCommit(s, t);
    assert HeldAsSeen(s.rows, s.claims[t]);
    forall i | i in s.rows && i !in s.claims[t].picked
      ensures i in Locked(e) <==> i in Locked(s)
    {
      if i in Locked(s) {
        var u :| u in s.claims && i in s.claims[u].picked;
        assert u in e.claims && i in e.claims[u].picked;
      }
    }
    forall i | i in s.claims[t].picked
      ensures i in Locked(s) && !Eligible(e.rows[i], s.now)
    {
    }
  }

  lemma CalmKeepsQueue(s: State, step: Step)
    requires Inv(s) && Enabled(s, step) && Calm(s, step)
    ensures SameQueue(s, Apply(s, step))
  {
    if step.ClaimCommit? {
      CommitKeepsQueue(s, step.t);
    } else if step.Archive? {
      ArchiveKeepsQueue(s);
    } else {
      OwnStepKeepsQueue(s, step, step.k);
    }
  }

  /** Claims in one order, with calm steps between them. */
  ghost predicate Claiming(s: State, steps: seq<Step>, byPriority: bool)
    requires IsRun(s, steps)
    decreases |steps|
  {
    steps == [] ||
    ((if steps[0].ClaimLock? then steps[0].byPriority == byPriority else Calm(s, steps[0]))
     && Claiming(Apply(s, steps[0]), steps[1..], byPriority))
  }

  function TakenBy(steps: seq<Step>): set<ActionId> {
    if steps == [] then {} else (if steps[0].ClaimLock? then steps[0].chosen else {}) + TakenBy(steps[1..])
  }

  function Asked(steps: seq<Step>): nat {
    if steps == [] then 0 else (if steps[0].ClaimLock? then steps[0].batch else 0) + Asked(steps[1..])
  }

  lemma SameQueueSameBatch(s: State, e: State, batch: nat, byPriority: bool, picked: set<ActionId>)
    requires SameQueue(s, e) && IsBatch(e.rows, FreeIn(e), batch, byPriority, picked)
    ensures IsBatch(s.rows, FreeIn(s), batch, byPriority, picked)
  {
    hide Free, Locked;
  }

  lemma LockShrinksQueue(s: State, lock: Step)
    requires lock.ClaimLock? && Enabled(s, lock)
    ensures FreeIn(Apply(s, lock)) == FreeIn(s) - lock.chosen && Apply(s, lock).rows == s.rows
    ensures IsBatch(s.rows, FreeIn(s), lock.batch, lock.byPriority, lock.chosen)
  {
    LockAddsChosen(s, lock);
    LockOpensClaim(s, lock);
    LockLeavesRows(s, lock);
    FreeShrinks(s.rows, Locked(s), lock.chosen, s.now);
  }

  lemma NothingIsABatch(s: State, byPriority: bool)
    ensures IsBatch(s.rows, FreeIn(s), 0, byPriority, {})
  {
    hide Locked;
  }

  /**
   * Any number of overlapping claims, with dispatches running and claims committing between them, share out the
   * queue as one claim of all their sizes would: nothing is taken twice, nothing is missed, and the order is
   * kept across them.
   */
  lemma {:induction false} OverlappingClaimsFormOneBatch(s: State, steps: seq<Step>, byPriority: bool)
    requires Inv(s) && IsRun(s, steps) && Claiming(s, steps, byPriority)
    ensures IsBatch(s.rows, FreeIn(s), Asked(steps), byPriority, TakenBy(steps))
    decreases |steps|
  {
    hide Inv, Apply, Enabled, Calm, IsBatch, FreeIn, SameQueue;
    if steps == [] {
      NothingIsABatch(s, byPriority);
    } else {
      var s', rest := Apply(s, steps[0]), steps[1..];
      StepKeeps(s, steps[0]);
      OverlappingClaimsFormOneBatch(s', rest, byPriority);
      if steps[0].ClaimLock? {
        LockShrinksQueue(s, steps[0]);
        FreeIsKnown(s);
        BatchAfterBatch(s.rows, FreeIn(s), steps[0].batch, Asked(rest), byPriority, steps[0].chosen, TakenBy(rest));
      } else {
        CalmKeepsQueue(s, steps[0]);
        SameQueueSameBatch(s, s', Asked(rest), byPriority, TakenBy(rest));
        assert {} + TakenBy(rest) == TakenBy(rest);
      }
    }
  }

  lemma FreeIsKnown(s: State)
    ensures FreeIn(s) <= s.rows.Keys
  {
  }

  lemma LockLeavesRows(s: State, lock: Step)
    requires lock.ClaimLock? && Enabled(s, lock)
    ensures Apply(s, lock).rows == s.rows && Apply(s, lock).now == s.now
  {
    hide Locked, IsBatch;
  }

  lemma FreeShrinks(rows: Table, locked: set<ActionId>, chosen: set<ActionId>, now: int)
    ensures Free(rows, locked + chosen, now) == Free(rows, locked, now) - chosen
  {
  }

  lemma LockAddsChosen(s: State, lock: Step)
    requires lock.ClaimLock? && Enabled(s, lock)
    ensures Locked(Apply(s, lock)) == Locked(s) + lock.chosen
  {
    hide IsBatch;
    var s1 := Apply(s, lock);
    forall i | i in Locked(s)
      ensures i in Locked(s1)
    {
      var t :| t in s.claims && i in s.claims[t].picked;
      assert i in s1.claims[t].picked;
    }
    assert forall i :: i in lock.chosen ==> i in s1.claims[lock.t].picked;
  }

  lemma InvIncludesClaims(s: State)
    requires Inv(s)
    ensures ClaimsOk(s)
  {
  }

  // ---------------------------------------------------------------- attempts, invocations, backoff

  /**
   * `attempts` is the number of failures recorded since the row's insert or last replay and never
   * passes max_attempts; in that span the executor runs at most max_attempts times, and at most one
   * run is not accounted for (in flight, crashed, or the success).
   */
  lemma AttemptsAreExact(start: State, steps: seq<Step>, id: ActionId)
    requires Reaches(start, steps) && id in After(start, steps).rows
    ensures var s := After(start, steps); var r := s.rows[id]; var t := TallyOf(s.log, id);
      var budget := if r.maxAttempts >= 0 then r.maxAttempts else 0;
      && r.attempts == t.recorded <= budget
      && t.recorded <= t.failed <= t.invoked <= budget && t.invoked <= t.recorded + 1
      && (t.invoked == t.recorded + 1 ==> r.status == Running || r.status == Succeeded)
      && (r.status == Succeeded ==> t.succeeded == 1 && t.invoked == r.attempts + 1)
      && (t.succeeded == 1 ==> r.status == Succeeded || r.status == Running)
  {
    hide Apply, Enabled, IsRun, TallyOf;
    var s := After(start, steps);
    hide After;
    ReachableInv(start, steps);
    assert RowFits(s.rows[id], TallyOf(s.log, id));
  }

  /**
   * What a finished dispatch leaves in its row, and in the log: a success with its result and nothing logged, or
   * a failure that is due again exactly when the delay that is logged has passed on the worker's clock.
   */
  lemma OutcomeIsWritten(s: State, k: Ticket, sentTable: bool, jitter: real, workerNow: int)
    requires Inv(s) && Enabled(s, Persist(k, sentTable, jitter, workerNow))
    ensures var s' := Apply(s, Persist(k, sentTable, jitter, workerNow));
      k.id in s.rows && k.id in s'.rows && var was, r := s.rows[k.id], s'.rows[k.id];
      match s.live[k].phase.outcome
      case Ok(f) => s'.log == s.log && SucceededAs(was, r, f, sentTable, s.now)
      case Err(message, errorClass) =>
        && |s'.log| == |s.log| + 1 && s.log <= s'.log && s'.log[|s.log|].Recorded? && s'.log[|s.log|].id == k.id
        && FailedAs(was, r, message, errorClass, jitter, workerNow, s'.log[|s.log|].delayMs)
  {
    OwnRow(s, k);
    var d := s.live[k];
    assert Apply(s, Persist(k, sentTable, jitter, workerNow)) == DoPersist(s, k, sentTable, jitter, workerNow);
    assert SameAction(d.row, s.rows[k.id]) && d.row.attempts == s.rows[k.id].attempts && Draw(jitter);
    PersistEffect(s, k, sentTable, jitter, workerNow);
    hide Inv, RowFits, PhaseFits, TallyOf, Apply, Enabled, DoPersist, Failure, Decide, FailedAs, SucceededAs, FailRow,
      SucceedRow, Draw, SameAction, Untouched;
    match d.phase.outcome
    case Ok(f) =>
      SuccessSucceeds(s.rows[k.id], f, sentTable, s.now);
    case Err(message, errorClass) =>
      FailureFailsTheRow(s.rows[k.id], d.row, message, errorClass, jitter, workerNow, s.now);
  }

  lemma PersistEffect(s: State, k: Ticket, sentTable: bool, jitter: real, workerNow: int)
    requires k in s.live && s.live[k].phase.Finished? && k.id in s.rows && s.live[k].row.maxAttempts == s.rows[k.id].maxAttempts
    requires s.live[k].row.attempts == s.rows[k.id].attempts
    ensures var s' := DoPersist(s, k, sentTable, jitter, workerNow); var was := s.rows[k.id];
      k.id in s'.rows &&
      match s.live[k].phase.outcome
      case Ok(f) => s'.log == s.log && s'.rows[k.id] == SucceedRow(was, f, sentTable, s.now)
      case Err(message, errorClass) =>
        && s'.log == s.log + [Recorded(k.id, Decide(was.attempts + 1, errorClass, was.maxAttempts, jitter).delayMs)]
        && s'.rows[k.id] == FailRow(was, Failure(s.live[k].row, message, errorClass, jitter, workerNow), s.now)
  {
    hide Failure, Decide, FailRow, SucceedRow;
  }

  /** A breaker deferral spends no attempt and releases the row for five minutes later. */
  lemma DeferralIsFree(s: State, k: Ticket, workerNow: int)
    requires Inv(s) && Enabled(s, Defer(k, workerNow))
    ensures var s' := Apply(s, Defer(k, workerNow));
      && k.id in s.rows && k.id in s'.rows && s'.rows[k.id].attempts == s.rows[k.id].attempts && s'.log == s.log
      && s'.rows[k.id].status == Pending && Unlocked(s'.rows[k.id]) && SameAction(s'.rows[k.id], s.rows[k.id])
      && s'.rows[k.id].lastError == Some("circuit breaker: account paused") && s'.rows[k.id].errorClass == Some(Transient)
      && forall now :: Eligible(s'.rows[k.id], now) <==> now >= workerNow + 300000
  {
    hide KeysUnique, LogNamesRows, Exclusive, ClaimsOk, Locked, TallyOf;
    assert Untouched(s.rows[k.id], s.live[k]);
    assert s.rows[k.id].attempts < s.rows[k.id].maxAttempts by {
      assert RowFits(s.rows[k.id], TallyOf(s.log, k.id));
    }
  }

  /** The delays granted to a row since its insert or last replay add up to at most 30 min a retry. */
  lemma BackoffIsBounded(start: State, steps: seq<Step>, id: ActionId)
    requires Reaches(start, steps) && id in After(start, steps).rows
    ensures var s := After(start, steps); var r := s.rows[id]; var total := TallyOf(s.log, id).backoff;
      && 0.0 <= total <= r.attempts as real * 1800000.0
      && total <= (if r.maxAttempts >= 1 then r.maxAttempts - 1 else 0) as real * 1800000.0
  {
    hide Apply, Enabled, IsRun, TallyOf;
    var s := After(start, steps);
    hide After;
    ReachableInv(start, steps);
    assert RowFits(s.rows[id], TallyOf(s.log, id));
  }

  /**
   * No write strands a waiting row: it is unlocked, and it can be claimed from `scheduled_at` on,
   * exactly if it was inserted with max_attempts of at least one.
   */
  lemma WaitingRowsAreClaimable(start: State, steps: seq<Step>, id: ActionId, now: int)
    requires Reaches(start, steps) && id in After(start, steps).rows
    requires Waiting(After(start, steps).rows[id])
    ensures var r := After(start, steps).rows[id];
      && r.lockedUntil == None && r.lockedBy == None
      && (Eligible(r, now) <==> r.maxAttempts >= 1 && r.scheduledAt <= now)
  {
    hide Apply, Enabled, IsRun, TallyOf;
    var s := After(start, steps);
    hide After;
    ReachableInv(start, steps);
    assert RowFits(s.rows[id], TallyOf(s.log, id));
  }
}
