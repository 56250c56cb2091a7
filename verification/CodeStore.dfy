/**
 * The in-memory authorization-code store (oauth/oauth-code-store.service.ts): single use, 60 s to live,
 * bounded, swept only when something is put. Proved observationally equal to a ledger that never sweeps.
 */
module CodeStore {
  import opened Options

  datatype CodeRecord = CodeRecord(
    userId: string, clientId: string, redirectUri: string, codeChallenge: string, scope: string)

  datatype Entry = Entry(value: CodeRecord, expiresAt: int)

  type Memory = map<string, Entry>

  const CODE_TTL_MS := 60000

  // ---------------------------------------------------------------- the store's operations

  function Swept(m: Memory, now: int): Memory { map c | c in m && m[c].expiresAt >= now :: m[c] }

  function PutAccepted(m: Memory, cap: int, sweptAt: int): bool { |Swept(m, sweptAt)| < cap }

  /** `sweptAt` and `storedAt` are the two readings of the clock in put. */
  function AfterPut(m: Memory, code: string, record: CodeRecord, cap: int, sweptAt: int, storedAt: int): Memory {
    var s := Swept(m, sweptAt);
    if PutAccepted(m, cap, sweptAt) then s[code := Entry(record, storedAt + CODE_TTL_MS)] else s
  }

  function Consumed(m: Memory, code: string, now: int): Option<CodeRecord> {
    if code in m && m[code].expiresAt >= now then Some(m[code].value) else None
  }

  class Store {
    var memory: Memory

    constructor ()
      ensures memory == map[]
    {
      memory := map[];
    }

    method Sweep(now: int) returns (dropped: nat)
      modifies this
      ensures memory == Swept(old(memory), now)
      ensures dropped == |old(memory)| - |memory|
      ensures forall c :: c in memory <==> c in old(memory) && now <= old(memory)[c].expiresAt
      ensures forall c :: c in memory ==> memory[c] == old(memory)[c]
    {
      dropped := 0;
      var rest := memory.Keys;
      while rest != {}
        invariant rest <= memory.Keys <= old(memory).Keys
        invariant forall c :: c in memory ==> memory[c] == old(memory)[c]
        invariant forall c :: c in old(memory) && c !in rest ==> (c in memory <==> old(memory)[c].expiresAt >= now)
        invariant dropped + |memory| == |old(memory)|
        decreases rest
      {
        var c :| c in rest;
        if memory[c].expiresAt < now {
          assert |memory - {c}| == |memory| - 1 by {
            assert (memory - {c}).Keys == memory.Keys - {c};
            assert |memory.Keys - {c}| == |memory.Keys| - 1;
          }
          memory := memory - {c};
          dropped := dropped + 1;
        }
        rest := rest - {c};
      }
    }

    method Put(code: string, record: CodeRecord, cap: int, sweptAt: int, storedAt: int) returns (accepted: bool)
      modifies this
      ensures accepted == PutAccepted(old(memory), cap, sweptAt)
      ensures memory == AfterPut(old(memory), code, record, cap, sweptAt, storedAt)
      ensures accepted ==> code in memory && memory[code] == Entry(record, storedAt + 60000)
      ensures forall c :: c in memory && !(accepted && c == code) <==>
        c in old(memory) && sweptAt <= old(memory)[c].expiresAt && !(accepted && c == code)
    {
      var _ := Sweep(sweptAt);
      if |memory| >= cap {
        return false;
      }
      memory := memory[code := Entry(record, storedAt + CODE_TTL_MS)];
      accepted := true;
    }

    method Consume(code: string, now: int) returns (found: Option<CodeRecord>)
      modifies this
      ensures found == Consumed(old(memory), code, now)
      ensures memory == old(memory) - {code}
    {
      if code !in memory {
        return None;
      }
      var entry := memory[code];
      memory := memory - {code};
      if entry.expiresAt < now {
        return None;
      }
      found := Some(entry.value);
    }
  }

  // ---------------------------------------------------------------- traces

  datatype Op =
    | Put(code: string, record: CodeRecord, cap: int, sweptAt: int, storedAt: int)
    | Consume(code: string, now: int)
    | Sweep(now: int)

  datatype Answer = Accepted | Refused | Record(value: CodeRecord) | Nothing | Silent

  function Start(op: Op): int { if op.Put? then op.sweptAt else op.now }
  function End(op: Op): int { if op.Put? then op.storedAt else op.now }

  /** The clock never runs back, within an operation or between two. */
  ghost predicate Monotone(ops: seq<Op>) {
    && (forall i :: 0 <= i < |ops| ==> Start(ops[i]) <= End(ops[i]))
    && (forall i, j :: 0 <= i < j < |ops| ==> End(ops[i]) <= Start(ops[j]))
  }

  function Step(m: Memory, op: Op): Memory {
    match op
    case Put(code, record, cap, sweptAt, storedAt) => AfterPut(m, code, record, cap, sweptAt, storedAt)
    case Consume(code, _) => m - {code}
    case Sweep(now) => Swept(m, now)
  }

  function Reply(m: Memory, op: Op): Answer {
    match op
    case Put(_, _, cap, sweptAt, _) => if PutAccepted(m, cap, sweptAt) then Accepted else Refused
    case Consume(code, now) =>
      if Consumed(m, code, now).Some? then Record(Consumed(m, code, now).value) else Nothing
    case Sweep(_) => Silent
  }

  function MemoryAfter(ops: seq<Op>): Memory {
    if ops == [] then map[] else Step(MemoryAfter(ops[..|ops| - 1]), ops[|ops| - 1])
  }

  function Replies(ops: seq<Op>): seq<Answer> {
    if ops == [] then [] else
    Replies(ops[..|ops| - 1]) + [Reply(MemoryAfter(ops[..|ops| - 1]), ops[|ops| - 1])]
  }

  // ---------------------------------------------------------------- the ledger that never sweeps

  /** Every accepted put that was not consumed, expired or not. */
  type Ledger = map<string, Entry>

  function Live(l: Ledger, now: int): set<string> { set c | c in l && l[c].expiresAt >= now }

  /** Refused exactly when `cap` unconsumed codes are still alive. */
  function LedgerReply(l: Ledger, op: Op): Answer {
    match op
    case Put(_, _, cap, sweptAt, _) => if |Live(l, sweptAt)| >= cap then Refused else Accepted
    case Consume(code, now) => if code in Live(l, now) then Record(l[code].value) else Nothing
    case Sweep(_) => Silent
  }

  function LedgerStep(l: Ledger, op: Op): Ledger {
    match op
    case Put(code, record, _, _, storedAt) =>
      if LedgerReply(l, op) == Accepted then l[code := Entry(record, storedAt + CODE_TTL_MS)] else l
    case Consume(code, _) => l - {code}
    case Sweep(_) => l
  }

  function LedgerAfter(ops: seq<Op>): Ledger {
    if ops == [] then map[] else LedgerStep(LedgerAfter(ops[..|ops| - 1]), ops[|ops| - 1])
  }

  function LedgerReplies(ops: seq<Op>): seq<Answer> {
    if ops == [] then [] else
    LedgerReplies(ops[..|ops| - 1]) + [LedgerReply(LedgerAfter(ops[..|ops| - 1]), ops[|ops| - 1])]
  }

  /** The memory is the ledger without some entries that are dead at `now`. */
  ghost predicate Agrees(m: Memory, l: Ledger, now: int) {
    && (forall c :: c in m ==> c in l && m[c] == l[c])
    && (forall c :: c in l && l[c].expiresAt >= now ==> c in m)
  }

  lemma AgreesAnswers(m: Memory, l: Ledger, op: Op, now: int)
    requires Agrees(m, l, now) && now <= Start(op) <= End(op)
    ensures Reply(m, op) == LedgerReply(l, op)
    ensures Agrees(Step(m, op), LedgerStep(l, op), End(op))
  {
    if op.Put? {
      assert Swept(m, op.sweptAt).Keys == Live(l, op.sweptAt);
      assert |Swept(m, op.sweptAt)| == |Swept(m, op.sweptAt).Keys|;
    }
  }

  lemma {:induction false} RunAgrees(ops: seq<Op>, now: int)
    requires Monotone(ops) && (ops != [] ==> now >= End(ops[|ops| - 1]))
    ensures Replies(ops) == LedgerReplies(ops)
    ensures Agrees(MemoryAfter(ops), LedgerAfter(ops), now)
  {
    if ops != [] {
      var front, last := ops[..|ops| - 1], ops[|ops| - 1];
      assert front != [] ==> front[|front| - 1] == ops[|ops| - 2];
      RunAgrees(front, Start(last));
      AgreesAnswers(MemoryAfter(front), LedgerAfter(front), last, Start(last));
    }
  }

  /**
   * On every trace with a monotone clock the sweeping, capped store gives the answers of the ledger
   * that never sweeps: in particular a put is refused only if `cap` live codes are outstanding.
   */
  lemma SweepingIsInvisible(ops: seq<Op>)
    requires Monotone(ops)
    ensures Replies(ops) == LedgerReplies(ops)
  {
    RunAgrees(ops, if ops == [] then 0 else End(ops[|ops| - 1]));
  }

  lemma LastAnswers(front: seq<Op>, last: Op)
    ensures var ops := front + [last]; var a := Replies(ops); var b := LedgerReplies(ops);
      && |a| > 0 && a[|a| - 1] == Reply(MemoryAfter(front), last)
      && |b| > 0 && b[|b| - 1] == LedgerReply(LedgerAfter(front), last)
  {
    assert (front + [last])[..|front|] == front;
  }

  /** If the clock may run back it shows: a swept code is gone when its expiry comes round again. */
  lemma ClockRunningBackShows(code: string, record: CodeRecord)
    ensures exists ops: seq<Op> :: Replies(ops) != LedgerReplies(ops)
  {
    var put, sweep, take := Put(code, record, 1, 0, 0), Sweep(60001), Consume(code, 0);
    var ops := [put, sweep, take];
    assert ops[..2] == [put, sweep] && [put, sweep][..1] == [put] && [put][..0] == [];
    assert MemoryAfter([put]) == map[code := Entry(record, 60000)];
    assert MemoryAfter([put, sweep]) == map[];
    assert LedgerAfter([put]) == map[code := Entry(record, 60000)];
    assert LedgerAfter([put, sweep]) == map[code := Entry(record, 60000)];
    LastAnswers([put, sweep], take);
    assert ops == [put, sweep] + [take];
    assert Replies(ops)[|Replies(ops)| - 1] == Nothing;
    assert LedgerReplies(ops)[|LedgerReplies(ops)| - 1] == Record(record);
  }

  /** Neither puts nor consumes the code. */
  predicate Elsewhere(op: Op, code: string) { (op.Put? || op.Consume?) ==> op.code != code }

  lemma {:induction false} LedgerKeeps(front: seq<Op>, mid: seq<Op>, code: string)
    requires forall i :: 0 <= i < |mid| ==> Elsewhere(mid[i], code)
    ensures code in LedgerAfter(front + mid) <==> code in LedgerAfter(front)
    ensures code in LedgerAfter(front) ==> LedgerAfter(front + mid)[code] == LedgerAfter(front)[code]
  {
    if mid == [] {
      assert front + mid == front;
    } else {
      LedgerKeeps(front, mid[..|mid| - 1], code);
      assert (front + mid)[..|front + mid| - 1] == front + mid[..|mid| - 1];
      assert Elsewhere(mid[|mid| - 1], code);
    }
  }

  /**
   * A code that was accepted and is asked for, with anything but its own put or redemption in between: its
   * record comes back up to the sixtieth second, that instant included, and nothing after it.
   */
  lemma PutThenConsume(front: seq<Op>, put: Op, mid: seq<Op>, take: Op)
    requires put.Put? && take.Consume? && take.code == put.code
    requires forall i :: 0 <= i < |mid| ==> Elsewhere(mid[i], put.code)
    requires Monotone(front + [put] + mid + [take]) && PutAccepted(MemoryAfter(front), put.cap, put.sweptAt)
    ensures Reply(MemoryAfter(front + [put] + mid), take) == if take.now <= put.storedAt + 60000 then Record(put.record) else Nothing
  {
    var ops := front + [put] + mid;
    var all := ops + [take];
    MonotonePrefix(all, |front|);
    MonotonePrefix(all, |ops|);
    assert all[..|front|] == front && all[..|ops|] == ops && all[|front|] == put && all[|ops|] == take;
    hide Reply, LedgerReply, Monotone;
    AgreesThen(ops, take);
    AgreesThen(front, put);
    AcceptedIsLedgered(front, put);
    LedgerKeeps(front + [put], mid, put.code);
    TakenFromLedger(LedgerAfter(ops), MemoryAfter(ops), put, take);
  }

  lemma MonotonePrefix(all: seq<Op>, n: nat)
    requires Monotone(all) && n < |all|
    ensures Monotone(all[..n]) && Start(all[n]) <= End(all[n])
    ensures n > 0 ==> End(all[..n][n - 1]) <= Start(all[n])
  {
  }

  /** After a monotone run the next operation gets the ledger's answer. */
  lemma AgreesThen(ops: seq<Op>, next: Op)
    requires Monotone(ops) && Start(next) <= End(next) && (ops != [] ==> End(ops[|ops| - 1]) <= Start(next))
    ensures Reply(MemoryAfter(ops), next) == LedgerReply(LedgerAfter(ops), next)
  {
    RunAgrees(ops, Start(next));
    AgreesAnswers(MemoryAfter(ops), LedgerAfter(ops), next, Start(next));
  }

  lemma AcceptedIsLedgered(front: seq<Op>, put: Op)
    requires put.Put? && PutAccepted(MemoryAfter(front), put.cap, put.sweptAt)
    requires Reply(MemoryAfter(front), put) == LedgerReply(LedgerAfter(front), put)
    ensures put.code in LedgerAfter(front + [put])
    ensures LedgerAfter(front + [put])[put.code] == Entry(put.record, put.storedAt + 60000)
  {
    assert (front + [put])[..|front|] == front;
  }

  lemma TakenFromLedger(l: Ledger, m: Memory, put: Op, take: Op)
    requires put.Put? && take.Consume? && take.code == put.code
    requires put.code in l && l[put.code] == Entry(put.record, put.storedAt + 60000)
    requires Reply(m, take) == LedgerReply(l, take)
    ensures Reply(m, take) == if take.now <= put.storedAt + 60000 then Record(put.record) else Nothing
  {
  }

  // ---------------------------------------------------------------- one redemption per put, and the bound

  function Puts(ops: seq<Op>, code: string): nat {
    if ops == [] then 0 else
    var last := ops[|ops| - 1];
    Puts(ops[..|ops| - 1], code) +
      (if last.Put? && last.code == code && Reply(MemoryAfter(ops[..|ops| - 1]), last) == Accepted then 1 else 0)
  }

  function Redemptions(ops: seq<Op>, code: string): nat {
    if ops == [] then 0 else
    var last := ops[|ops| - 1];
    Redemptions(ops[..|ops| - 1], code) +
      (if last.Consume? && last.code == code && Reply(MemoryAfter(ops[..|ops| - 1]), last).Record? then 1 else 0)
  }

  /** Each accepted put is redeemed at most once; a stored code still has its redemption ahead. */
  lemma {:induction false} RedeemedAtMostOncePerPut(ops: seq<Op>, code: string)
    ensures Redemptions(ops, code) + (if code in MemoryAfter(ops) then 1 else 0) <= Puts(ops, code)
  {
    if ops != [] {
      RedeemedAtMostOncePerPut(ops[..|ops| - 1], code);
    }
  }

  ghost predicate StoredBy(op: Op, code: string, e: Entry) {
    op.Put? && op.code == code && e == Entry(op.record, op.storedAt + CODE_TTL_MS)
  }

  lemma {:induction false} StoredHasAPut(ops: seq<Op>, code: string)
    requires code in MemoryAfter(ops)
    ensures exists i :: 0 <= i < |ops| && StoredBy(ops[i], code, MemoryAfter(ops)[code])
  {
    var front, last := ops[..|ops| - 1], ops[|ops| - 1];
    if last.Put? && last.code == code && Reply(MemoryAfter(front), last) == Accepted {
      assert StoredBy(ops[|ops| - 1], code, MemoryAfter(ops)[code]);
    } else {
      StoredHasAPut(front, code);
      var i :| 0 <= i < |front| && StoredBy(front[i], code, MemoryAfter(front)[code]);
      assert StoredBy(ops[i], code, MemoryAfter(ops)[code]);
    }
  }

  /** What a redemption returns was put under that code at most 60 s before. */
  lemma RedeemedWhileAlive(ops: seq<Op>, code: string, now: int)
    requires Consumed(MemoryAfter(ops), code, now).Some?
    ensures exists i ::
      && 0 <= i < |ops| && ops[i].Put? && ops[i].code == code
      && ops[i].record == Consumed(MemoryAfter(ops), code, now).value && now <= ops[i].storedAt + 60000
  {
    StoredHasAPut(ops, code);
    var i :| 0 <= i < |ops| && StoredBy(ops[i], code, MemoryAfter(ops)[code]);
    assert ops[i].Put?;
  }

  lemma {:induction false} SizeNeverExceedsCap(ops: seq<Op>, cap: nat)
    requires forall i :: 0 <= i < |ops| && ops[i].Put? ==> ops[i].cap <= cap
    ensures |MemoryAfter(ops)| <= cap
  {
    if ops != [] {
      var front, last := ops[..|ops| - 1], ops[|ops| - 1];
      SizeNeverExceedsCap(front, cap);
      var m := MemoryAfter(front);
      match last
      case Put(code, record, c, sweptAt, _) =>
        SmallerMap(Swept(m, sweptAt), m);
        GrowsByOne(Swept(m, sweptAt), code, Entry(record, last.storedAt + CODE_TTL_MS));
      case Consume(code, _) => SmallerMap(m - {code}, m);
      case Sweep(now) => SmallerMap(Swept(m, now), m);
    }
  }

  lemma SmallerMap(a: Memory, b: Memory)
    requires a.Keys <= b.Keys
    ensures |a| <= |b|
  {
    assert b.Keys == a.Keys + (b.Keys - a.Keys);
    assert |b.Keys| == |a.Keys| + |b.Keys - a.Keys|;
    assert |a| == |a.Keys| && |b| == |b.Keys|;
  }

  lemma GrowsByOne(m: Memory, code: string, e: Entry)
    ensures |m[code := e]| <= |m| + 1
  {
    assert m[code := e].Keys == m.Keys + {code};
    assert |m[code := e]| == |m[code := e].Keys| && |m| == |m.Keys|;
  }
}
