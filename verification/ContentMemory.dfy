/**
 * Duplicate checking against the last 150 remembered texts (content-memory/content-memory.service.ts) and its
 * two clients: publishing (ai-copilot/services/publish-orchestrator.service.ts) and approving a draft
 * (agent/services/agent-draft.service.ts). Requests are served one after another.
 */
module ContentMemory {
  import opened Options
  import opened Similarity
  import opened Text

  // ---------------------------------------------------------------- fingerprints of a text

  /** TextNormalizer.normalize, the digest of SimilarityScorer.hash, and sha8 of IdempotencyKeyService. */
  datatype TextFns = TextFns(normalize: string -> string, hash: string -> string, sha8: string -> string)

  const TOKEN_MIN_LENGTH := 4
  const SIGNATURE_TOKEN_COUNT := 14

  function Signature(f: TextFns, text: string): string {
    var parts := Split(f.normalize(text), ' ');
    Join(if |parts| <= SIGNATURE_TOKEN_COUNT then parts else parts[..SIGNATURE_TOKEN_COUNT], ' ')
  }

  function Tokenize(f: TextFns, text: string): Tokens {
    set w | w in Split(f.normalize(text), ' ') && |w| >= TOKEN_MIN_LENGTH
  }

  function Digest(f: TextFns, text: string): string { f.hash(f.normalize(text)) }

  // ---------------------------------------------------------------- the memory

  /** Rows in the order they were inserted, which is the order of created_at. */
  datatype Row = Row(source: string, textHash: string, text: string, accountId: Option<string>)

  const SIMILARITY_THRESHOLD := 0.72
  const MAX_RECENT := 150

  /** Rows without an account are everybody's; an empty account id puts no filter on the query. */
  predicate Visible(r: Row, account: string) {
    account == "" || r.accountId.None? || r.accountId.value == account
  }

  function VisibleTo(rows: seq<Row>, account: string): seq<Row> {
    if rows == [] then [] else
    var front := VisibleTo(rows[..|rows| - 1], account);
    if Visible(rows[|rows| - 1], account) then front + [rows[|rows| - 1]] else front
  }

  function Recent(rows: seq<Row>): seq<Row> { if |rows| <= MAX_RECENT then rows else rows[|rows| - MAX_RECENT..] }

  function Window(rows: seq<Row>, account: string): seq<Row> { Recent(VisibleTo(rows, account)) }

  predicate Echoes(f: TextFns, r: Row, text: string) {
    || r.textHash == Digest(f, text)
    || Signature(f, r.text) == Signature(f, text)
    || Jaccard(Tokenize(f, text), Tokenize(f, r.text)) >= SIMILARITY_THRESHOLD
  }

  function Reason(f: TextFns, r: Row, text: string): string {
    if r.textHash == Digest(f, text) then "exact hash match: " + r.source
    else if Signature(f, r.text) == Signature(f, text) then "same opening signature: " + r.source
    else "high keyword overlap: " + r.source
  }

  /** The newest echo in the window speaks. */
  function FirstReason(f: TextFns, window: seq<Row>, text: string): Option<string> {
    if window == [] then None
    else if Echoes(f, window[|window| - 1], text) then Some(Reason(f, window[|window| - 1], text))
    else FirstReason(f, window[..|window| - 1], text)
  }

  function Remembered(f: TextFns, source: string, text: string, account: Option<string>): Row {
    Row(source, Digest(f, text), text, account)
  }

  // ---------------------------------------------------------------- what an echo is, in words

  /** Whether the request sees the row: no account asks for all rows, and a row without one is everybody's. */
  predicate CanSee(r: Row, account: string) { account == "" || r.accountId == None || r.accountId == Some(account) }

  /** The words up to the fourteenth. */
  function Opening(words: seq<string>): seq<string> { if |words| <= 14 then words else words[..14] }

  predicate SameOpening(f: TextFns, a: string, b: string) {
    Opening(Split(f.normalize(a), ' ')) == Opening(Split(f.normalize(b), ' '))
  }

  function LongWords(f: TextFns, text: string): set<string> { set w | w in Split(f.normalize(text), ' ') && |w| >= 4 }

  /** At least 72 of a hundred of the long words of either are in both. */
  predicate SharesWords(f: TextFns, a: string, b: string) {
    var u, v := LongWords(f, a), LongWords(f, b);
    u != {} && v != {} && 100 * |u * v| >= 72 * |u + v|
  }

  predicate Repeats(f: TextFns, r: Row, text: string) {
    r.textHash == f.hash(f.normalize(text)) || SameOpening(f, r.text, text) || SharesWords(f, text, r.text)
  }

  function Explained(f: TextFns, r: Row, text: string): string {
    if r.textHash == f.hash(f.normalize(text)) then "exact hash match: " + r.source
    else if SameOpening(f, r.text, text) then "same opening signature: " + r.source
    else "high keyword overlap: " + r.source
  }

  /** How many rows the account sees from row `from` on. */
  function SeenFrom(rows: seq<Row>, account: string, from: nat): nat
    decreases |rows| - from
  {
    if from >= |rows| then 0 else SeenFrom(rows, account, from + 1) + (if CanSee(rows[from], account) then 1 else 0)
  }

  /** The account sees row i and fewer than `limit` rows after it. */
  predicate InReach(rows: seq<Row>, account: string, i: nat, limit: nat) {
    i < |rows| && CanSee(rows[i], account) && SeenFrom(rows, account, i + 1) < limit
  }

  predicate NewestRepeat(f: TextFns, rows: seq<Row>, account: string, text: string, limit: nat, i: nat) {
    && i < |rows| && InReach(rows, account, i, limit) && Repeats(f, rows[i], text)
    && forall j: nat :: i < j < |rows| && InReach(rows, account, j, limit) ==> !Repeats(f, rows[j], text)
  }

  /** No row in reach repeats the text, or the reason is that of the newest that does. */
  ghost predicate IsReason(f: TextFns, rows: seq<Row>, account: string, text: string, limit: nat, reason: Option<string>) {
    match reason
    case None => forall i: nat :: i < |rows| && InReach(rows, account, i, limit) ==> !Repeats(f, rows[i], text)
    case Some(t) => exists i: nat :: NewestRepeat(f, rows, account, text, limit, i) && t == Explained(f, rows[i], text)
  }

  lemma SignatureIsOpening(f: TextFns, a: string, b: string)
    ensures Signature(f, a) == Signature(f, b) <==> SameOpening(f, a, b)
  {
    var u, v := Split(f.normalize(a), ' '), Split(f.normalize(b), ' ');
    PartsAreFree(f.normalize(a), ' ');
    PartsAreFree(f.normalize(b), ' ');
    assert forall w :: w in Opening(u) ==> w in u;
    assert forall w :: w in Opening(v) ==> w in v;
    JoinIsInjective(Opening(u), Opening(v), ' ');
  }

  lemma OverlapIsSharing(f: TextFns, a: string, b: string)
    ensures Jaccard(Tokenize(f, a), Tokenize(f, b)) >= 0.72 <==> SharesWords(f, a, b)
  {
    var u, v := LongWords(f, a), LongWords(f, b);
    assert Tokenize(f, a) == u && Tokenize(f, b) == v;
    hide Tokenize, LongWords;
    if u != {} && v != {} {
      UnionSize(u, v);
      var w :| w in u;
      assert w in u + v && |u + v| > 0;
      QuotientAtLeast(|u * v|, |u + v|);
    }
  }

  lemma QuotientAtLeast(i: nat, n: nat)
    requires n > 0
    ensures i as real / n as real >= 0.72 <==> 100 * i >= 72 * n
  {
    var q := i as real / n as real;
    assert q * n as real == i as real;
    ScaledAtLeast(q, 0.72, n as real);
  }

  lemma ScaledAtLeast(p: real, c: real, n: real)
    requires n > 0.0
    ensures p >= c <==> p * n >= c * n
  {
    assert (p - c) * n == p * n - c * n;
    if p > c {
      PositiveProduct(p - c, n);
    } else if p < c {
      PositiveProduct(c - p, n);
      assert (c - p) * n == c * n - p * n;
    }
  }

  lemma EchoIsRepeat(f: TextFns, r: Row, text: string)
    ensures Echoes(f, r, text) <==> Repeats(f, r, text)
    ensures Echoes(f, r, text) ==> Reason(f, r, text) == Explained(f, r, text)
  {
    hide Signature, Tokenize, Jaccard, SameOpening, SharesWords;
    SignatureIsOpening(f, r.text, text);
    OverlapIsSharing(f, text, r.text);
  }

  function LastOf(rows: seq<Row>, limit: nat): seq<Row> { if |rows| <= limit then rows else rows[|rows| - limit..] }

  lemma {:induction false} SeenSnoc(rows: seq<Row>, r: Row, account: string, from: nat)
    ensures SeenFrom(rows + [r], account, from) ==
      SeenFrom(rows, account, from) + (if from <= |rows| && CanSee(r, account) then 1 else 0)
    decreases |rows| + 1 - from
  {
    if from < |rows| {
      SeenSnoc(rows, r, account, from + 1);
    } else if from == |rows| {
      assert SeenFrom(rows + [r], account, from + 1) == 0;
    }
  }

  lemma ReachSnoc(rows: seq<Row>, r: Row, account: string, i: nat, limit: nat)
    requires i < |rows|
    ensures InReach(rows + [r], account, i, limit) <==>
      if CanSee(r, account) then limit > 0 && InReach(rows, account, i, limit - 1) else InReach(rows, account, i, limit)
  {
    SeenSnoc(rows, r, account, i + 1);
  }

  lemma LastIsInReach(rows: seq<Row>, r: Row, account: string, limit: nat)
    ensures InReach(rows + [r], account, |rows|, limit) <==> CanSee(r, account) && limit > 0
  {
    assert SeenFrom(rows + [r], account, |rows| + 1) == 0;
  }

  /** One more row: the reason is its own if it is in reach and repeats the text, else that of the rows before. */
  lemma ReasonSnoc(f: TextFns, front: seq<Row>, r: Row, account: string, text: string, limit: nat, reason: Option<string>)
    requires CanSee(r, account) && limit > 0 && Repeats(f, r, text) ==> reason == Some(Explained(f, r, text))
    requires CanSee(r, account) && limit > 0 && !Repeats(f, r, text) ==> IsReason(f, front, account, text, limit - 1, reason)
    requires !CanSee(r, account) ==> IsReason(f, front, account, text, limit, reason)
    requires CanSee(r, account) && limit == 0 ==> reason == None
    ensures IsReason(f, front + [r], account, text, limit, reason)
  {
    hide Repeats, Explained, InReach, CanSee;
    var rows := front + [r];
    var below := if CanSee(r, account) && limit > 0 then limit - 1 else limit;
    LastIsInReach(front, r, account, limit);
    forall i: nat | i < |front|
      ensures rows[i] == front[i]
      ensures !(CanSee(r, account) && limit == 0) ==> (InReach(rows, account, i, limit) <==> InReach(front, account, i, below))
      ensures CanSee(r, account) && limit == 0 ==> !InReach(rows, account, i, limit)
    {
      ReachSnoc(front, r, account, i, limit);
    }
    if CanSee(r, account) && limit > 0 && Repeats(f, r, text) {
      assert NewestRepeat(f, rows, account, text, limit, |front|);
    } else if reason.Some? {
      var i: nat :| NewestRepeat(f, front, account, text, below, i) && reason.value == Explained(f, front[i], text);
      NewestStays(f, front, r, account, text, below, limit, i);
    }
  }

  lemma NewestStays(f: TextFns, front: seq<Row>, r: Row, account: string, text: string, below: nat, limit: nat, i: nat)
    requires NewestRepeat(f, front, account, text, below, i)
    requires forall j: nat :: j < |front| ==> (InReach(front + [r], account, j, limit) <==> InReach(front, account, j, below))
    requires InReach(front + [r], account, |front|, limit) ==> !Repeats(f, r, text)
    ensures NewestRepeat(f, front + [r], account, text, limit, i)
  {
    hide Repeats;
    hide InReach;
    var rows := front + [r];
    forall j: nat | i < j < |rows| && InReach(rows, account, j, limit)
      ensures !Repeats(f, rows[j], text)
    {
      if j < |front| {
        assert rows[j] == front[j];
      }
    }
    assert rows[i] == front[i];
  }

  /** The first reason among the last rows seen is the reason in words. */
  lemma {:induction false} FirstReasonIsReason(f: TextFns, rows: seq<Row>, account: string, text: string, limit: nat)
    ensures IsReason(f, rows, account, text, limit, FirstReason(f, LastOf(VisibleTo(rows, account), limit), text))
    decreases |rows|
  {
    hide Echoes, Reason, Repeats, Explained, InReach, IsReason;
    if rows == [] {
      NoRowsNoReason(f, account, text, limit);
      assert LastOf([], limit) == [];
    } else {
      var front, r := rows[..|rows| - 1], rows[|rows| - 1];
      var seen := VisibleTo(front, account);
      assert front + [r] == rows;
      EchoIsRepeat(f, r, text);
      assert Visible(r, account) <==> CanSee(r, account);
      if !CanSee(r, account) {
        FirstReasonIsReason(f, front, account, text, limit);
      } else if limit > 0 {
        FirstReasonIsReason(f, front, account, text, limit - 1);
        var last := LastOf(seen + [r], limit);
        assert last == LastOf(seen, limit - 1) + [r];
        assert last[|last| - 1] == r && last[..|last| - 1] == LastOf(seen, limit - 1);
      } else {
        assert LastOf(seen + [r], 0) == [];
      }
      ReasonSnoc(f, front, r, account, text, limit, FirstReason(f, LastOf(VisibleTo(rows, account), limit), text));
    }
  }

  lemma NoRowsNoReason(f: TextFns, account: string, text: string, limit: nat)
    ensures IsReason(f, [], account, text, limit, None)
  {
  }

  class Memory {
    const f: TextFns
    var rows: seq<Row>

    constructor (f: TextFns)
      ensures this.f == f && rows == []
    {
      this.f := f;
      rows := [];
    }

    method SimilarityReason(text: string, account: string) returns (reason: Option<string>)
      ensures reason == FirstReason(f, Window(rows, account), text)
      ensures IsReason(f, rows, account, text, 150, reason)
    {
      FirstReasonIsReason(f, rows, account, text, 150);
      assert Window(rows, account) == LastOf(VisibleTo(rows, account), 150);
      hide IsReason, LastOf, VisibleTo;
      hide Digest, Signature, Tokenize, Jaccard, Window;
      var textHash := Digest(f, text);
      var sig := Signature(f, text);
      var tokens := Tokenize(f, text);
      var recent := Window(rows, account);
      var n := |recent|;
      assert recent[..n] == recent;
      while n > 0
        invariant 0 <= n <= |recent|
        invariant FirstReason(f, recent[..n], text) == FirstReason(f, recent, text)
      {
        var row := recent[n - 1];
        assert recent[..n][..n - 1] == recent[..n - 1];
        if row.textHash == textHash { return Some("exact hash match: " + row.source); }
        if Signature(f, row.text) == sig { return Some("same opening signature: " + row.source); }
        var score := ComputeJaccard(tokens, Tokenize(f, row.text));
        if score >= SIMILARITY_THRESHOLD { return Some("high keyword overlap: " + row.source); }
        n := n - 1;
      }
      assert recent[..0] == [];
      reason := None;
    }

    method Add(source: string, text: string, account: Option<string>)
      modifies this
      ensures rows == old(rows) + [Remembered(f, source, text, account)]
      ensures rows == old(rows) + [Row(source, f.hash(f.normalize(text)), text, account)]
      ensures forall a :: Visible(rows[|rows| - 1], a) ==> FirstReason(f, Window(rows, a), text).Some?
      ensures forall a :: !Visible(rows[|rows| - 1], a) ==> Window(rows, a) == Window(old(rows), a)
    {
      AddedIsFoundAgain(f, rows, Remembered(f, source, text, account));
      rows := rows + [Remembered(f, source, text, account)];
    }
  }

  /** What was just added is an echo to whoever sees it, and changes nothing for the others. */
  lemma AddedIsFoundAgain(f: TextFns, rows: seq<Row>, r: Row)
    requires r.textHash == Digest(f, r.text)
    ensures forall a :: Visible(r, a) ==> FirstReason(f, Window(rows + [r], a), r.text).Some?
    ensures forall a :: !Visible(r, a) ==> Window(rows + [r], a) == Window(rows, a)
  {
    hide Digest, Signature, Tokenize, Jaccard;
    var all := rows + [r];
    assert all[..|all| - 1] == rows;
    forall a | Visible(r, a)
      ensures FirstReason(f, Window(all, a), r.text).Some?
    {
      var w := Window(all, a);
      assert w != [] && w[|w| - 1] == r;
    }
  }

  /** No reason exactly if nothing in the window is an echo. */
  lemma {:induction false} NoReasonIff(f: TextFns, window: seq<Row>, text: string)
    ensures FirstReason(f, window, text) == None <==> forall r :: r in window ==> !Echoes(f, r, text)
  {
    if window != [] {
      var front, last := window[..|window| - 1], window[|window| - 1];
      NoReasonIff(f, front, text);
      assert forall r :: r in window <==> r in front || r == last;
    }
  }

  // ---------------------------------------------------------------- the two clients

  datatype DraftStatus = Pending | Approved | Rejected

  /** draft.actionId: the row that was inserted, or the key of the row that was there already. */
  datatype ActionRef = Own(post: nat) | Held(key: string)

  datatype Draft = Draft(
    configId: string, ownerId: string, accountId: string, text: string, status: DraftStatus, action: Option<ActionRef>)

  /** A row of post_actions; none is ever deleted. */
  datatype Post = Post(accountId: string, text: string, key: string, draft: Option<nat>)

  /** `ids` are the draft ids given out so far; a deleted draft's id is not given out again. */
  datatype State = State(rows: seq<Row>, posts: seq<Post>, drafts: map<nat, Draft>, ids: set<nat>)

  /** forPost: account, short digest of the text, and the clock hour of the scheduled time. */
  function Key(f: TextFns, account: string, text: string, hour: string): string {
    "post:" + account + ":" + f.sha8(text) + ":" + hour
  }

  function NewPost(f: TextFns, account: string, text: string, hour: string, draft: Option<nat>): Post {
    Post(account, text, Key(f, account, text, hour), draft)
  }

  predicate KeyFree(posts: seq<Post>, key: string) { forall i :: 0 <= i < |posts| ==> posts[i].key != key }

  /** insertIfAbsent. */
  function Enqueued(posts: seq<Post>, p: Post): seq<Post> { if KeyFree(posts, p.key) then posts + [p] else posts }

  /** How far a request gets past its checks: each write may fail and stop it. */
  datatype Luck = EnqueueFails | RecordFails | SaveFails | AllWell

  /** Enqueue, then record, whether or not the enqueue inserted a row. */
  function Posted(f: TextFns, s: State, p: Post, source: string, luck: Luck): State {
    if luck == EnqueueFails then s
    else if luck == RecordFails then s.(posts := Enqueued(s.posts, p))
    else s.(posts := Enqueued(s.posts, p), rows := s.rows + [Remembered(f, source, p.text, Some(p.accountId))])
  }

  function Publish(f: TextFns, s: State, account: string, text: string, hour: string, luck: Luck): State {
    if FirstReason(f, Window(s.rows, account), text).Some? then s
    else Posted(f, s, NewPost(f, account, text, hour, None), "ai-copilot", luck)
  }

  predicate Decidable(s: State, id: nat, userId: string) {
    id in s.drafts && s.drafts[id].ownerId == userId && s.drafts[id].status == Pending
  }

  /** Past every check of approve. */
  predicate Approvable(f: TextFns, s: State, id: nat, userId: string) {
    Decidable(s, id, userId) && FirstReason(f, Window(s.rows, s.drafts[id].accountId), s.drafts[id].text).None?
  }

  function DraftPost(f: TextFns, d: Draft, id: nat, hour: string): Post {
    NewPost(f, d.accountId, d.text, hour, Some(id))
  }

  function ApprovedDraft(d: Draft, posts: seq<Post>, key: string): Draft {
    d.(status := Approved, action := Some(if KeyFree(posts, key) then Own(|posts|) else Held(key)))
  }

  /** `hour` is the clock hour of the scheduled time, which is the request's or the present. */
  function Approve(f: TextFns, s: State, id: nat, userId: string, hour: string, luck: Luck): State {
    if !Approvable(f, s, id, userId) then s else
    var d := s.drafts[id];
    var p := DraftPost(f, d, id, hour);
    var s' := Posted(f, s, p, "agent-draft", luck);
    if luck == AllWell then s'.(drafts := s.drafts[id := ApprovedDraft(d, s.posts, p.key)]) else s'
  }

  function Reject(s: State, id: nat, userId: string): State {
    if Decidable(s, id, userId) then s.(drafts := s.drafts[id := s.drafts[id].(status := Rejected)]) else s
  }

  function Edit(s: State, id: nat, userId: string, text: string): State {
    if Decidable(s, id, userId) then s.(drafts := s.drafts[id := s.drafts[id].(text := text)]) else s
  }

  /** Deleting an account deletes its memory rows. */
  function Without(rows: seq<Row>, account: string): seq<Row> {
    if rows == [] then [] else
    var front := Without(rows[..|rows| - 1], account);
    if rows[|rows| - 1].accountId == Some(account) then front else front + [rows[|rows| - 1]]
  }

  datatype Step =
    | DoPublish(account: string, text: string, hour: string, luck: Luck)
    | DoEnqueue(account: string, text: string, hour: string)   // the REST and MCP tools, which skip the memory
    | DoCreate(id: nat, draft: Draft)
    | DoApprove(id: nat, userId: string, hour: string, luck: Luck)
    | DoReject(id: nat, userId: string)
    | DoEdit(id: nat, userId: string, text: string)
    | DeleteConfig(configId: string)
    | DeleteAccount(account: string)

  function Created(s: State, id: nat, d: Draft): State {
    if id in s.ids then s
    else s.(drafts := s.drafts[id := d.(status := Pending, action := None)], ids := s.ids + {id})
  }

  /** Drafts go with their configuration and with their account (ON DELETE CASCADE). */
  function DraftsWithoutConfig(s: State, configId: string): State {
    s.(drafts := map i | i in s.drafts && s.drafts[i].configId != configId :: s.drafts[i])
  }

  function WithoutAccount(s: State, account: string): State {
    s.(rows := Without(s.rows, account),
       drafts := map i | i in s.drafts && s.drafts[i].accountId != account :: s.drafts[i])
  }

  function Apply(f: TextFns, s: State, step: Step): State {
    match step
    case DoPublish(account, text, hour, luck) => Publish(f, s, account, text, hour, luck)
    case DoEnqueue(account, text, hour) => s.(posts := Enqueued(s.posts, NewPost(f, account, text, hour, None)))
    case DoCreate(id, draft) => Created(s, id, draft)
    case DoApprove(id, userId, hour, luck) => Approve(f, s, id, userId, hour, luck)
    case DoReject(id, userId) => Reject(s, id, userId)
    case DoEdit(id, userId, text) => Edit(s, id, userId, text)
    case DeleteConfig(configId) => DraftsWithoutConfig(s, configId)
    case DeleteAccount(account) => WithoutAccount(s, account)
  }

  const EMPTY := State([], [], map[], {})

  function After(f: TextFns, steps: seq<Step>): State {
    if steps == [] then EMPTY else Apply(f, After(f, steps[..|steps| - 1]), steps[|steps| - 1])
  }

  class Publisher {
    const memory: Memory
    var posts: seq<Post>

    constructor (memory: Memory)
      ensures this.memory == memory && posts == []
    {
      this.memory := memory;
      posts := [];
    }

    /** Whether a row was inserted; a taken key is no error. */
    method Enqueue(p: Post) returns (inserted: bool)
      modifies this
      ensures posts == Enqueued(old(posts), p)
      ensures inserted <==> KeyFree(old(posts), p.key)
      ensures !KeyFree(posts, p.key)
      ensures forall k :: k != p.key ==> (KeyFree(posts, k) <==> KeyFree(old(posts), k))
    {
      inserted := KeyFree(posts, p.key);
      if inserted {
        posts := posts + [p];
        assert posts[|posts| - 1].key == p.key;
        assert forall i :: 0 <= i < |old(posts)| ==> posts[i] == old(posts)[i];
      }
    }

    /** `luck` says which write fails, if any. */
    method PublishText(account: string, text: string, hour: string, luck: Luck) returns (queued: bool)
      modifies this, memory
      ensures var s := Publish(memory.f, State(old(memory.rows), old(posts), map[], {}), account, text, hour, luck);
        memory.rows == s.rows && posts == s.posts
      ensures queued <==>
        FirstReason(memory.f, Window(old(memory.rows), account), text).None? && luck != EnqueueFails && luck != RecordFails
      ensures memory.rows == old(memory.rows) + (
        if queued then [Row("ai-copilot", memory.f.hash(memory.f.normalize(text)), text, Some(account))] else [])
      ensures queued ==>
        posts == old(posts) || posts == old(posts) + [Post(account, text, "post:" + account + ":" + memory.f.sha8(text) + ":" + hour, None)]
    {
      var dedupReason := memory.SimilarityReason(text, account);
      if dedupReason.Some? { return false; }
      if luck == EnqueueFails { return false; }
      var _ := Enqueue(NewPost(memory.f, account, text, hour, None));
      if luck == RecordFails { return false; }
      memory.Add("ai-copilot", text, Some(account));
      queued := true;
    }
  }

  /** The row an approved draft leaves in the memory. */
  function AgentRow(f: TextFns, d: Draft): Row { Row("agent-draft", f.hash(f.normalize(d.text)), d.text, Some(d.accountId)) }

  class Drafts {
    const publisher: Publisher
    var drafts: map<nat, Draft>

    constructor (publisher: Publisher)
      ensures this.publisher == publisher && drafts == map[]
    {
      this.publisher := publisher;
      drafts := map[];
    }

    method ApproveDraft(id: nat, userId: string, hour: string, luck: Luck) returns (approved: bool)
      modifies this, publisher, publisher.memory
      ensures
        var s := Approve(publisher.memory.f, State(old(publisher.memory.rows), old(publisher.posts), old(drafts), {}), id, userId, hour, luck);
        publisher.memory.rows == s.rows && publisher.posts == s.posts && drafts == s.drafts
      ensures approved <==> drafts != old(drafts)
      ensures approved ==> id in old(drafts)
      ensures approved ==>
        publisher.memory.rows == old(publisher.memory.rows) + [AgentRow(publisher.memory.f, old(drafts)[id])]
      ensures approved ==> id in drafts && drafts[id].status == Approved && drafts[id].text == old(drafts)[id].text
    {
      approved := false;
      if id !in drafts || drafts[id].ownerId != userId { return; }
      var d := drafts[id];
      if d.status != Pending { return; }
      var dedupReason := publisher.memory.SimilarityReason(d.text, d.accountId);
      if dedupReason.Some? { return; }
      if luck == EnqueueFails { return; }
      var p := DraftPost(publisher.memory.f, d, id, hour);
      var next := |publisher.posts|;
      var inserted := publisher.Enqueue(p);
      if luck == RecordFails { return; }
      publisher.memory.Add("agent-draft", d.text, Some(d.accountId));
      if luck == SaveFails { return; }
      drafts := drafts[id := d.(status := Approved, action := Some(if inserted then Own(next) else Held(p.key)))];
      assert drafts[id] != old(drafts)[id];
      approved := true;
    }

    method RejectDraft(id: nat, userId: string)
      modifies this
      ensures drafts == Reject(State([], [], old(drafts), {}), id, userId).drafts
      ensures Decidable(State([], [], old(drafts), {}), id, userId) ==>
        drafts[id] == old(drafts)[id].(status := Rejected) && forall u :: !Decidable(State([], [], drafts, {}), id, u)
      ensures !Decidable(State([], [], old(drafts), {}), id, userId) ==> drafts == old(drafts)
      ensures drafts.Keys == old(drafts).Keys && forall i :: i in drafts && i != id ==> drafts[i] == old(drafts)[i]
    {
      if id in drafts && drafts[id].ownerId == userId && drafts[id].status == Pending {
        drafts := drafts[id := drafts[id].(status := Rejected)];
      }
    }

    method EditDraft(id: nat, userId: string, text: string)
      modifies this
      ensures drafts == Edit(State([], [], old(drafts), {}), id, userId, text).drafts
      ensures Decidable(State([], [], old(drafts), {}), id, userId) ==>
        drafts[id] == old(drafts)[id].(text := text) && Decidable(State([], [], drafts, {}), id, userId)
      ensures !Decidable(State([], [], old(drafts), {}), id, userId) ==> drafts == old(drafts)
      ensures drafts.Keys == old(drafts).Keys && forall i :: i in drafts && i != id ==> drafts[i] == old(drafts)[i]
    {
      if id in drafts && drafts[id].ownerId == userId && drafts[id].status == Pending {
        drafts := drafts[id := drafts[id].(text := text)];
      }
    }
  }

  // ---------------------------------------------------------------- recorded texts are no echoes

  predicate Owned(r: Row) { r.accountId.Some? && r.accountId.value != "" }

  /** The row was no echo of what its account then saw. */
  ghost predicate Fits(f: TextFns, front: seq<Row>, r: Row) {
    && r.textHash == Digest(f, r.text)
    && (Owned(r) ==> forall x :: x in Window(front, r.accountId.value) ==> !Echoes(f, x, r.text))
  }

  ghost predicate AllFit(f: TextFns, rows: seq<Row>) {
    rows == [] || (AllFit(f, rows[..|rows| - 1]) && Fits(f, rows[..|rows| - 1], rows[|rows| - 1]))
  }

  lemma AddFits(f: TextFns, rows: seq<Row>, source: string, text: string, account: string)
    requires AllFit(f, rows) && FirstReason(f, Window(rows, account), text).None?
    ensures AllFit(f, rows + [Remembered(f, source, text, Some(account))])
  {
    NoReasonIff(f, Window(rows, account), text);
    assert (rows + [Remembered(f, source, text, Some(account))])[..|rows|] == rows;
  }

  /** An account sees nothing of another account's rows, so it does not miss them. */
  lemma {:induction false} WithoutIsUnseen(rows: seq<Row>, gone: string, account: string)
    requires account != "" && account != gone
    ensures VisibleTo(Without(rows, gone), account) == VisibleTo(rows, account)
  {
    if rows != [] {
      var front, last := rows[..|rows| - 1], rows[|rows| - 1];
      WithoutIsUnseen(front, gone, account);
      if last.accountId != Some(gone) {
        assert (Without(front, gone) + [last])[..|Without(front, gone)|] == Without(front, gone);
      }
    }
  }

  /** Deleting an account takes its rows, and only those. */
  lemma {:induction false} WithoutIs(rows: seq<Row>, gone: string, r: Row)
    ensures r in Without(rows, gone) <==> r in rows && r.accountId != Some(gone)
  {
    if rows != [] {
      var front, last := rows[..|rows| - 1], rows[|rows| - 1];
      WithoutIs(front, gone, r);
      assert r in rows <==> r in front || r == last;
    }
  }

  lemma {:induction false} WithoutFits(f: TextFns, rows: seq<Row>, gone: string)
    requires AllFit(f, rows)
    ensures AllFit(f, Without(rows, gone))
  {
    if rows != [] {
      var front, last := rows[..|rows| - 1], rows[|rows| - 1];
      WithoutFits(f, front, gone);
      if last.accountId != Some(gone) {
        var kept := Without(front, gone);
        assert (kept + [last])[..|kept|] == kept;
        if Owned(last) {
          WithoutIsUnseen(front, gone, last.accountId.value);
        }
      }
    }
  }

  lemma PostedFits(f: TextFns, s: State, p: Post, source: string, luck: Luck)
    requires AllFit(f, s.rows) && FirstReason(f, Window(s.rows, p.accountId), p.text).None?
    ensures AllFit(f, Posted(f, s, p, source, luck).rows)
  {
    hide AllFit, FirstReason, Window, Remembered;
    AddFits(f, s.rows, source, p.text, p.accountId);
  }

  lemma StepFits(f: TextFns, s: State, step: Step)
    requires AllFit(f, s.rows)
    ensures AllFit(f, Apply(f, s, step).rows)
  {
    hide AllFit, FirstReason, Window, Posted, Without, Key;
    match step
    case DoPublish(account, text, hour, luck) =>
      if FirstReason(f, Window(s.rows, account), text).None? {
        PostedFits(f, s, NewPost(f, account, text, hour, None), "ai-copilot", luck);
      }
    case DoApprove(id, userId, hour, luck) =>
      if Approvable(f, s, id, userId) {
        PostedFits(f, s, DraftPost(f, s.drafts[id], id, hour), "agent-draft", luck);
      }
    case DeleteAccount(account) => WithoutFits(f, s.rows, account);
    case _ =>
  }

  lemma {:induction false} RunsFit(f: TextFns, steps: seq<Step>)
    ensures AllFit(f, After(f, steps).rows)
  {
    hide AllFit, Apply;
    if steps != [] {
      RunsFit(f, steps[..|steps| - 1]);
      StepFits(f, After(f, steps[..|steps| - 1]), steps[|steps| - 1]);
    } else {
      NothingFits(f);
    }
  }

  lemma NothingFits(f: TextFns)
    ensures AllFit(f, [])
  {
  }

  lemma {:induction false} VisibleOfConcat(xs: seq<Row>, ys: seq<Row>, account: string)
    ensures VisibleTo(xs + ys, account) == VisibleTo(xs, account) + VisibleTo(ys, account)
  {
    if ys == [] {
      assert xs + ys == xs;
    } else {
      VisibleOfConcat(xs, ys[..|ys| - 1], account);
      assert (xs + ys)[..|xs + ys| - 1] == xs + ys[..|ys| - 1];
    }
  }

  lemma {:induction false} EachRowFits(f: TextFns, rows: seq<Row>, j: nat)
    requires AllFit(f, rows) && j < |rows|
    ensures Fits(f, rows[..j], rows[j])
  {
    if j < |rows| - 1 {
      EachRowFits(f, rows[..|rows| - 1], j);
      assert rows[..|rows| - 1][..j] == rows[..j];
    }
  }

  /** A visible row with fewer than 150 visible rows after it is still in the window. */
  lemma StillInWindow(rows: seq<Row>, i: nat, account: string)
    requires i < |rows| && Visible(rows[i], account) && |VisibleTo(rows[i + 1..], account)| < MAX_RECENT
    ensures rows[i] in Window(rows, account)
  {
    var before, after := rows[..i], rows[i + 1..];
    assert rows == before + [rows[i]] + after;
    VisibleOfConcat(before + [rows[i]], after, account);
    VisibleOfConcat(before, [rows[i]], account);
    assert [rows[i]][..0] == [];
    var all := VisibleTo(rows, account);
    var n := |VisibleTo(before, account)|;
    assert all[n] == rows[i] && |all| - n <= MAX_RECENT;
    assert |all| > MAX_RECENT ==> Recent(all)[n - (|all| - MAX_RECENT)] == rows[i];
  }

  ghost predicate IsMemoryOf(f: TextFns, steps: seq<Step>, rows: seq<Row>) { rows == After(f, steps).rows }

  /** Row i is visible to the owner of the later row j, with fewer than 150 such rows between. */
  ghost predicate CloseBy(rows: seq<Row>, i: nat, j: nat) {
    && i < j < |rows| && Owned(rows[j]) && Visible(rows[i], rows[j].accountId.value)
    && |VisibleTo(rows[i + 1..j], rows[j].accountId.value)| < 150
  }

  /**
   * In every serial run of publishes, approvals, edits, rejections and account deletions: a remembered text
   * and any older row its account sees, with fewer than 150 such rows between, differ in hash, in signature, and by more
   * than the similarity threshold allows.
   */
  lemma RememberedTextsDiffer(f: TextFns, steps: seq<Step>, rows: seq<Row>, i: nat, j: nat)
    requires IsMemoryOf(f, steps, rows) && CloseBy(rows, i, j)
    ensures rows[i].textHash != rows[j].textHash
    ensures Signature(f, rows[i].text) != Signature(f, rows[j].text)
    ensures Jaccard(Tokenize(f, rows[i].text), Tokenize(f, rows[j].text)) < 0.72
    ensures !SameOpening(f, rows[i].text, rows[j].text) && !SharesWords(f, rows[j].text, rows[i].text)
  {
    SignatureIsOpening(f, rows[i].text, rows[j].text);
    OverlapIsSharing(f, rows[j].text, rows[i].text);
    hide SameOpening, SharesWords;
    RunsFit(f, steps);
    hide After;
    EachRowFits(f, rows, j);
    assert rows[..j][i + 1..] == rows[i + 1..j];
    StillInWindow(rows[..j], i, rows[j].accountId.value);
    assert !Echoes(f, rows[i], rows[j].text);
    JaccardIsASimilarity(Tokenize(f, rows[i].text), Tokenize(f, rows[j].text));
  }

  // ---------------------------------------------------------------- drafts and posts

  /** Approving draft d at s failed only at its last save, which leaves `once`. */
  predicate SaveLost(f: TextFns, s: State, id: nat, userId: string, hour: string, d: Draft, once: State) {
    && Approvable(f, s, id, userId) && d == s.drafts[id]
    && once == Approve(f, s, id, userId, hour, SaveFails)
  }

  /** A draft whose approval went wrong only at the last save is not posted again while its text is recent. */
  lemma LostSaveIsNotPostedTwice(
      f: TextFns, s: State, d: Draft, once: State, id: nat, userId: string, hour: string, later: string, luck: Luck)
    requires SaveLost(f, s, id, userId, hour, d, once)
    ensures once.posts == Enqueued(s.posts, DraftPost(f, d, id, hour))
    ensures Decidable(once, id, userId) && Approve(f, once, id, userId, later, luck) == once
  {
    hide Signature, Tokenize, Jaccard, Key, Enqueued;
    var r := Remembered(f, "agent-draft", d.text, Some(d.accountId));
    var last := |s.rows|;
    assert once.rows == s.rows + [r] && once.rows[last + 1..] == [];
    StillInWindow(once.rows, last, d.accountId);
    NoReasonIff(f, Window(once.rows, d.accountId), d.text);
    assert Echoes(f, r, d.text);
  }

  /** A step that neither edits draft `id` nor deletes a row its account sees. */
  predicate SparesMemory(step: Step, id: nat, account: string) {
    && !(step.DoEdit? && step.id == id)
    && (step.DeleteAccount? ==> account != "" && step.account != account)
  }

  /** The account still sees `seen` first, and the draft, if it is still there, says `text`. */
  ghost predicate StillSays(e: State, seen: seq<Row>, id: nat, account: string, text: string) {
    && seen <= VisibleTo(e.rows, account)
    && id in e.ids && (id in e.drafts ==> e.drafts[id].accountId == account && e.drafts[id].text == text)
  }

  lemma VisibleSnoc(rows: seq<Row>, r: Row, account: string)
    ensures VisibleTo(rows + [r], account) == VisibleTo(rows, account) + (if Visible(r, account) then [r] else [])
  {
    assert (rows + [r])[..|rows + [r]| - 1] == rows;
  }

  lemma PostedShowsMore(f: TextFns, s: State, p: Post, source: string, luck: Luck, account: string)
    ensures VisibleTo(s.rows, account) <= VisibleTo(Posted(f, s, p, source, luck).rows, account)
  {
    hide VisibleTo, Visible, Remembered, Enqueued;
    VisibleSnoc(s.rows, Remembered(f, source, p.text, Some(p.accountId)), account);
  }

  /** Posting touches memory and posts only. */
  lemma PostedKeepsDrafts(f: TextFns, s: State, p: Post, source: string, luck: Luck)
    ensures var s' := Posted(f, s, p, source, luck);
      && s'.drafts == s.drafts && s'.ids == s.ids
      && s'.posts == if luck == EnqueueFails then s.posts else Enqueued(s.posts, p)
  {
    hide Enqueued;
  }

  lemma StepStillSays(f: TextFns, e: State, step: Step, seen: seq<Row>, id: nat, account: string, text: string)
    requires StillSays(e, seen, id, account, text) && SparesMemory(step, id, account)
    ensures StillSays(Apply(f, e, step), seen, id, account, text)
  {
    hide VisibleTo, FirstReason, Window, Posted, Without, Enqueued, Key;
    match step
    case DoPublish(a, t, hour, luck) =>
      PostedShowsMore(f, e, NewPost(f, a, t, hour, None), "ai-copilot", luck, account);
      PostedKeepsDrafts(f, e, NewPost(f, a, t, hour, None), "ai-copilot", luck);
    case DoApprove(i, userId, hour, luck) =>
      if Approvable(f, e, i, userId) {
        var p := DraftPost(f, e.drafts[i], i, hour);
        PostedShowsMore(f, e, p, "agent-draft", luck, account);
        PostedKeepsDrafts(f, e, p, "agent-draft", luck);
      }
    case DeleteAccount(gone) => WithoutIsUnseen(e.rows, gone, account);
    case _ =>
  }

  /** A run from any state. */
  function RunFrom(f: TextFns, s: State, steps: seq<Step>): State {
    if steps == [] then s else Apply(f, RunFrom(f, s, steps[..|steps| - 1]), steps[|steps| - 1])
  }

  lemma AfterOneMore(f: TextFns, first: seq<Step>, more: seq<Step>)
    requires more != []
    ensures After(f, first + more) == Apply(f, After(f, first + more[..|more| - 1]), more[|more| - 1])
  {
    hide Apply;
    assert (first + more)[..|first + more| - 1] == first + more[..|more| - 1];
  }

  lemma {:induction false} RunFromGoesOn(f: TextFns, first: seq<Step>, more: seq<Step>)
    ensures RunFrom(f, After(f, first), more) == After(f, first + more)
  {
    hide Apply, After;
    if more == [] {
      assert first + more == first;
    } else {
      RunFromGoesOn(f, first, more[..|more| - 1]);
      AfterOneMore(f, first, more);
    }
  }

  lemma {:induction false} RunStillSays(f: TextFns, s: State, more: seq<Step>, seen: seq<Row>, id: nat, account: string, text: string)
    requires StillSays(s, seen, id, account, text)
    requires forall n :: 0 <= n < |more| ==> SparesMemory(more[n], id, account)
    ensures StillSays(RunFrom(f, s, more), seen, id, account, text)
  {
    hide Apply, StillSays, SparesMemory;
    if more != [] {
      RunStillSays(f, s, more[..|more| - 1], seen, id, account, text);
      StepStillSays(f, RunFrom(f, s, more[..|more| - 1]), more[|more| - 1], seen, id, account, text);
    }
  }

  /** A row that ends `seen` is in the window while fewer than 150 rows have come after it. */
  lemma LastSeenInWindow(rows: seq<Row>, seen: seq<Row>, account: string)
    requires seen != [] && seen <= VisibleTo(rows, account) && |VisibleTo(rows, account)| - |seen| < MAX_RECENT
    ensures seen[|seen| - 1] in Window(rows, account)
  {
    var all := VisibleTo(rows, account);
    var n := |seen| - 1;
    assert all[n] == seen[n];
    if |all| > MAX_RECENT {
      assert Recent(all)[n - (|all| - MAX_RECENT)] == all[n];
    }
  }

  /** The run from `once` to e spares the draft and the account's rows, and fewer than 150 such rows are added. */
  ghost predicate LeadsTo(f: TextFns, once: State, more: seq<Step>, e: State, id: nat, account: string) {
    && e == RunFrom(f, once, more)
    && (forall n :: 0 <= n < |more| ==> SparesMemory(more[n], id, account))
    && |VisibleTo(e.rows, account)| < |VisibleTo(once.rows, account)| + 150
  }

  /**
   * After an approval that failed only at its last save, over any run that leaves the draft's text and the
   * account's rows alone: approving the draft again does nothing, at any hour, while fewer than 150 further
   * rows of the account have been remembered.
   */
  lemma LostSaveHoldsBack(
      f: TextFns, s: State, d: Draft, once: State, more: seq<Step>, e: State,
      id: nat, userId: string, hour: string, again: string, later: string, luck: Luck)
    requires SaveLost(f, s, id, userId, hour, d, once) && id in s.ids && LeadsTo(f, once, more, e, id, d.accountId)
    ensures Approve(f, e, id, again, later, luck) == e
  {
    hide RunFrom, Approve, VisibleTo, StillSays, FirstReason, Window, SparesMemory;
    LostSaveShows(f, s, id, userId, hour);
    RunStillSays(f, once, more, VisibleTo(once.rows, d.accountId), id, d.accountId, d.text);
    SeenAgainIsRefused(f, e, VisibleTo(once.rows, d.accountId), id, d.accountId, d.text, again, later, luck);
  }

  lemma LostSaveShows(f: TextFns, s: State, id: nat, userId: string, hour: string)
    requires Approvable(f, s, id, userId) && id in s.ids
    ensures var d := s.drafts[id]; var once := Approve(f, s, id, userId, hour, SaveFails);
      var seen := VisibleTo(once.rows, d.accountId);
      && StillSays(once, seen, id, d.accountId, d.text)
      && |seen| == |VisibleTo(s.rows, d.accountId)| + 1
      && seen[|seen| - 1] == Remembered(f, "agent-draft", d.text, Some(d.accountId))
  {
    hide FirstReason, Window, Remembered, Digest, Key, Enqueued;
    var d := s.drafts[id];
    var r := Remembered(f, "agent-draft", d.text, Some(d.accountId));
    assert Visible(r, d.accountId) by { RememberedIsVisible(f, d); }
    VisibleSnoc(s.rows, r, d.accountId);
  }

  lemma RememberedIsVisible(f: TextFns, d: Draft)
    ensures Visible(Remembered(f, "agent-draft", d.text, Some(d.accountId)), d.accountId)
  {
  }

  lemma SeenAgainIsRefused(
      f: TextFns, e: State, seen: seq<Row>, id: nat, account: string, text: string, again: string, later: string, luck: Luck)
    requires StillSays(e, seen, id, account, text) && |VisibleTo(e.rows, account)| < |seen| + MAX_RECENT
    requires seen != [] && seen[|seen| - 1] == Remembered(f, "agent-draft", text, Some(account))
    ensures Approve(f, e, id, again, later, luck) == e
  {
    hide VisibleTo, Signature, Tokenize, Jaccard, Posted, Key;
    LastSeenInWindow(e.rows, seen, account);
    NoReasonIff(f, Window(e.rows, account), text);
    assert Echoes(f, seen[|seen| - 1], text);
  }
}
