/**
 * The settings cache under interleaving (settings/settings.service.ts): a get that misses awaits one database
 * read or two, a set awaits its write before it drops the cache entry, and the clock moves in between.
 */
module SettingsRuns {
  import opened Options
  import opened Settings

  // ---------------------------------------------------------------- the step system

  /** The clock and the database as they stood at one instant. */
  datatype Moment = Moment(at: int, db: Db)

  /** The moments of the first and the last read behind a value; one read alone is both. */
  datatype Span = Span(first: nat, last: nat)

  /** A get that missed: before its first read, before its second, or back with what it read. */
  datatype Phase = AskAccount | AskGlobal(absentAt: Option<nat>) | Read(span: Span, found: Option<Value>)

  /** `began` is the moment of the cache lookup. */
  datatype Get = Get(key: string, account: string, fallback: Value, startedAt: int, began: nat, phase: Phase)

  datatype Kept = Kept(entry: Cached, span: Span)

  /** `hit` tells an answer from the cache; its reads are then those of the get that filled the entry. */
  datatype Answer = Answer(
    key: string, account: string, fallback: Value, value: Value,
    startedAt: int, began: nat, answered: nat, span: Span, hit: bool)

  datatype State = State(
    db: Db, cache: map<string, Kept>, gets: map<nat, Get>, sets: map<nat, (string, string)>,
    now: int, past: seq<Moment>, answers: seq<Answer>)

  ghost predicate Init(s: State) {
    && s.cache == map[] && s.gets == map[] && s.sets == map[] && s.answers == []
    && s.past == [Moment(s.now, s.db)]
  }

  datatype Step =
    | Begin(g: nat, key: string, account: string, fallback: Value)
    | ReadAccount(g: nat)
    | ReadGlobal(g: nat)
    | Finish(g: nat)
    | Upsert(w: nat, key: string, account: string, value: Value)
    | Invalidate(w: nat)
    | ClearCache
    | Tick(to: int)

  ghost predicate Enabled(s: State, step: Step) {
    match step
    case Begin(g, key, _, _) => g !in s.gets && ColonFree(key)
    case ReadAccount(g) => g in s.gets && s.gets[g].phase.AskAccount?
    case ReadGlobal(g) => g in s.gets && s.gets[g].phase.AskGlobal?
    case Finish(g) => g in s.gets && s.gets[g].phase.Read?
    case Upsert(w, key, _, _) => w !in s.sets && ColonFree(key)
    case Invalidate(w) => w in s.sets
    case ClearCache => true
    case Tick(to) => s.now <= to
  }

  function Present(s: State): nat { if s.past == [] then 0 else |s.past| - 1 }

  predicate Hit(s: State, key: string, account: string) {
    var ck := CacheKey(key, account);
    ck in s.cache && s.now - s.cache[ck].entry.cachedAt < CACHE_TTL_MS
  }

  function DoBegin(s: State, g: nat, key: string, account: string, fallback: Value): State {
    if Hit(s, key, account) then
      var e := s.cache[CacheKey(key, account)];
      s.(answers := s.answers + [Answer(key, account, fallback, e.entry.value, s.now, Present(s), Present(s), e.span, true)])
    else
      s.(gets := s.gets[g := Get(key, account, fallback, s.now, Present(s),
                                 if account != "" then AskAccount else AskGlobal(None))])
  }

  function DoReadAccount(c: Codec, s: State, g: nat): State
    requires g in s.gets
  {
    var t := s.gets[g];
    var row := RowOf(c, s.db, t.key, t.account);
    var now := Present(s);
    s.(gets := s.gets[g := t.(phase := if row.Some? then Read(Span(now, now), row) else AskGlobal(Some(now)))])
  }

  function DoReadGlobal(c: Codec, s: State, g: nat): State
    requires g in s.gets && s.gets[g].phase.AskGlobal?
  {
    var t := s.gets[g];
    var first := if t.phase.absentAt.Some? then t.phase.absentAt.value else Present(s);
    s.(gets := s.gets[g := t.(phase := Read(Span(first, Present(s)), RowOf(c, s.db, t.key, "")))])
  }

  /** Only a value found in the database is cached, under the time the get began. */
  function DoFinish(s: State, g: nat): State
    requires g in s.gets && s.gets[g].phase.Read?
  {
    var t := s.gets[g];
    var (found, span) := (t.phase.found, t.phase.span);
    s.(gets := s.gets - {g},
       cache := if found.Some? then s.cache[CacheKey(t.key, t.account) := Kept(Cached(found.value, t.startedAt), span)]
                else s.cache,
       answers := s.answers + [AnswerOf(t, Present(s))])
  }

  function AnswerOf(t: Get, answered: nat): Answer
    requires t.phase.Read?
  {
    Answer(t.key, t.account, t.fallback, OrDefault(t.phase.found, t.key, t.fallback),
           t.startedAt, t.began, answered, t.phase.span, false)
  }

  function DoUpsert(c: Codec, s: State, w: nat, key: string, account: string, value: Value): State {
    var db := s.db[(key, account) := Encode(c, value)];
    s.(db := db, sets := s.sets[w := (key, account)], past := s.past + [Moment(s.now, db)])
  }

  /** invalidateCache: an empty key clears everything. */
  function DoInvalidate(s: State, w: nat): State
    requires w in s.sets
  {
    var (key, account) := s.sets[w];
    s.(sets := s.sets - {w}, cache := if key == "" then map[] else s.cache - {CacheKey(key, account)})
  }

  ghost function Apply(c: Codec, s: State, step: Step): State
    requires Enabled(s, step)
  {
    match step
    case Begin(g, key, account, fallback) => DoBegin(s, g, key, account, fallback)
    case ReadAccount(g) => DoReadAccount(c, s, g)
    case ReadGlobal(g) => DoReadGlobal(c, s, g)
    case Finish(g) => DoFinish(s, g)
    case Upsert(w, key, account, value) => DoUpsert(c, s, w, key, account, value)
    case Invalidate(w) => DoInvalidate(s, w)
    case ClearCache => s.(cache := map[])
    case Tick(to) => s.(now := to, past := s.past + [Moment(to, s.db)])
  }

  ghost predicate IsRun(c: Codec, s: State, steps: seq<Step>)
    decreases |steps|
  {
    steps == [] || (Enabled(s, steps[0]) && IsRun(c, Apply(c, s, steps[0]), steps[1..]))
  }

  ghost function After(c: Codec, s: State, steps: seq<Step>): State
    requires IsRun(c, s, steps)
    decreases |steps|
  {
    if steps == [] then s else After(c, Apply(c, s, steps[0]), steps[1..])
  }

  // ---------------------------------------------------------------- what a value rests on

  predicate Holds(past: seq<Moment>, m: nat, key: string, account: string) {
    m < |past| && account != "" && (key, account) in past[m].db
  }

  /** What the two reads together found: the account's row if it was there, else the global row as last read. */
  function FoundBy(c: Codec, past: seq<Moment>, key: string, account: string, r: Span): Option<Value>
    requires r.first <= r.last < |past|
  {
    if Holds(past, r.first, key, account) then RowOf(c, past[r.first].db, key, account)
    else RowOf(c, past[r.last].db, key, "")
  }

  /** A second read is made only after the account's row was missed. */
  predicate ReadAs(c: Codec, past: seq<Moment>, key: string, account: string, r: Span, found: Option<Value>) {
    && r.first <= r.last < |past| && found == FoundBy(c, past, key, account, r)
    && (account == "" || Holds(past, r.first, key, account) ==> r.first == r.last)
  }

  /** The last moment is the present, the clock never ran back, and no row was ever deleted. */
  ghost predicate PastOk(s: State) {
    && |s.past| > 0 && s.past[|s.past| - 1] == Moment(s.now, s.db)
    && Forward(s.past)
  }

  ghost predicate Forward(past: seq<Moment>) {
    forall m, n :: 0 <= m <= n < |past| ==> past[m].at <= past[n].at && past[m].db.Keys <= past[n].db.Keys
  }

  ghost predicate GetOk(c: Codec, past: seq<Moment>, t: Get) {
    && ColonFree(t.key) && t.began < |past| && past[t.began].at == t.startedAt
    && match t.phase
       case AskAccount => t.account != ""
       case AskGlobal(None) => t.account == ""
       case AskGlobal(Some(m)) => t.account != "" && t.began <= m < |past| && !Holds(past, m, t.key, t.account)
       case Read(span, found) => ReadAs(c, past, t.key, t.account, span, found) && t.began <= span.first
  }

  ghost predicate GetsOk(c: Codec, s: State) {
    forall g :: g in s.gets ==> GetOk(c, s.past, s.gets[g])
  }

  ghost predicate EntryFor(c: Codec, past: seq<Moment>, key: string, account: string, e: Kept) {
    && ReadAs(c, past, key, account, e.span, Some(e.entry.value)) && past[e.span.first].at >= e.entry.cachedAt
  }

  ghost predicate EntryOk(c: Codec, past: seq<Moment>, ck: string, e: Kept) {
    forall key, account :: ColonFree(key) && CacheKey(key, account) == ck ==> EntryFor(c, past, key, account, e)
  }

  ghost predicate CacheOk(c: Codec, s: State) {
    forall ck :: ck in s.cache ==> EntryOk(c, s.past, ck, s.cache[ck])
  }

  /**
   * The answer is what its reads found, or the default; they were made within the minute before the get began,
   * or during it, and before it answered.
   */
  predicate AnswerOk(c: Codec, past: seq<Moment>, a: Answer) {
    && a.span.first <= a.span.last <= a.answered < |past| && a.began <= a.answered
    && past[a.began].at == a.startedAt && past[a.span.first].at > a.startedAt - 60000
    && (if a.hit then a.span.last <= a.began == a.answered else a.began <= a.span.first)
    && ReadAs(c, past, a.key, a.account, a.span, FoundBy(c, past, a.key, a.account, a.span))
    && a.value == OrDefault(FoundBy(c, past, a.key, a.account, a.span), a.key, a.fallback)
  }

  ghost predicate AnswersOk(c: Codec, s: State) {
    forall n :: 0 <= n < |s.answers| ==> AnswerOk(c, s.past, s.answers[n])
  }

  ghost predicate Inv(c: Codec, s: State) {
    PastOk(s) && GetsOk(c, s) && CacheOk(c, s) && AnswersOk(c, s)
  }

  lemma ReadAsGrows(c: Codec, past: seq<Moment>, m: Moment, key: string, account: string, r: Span, found: Option<Value>)
    requires ReadAs(c, past, key, account, r, found)
    ensures ReadAs(c, past + [m], key, account, r, found)
  {
  }

  lemma GetGrows(c: Codec, past: seq<Moment>, m: Moment, t: Get)
    requires GetOk(c, past, t)
    ensures GetOk(c, past + [m], t)
  {
    hide ReadAs;
    if t.phase.Read? {
      ReadAsGrows(c, past, m, t.key, t.account, t.phase.span, t.phase.found);
    }
  }

  lemma EntryGrows(c: Codec, past: seq<Moment>, m: Moment, ck: string, e: Kept)
    requires EntryOk(c, past, ck, e)
    ensures EntryOk(c, past + [m], ck, e)
  {
    hide CacheKey, FoundBy;
    forall key, account | ColonFree(key) && CacheKey(key, account) == ck
      ensures EntryFor(c, past + [m], key, account, e)
    {
      assert EntryFor(c, past, key, account, e);
      ReadAsGrows(c, past, m, key, account, e.span, Some(e.entry.value));
    }
  }

  lemma AnswerGrows(c: Codec, past: seq<Moment>, m: Moment, a: Answer)
    requires AnswerOk(c, past, a)
    ensures AnswerOk(c, past + [m], a)
  {
    ReadAsGrows(c, past, m, a.key, a.account, a.span, FoundBy(c, past, a.key, a.account, a.span));
  }

  /** A moment more changes nothing that was read. */
  lemma MomentKeeps(c: Codec, s: State, s': State, m: Moment)
    requires Inv(c, s) && s'.past == s.past + [m] && m == Moment(s'.now, s'.db)
    requires s.now <= s'.now && s.db.Keys <= s'.db.Keys
    requires s'.gets == s.gets && s'.cache == s.cache && s'.answers == s.answers
    ensures Inv(c, s')
  {
    hide GetOk, EntryOk, AnswerOk;
    forall g | g in s'.gets
      ensures GetOk(c, s'.past, s'.gets[g])
    {
      GetGrows(c, s.past, m, s.gets[g]);
    }
    forall ck | ck in s'.cache
      ensures EntryOk(c, s'.past, ck, s'.cache[ck])
    {
      EntryGrows(c, s.past, m, ck, s.cache[ck]);
    }
    forall n | 0 <= n < |s'.answers|
      ensures AnswerOk(c, s'.past, s'.answers[n])
    {
      AnswerGrows(c, s.past, m, s.answers[n]);
    }
    assert forall k :: 0 <= k < |s.past| ==> s.past[k].at <= s.past[|s.past| - 1].at && s.past[k].db.Keys <= s.db.Keys;
  }

  lemma HitIsOk(c: Codec, s: State, key: string, account: string, fallback: Value)
    requires PastOk(s) && CacheOk(c, s) && ColonFree(key) && Hit(s, key, account)
    ensures AnswerOk(c, s.past, DoBegin(s, 0, key, account, fallback).answers[|s.answers|])
  {
    hide CacheKey;
    var e := s.cache[CacheKey(key, account)];
    assert EntryOk(c, s.past, CacheKey(key, account), e);
    assert EntryFor(c, s.past, key, account, e);
  }

  lemma BeginKeeps(c: Codec, s: State, g: nat, key: string, account: string, fallback: Value)
    requires Inv(c, s) && g !in s.gets && ColonFree(key)
    ensures Inv(c, DoBegin(s, g, key, account, fallback))
  {
    hide AnswerOk, EntryOk, CacheKey;
    if Hit(s, key, account) {
      HitIsOk(c, s, key, account, fallback);
    }
  }

  /** A step that changes one get in flight, and nothing that was kept or answered. */
  lemma OneGetKeeps(c: Codec, s: State, s': State, g: nat)
    requires Inv(c, s) && s' == s.(gets := s'.gets)
    requires forall h :: h in s'.gets && h != g ==> h in s.gets && s'.gets[h] == s.gets[h]
    requires g in s'.gets ==> GetOk(c, s'.past, s'.gets[g])
    ensures Inv(c, s')
  {
    hide GetOk, EntryOk, AnswerOk, Forward;
  }

  lemma ReadAccountKeeps(c: Codec, s: State, g: nat)
    requires Inv(c, s) && g in s.gets && s.gets[g].phase.AskAccount?
    ensures Inv(c, DoReadAccount(c, s, g))
  {
    hide CacheOk, AnswersOk, Forward;
    assert GetOk(c, s.past, s.gets[g]);
    OneGetKeeps(c, s, DoReadAccount(c, s, g), g);
  }

  lemma ReadGlobalKeeps(c: Codec, s: State, g: nat)
    requires Inv(c, s) && g in s.gets && s.gets[g].phase.AskGlobal?
    ensures Inv(c, DoReadGlobal(c, s, g))
  {
    hide CacheOk, AnswersOk, Forward;
    assert GetOk(c, s.past, s.gets[g]);
    OneGetKeeps(c, s, DoReadGlobal(c, s, g), g);
  }

  lemma MissIsOk(c: Codec, s: State, t: Get)
    requires PastOk(s) && GetOk(c, s.past, t) && t.phase.Read?
    ensures AnswerOk(c, s.past, AnswerOf(t, Present(s)))
  {
    assert s.past[t.began].at <= s.past[t.phase.span.first].at;
  }

  lemma KeptIsOk(c: Codec, s: State, t: Get)
    requires PastOk(s) && GetOk(c, s.past, t) && t.phase.Read? && t.phase.found.Some?
    ensures EntryOk(c, s.past, CacheKey(t.key, t.account), Kept(Cached(t.phase.found.value, t.startedAt), t.phase.span))
  {
    var e := Kept(Cached(t.phase.found.value, t.startedAt), t.phase.span);
    assert s.past[t.began].at <= s.past[t.phase.span.first].at;
    forall key, account | ColonFree(key) && CacheKey(key, account) == CacheKey(t.key, t.account)
      ensures EntryFor(c, s.past, key, account, e)
    {
      CacheKeyInjective(key, account, t.key, t.account);
    }
  }

  lemma FinishKeeps(c: Codec, s: State, g: nat)
    requires Inv(c, s) && g in s.gets && s.gets[g].phase.Read?
    ensures Inv(c, DoFinish(s, g))
  {
    hide GetOk, EntryOk, AnswerOk, Forward, CacheKey;
    var t := s.gets[g];
    MissIsOk(c, s, t);
    if t.phase.found.Some? {
      KeptIsOk(c, s, t);
    }
  }

  lemma ForgetKeeps(c: Codec, s: State, s': State)
    requires Inv(c, s) && s'.past == s.past && s'.now == s.now && s'.db == s.db
    requires s'.gets == s.gets && s'.answers == s.answers
    requires forall ck :: ck in s'.cache ==> ck in s.cache && s'.cache[ck] == s.cache[ck]
    ensures Inv(c, s')
  {
    hide GetOk, EntryOk, AnswerOk, Forward;
  }

  lemma StepKeeps(c: Codec, s: State, step: Step)
    requires Inv(c, s) && Enabled(s, step)
    ensures Inv(c, Apply(c, s, step))
  {
    hide PastOk, GetsOk, CacheOk, AnswersOk, DoBegin, DoReadAccount, DoReadGlobal, DoFinish;
    var s' := Apply(c, s, step);
    match step
    case Begin(g, key, account, fallback) => BeginKeeps(c, s, g, key, account, fallback);
    case ReadAccount(g) => ReadAccountKeeps(c, s, g);
    case ReadGlobal(g) => ReadGlobalKeeps(c, s, g);
    case Finish(g) => FinishKeeps(c, s, g);
    case Upsert(_, _, _, _) => MomentKeeps(c, s, s', Moment(s'.now, s'.db));
    case Invalidate(_) => ForgetKeeps(c, s, s');
    case ClearCache => ForgetKeeps(c, s, s');
    case Tick(_) => MomentKeeps(c, s, s', Moment(s'.now, s'.db));
  }

  lemma {:induction false} RunKeeps(c: Codec, s: State, steps: seq<Step>)
    requires Inv(c, s) && IsRun(c, s, steps)
    ensures Inv(c, After(c, s, steps))
    decreases |steps|
  {
    hide Inv, Apply, Enabled;
    if steps != [] {
      StepKeeps(c, s, steps[0]);
      RunKeeps(c, Apply(c, s, steps[0]), steps[1..]);
    }
  }

  lemma ReachableInv(c: Codec, start: State, steps: seq<Step>)
    requires Init(start) && IsRun(c, start, steps)
    ensures Inv(c, After(c, start, steps))
  {
    hide Apply, Enabled, IsRun, After;
    RunKeeps(c, start, steps);
  }

  // ---------------------------------------------------------------- bounded staleness

  /** The whole value, default included, was what the lookup gave at moment m. */
  predicate ResolvedAt(c: Codec, past: seq<Moment>, m: nat, a: Answer) {
    m < |past| && Resolved(c, past[m].db, a.key, a.account, a.fallback) == a.value
  }

  ghost predicate ResolvedDuring(c: Codec, past: seq<Moment>, a: Answer) {
    exists m: nat :: a.span.first <= m <= a.span.last && ResolvedAt(c, past, m, a)
  }

  function GlobalAt(c: Codec, past: seq<Moment>, m: nat, a: Answer): Value
    requires m < |past|
  {
    OrDefault(RowOf(c, past[m].db, a.key, ""), a.key, a.fallback)
  }

  function OwnAt(c: Codec, past: seq<Moment>, m: nat, a: Answer): Value
    requires m < |past|
  {
    OrDefault(RowOf(c, past[m].db, a.key, a.account), a.key, a.fallback)
  }

  /**
   * Between the two reads the account's first row was written, at moment `first`; until then the global level
   * had not reached the value answered, and from then on the account's row never had it.
   */
  predicate StraddlesAt(c: Codec, past: seq<Moment>, a: Answer, first: nat) {
    && a.account != "" && a.span.first < first <= a.span.last < |past|
    && !Holds(past, first - 1, a.key, a.account) && Holds(past, first, a.key, a.account)
    && GlobalAt(c, past, a.span.last, a) == a.value
    && (forall m :: a.span.first <= m < first ==> GlobalAt(c, past, m, a) != a.value)
    && (forall m :: first <= m <= a.span.last ==> OwnAt(c, past, m, a) != a.value)
  }

  ghost predicate Straddles(c: Codec, past: seq<Moment>, a: Answer) {
    exists first: nat :: StraddlesAt(c, past, a, first)
  }

  /** Between a moment without the account's row and a later one with it, some moment is the first with it. */
  lemma {:induction false} FirstRowIn(past: seq<Moment>, key: string, account: string, i: nat, j: nat) returns (first: nat)
    requires i < j < |past| && !Holds(past, i, key, account) && Holds(past, j, key, account)
    ensures i < first <= j && !Holds(past, first - 1, key, account) && Holds(past, first, key, account)
    decreases j - i
  {
    if Holds(past, i + 1, key, account) {
      first := i + 1;
    } else {
      first := FirstRowIn(past, key, account, i + 1, j);
    }
  }

  lemma HoldsOn(past: seq<Moment>, m: nat, n: nat, key: string, account: string)
    requires Forward(past) && m <= n < |past| && Holds(past, m, key, account)
    ensures Holds(past, n, key, account)
  {
    assert past[m].db.Keys <= past[n].db.Keys;
  }

  lemma AbsentBefore(past: seq<Moment>, m: nat, n: nat, key: string, account: string)
    requires Forward(past) && m <= n < |past| && !Holds(past, n, key, account)
    ensures !Holds(past, m, key, account)
  {
    assert past[m].db.Keys <= past[n].db.Keys;
  }

  lemma ResolvedIsOwnOrGlobal(c: Codec, past: seq<Moment>, m: nat, a: Answer)
    requires m < |past|
    ensures ResolvedAt(c, past, m, a) <==>
      (if Holds(past, m, a.key, a.account) then OwnAt(c, past, m, a) == a.value else GlobalAt(c, past, m, a) == a.value)
  {
  }

  lemma StraddlersAreUnresolved(c: Codec, past: seq<Moment>, a: Answer, first: nat)
    requires Forward(past) && StraddlesAt(c, past, a, first)
    ensures !ResolvedDuring(c, past, a)
  {
    hide OwnAt, GlobalAt, Forward, ResolvedAt, Holds;
    forall m: nat | a.span.first <= m <= a.span.last
      ensures !ResolvedAt(c, past, m, a)
    {
      ResolvedIsOwnOrGlobal(c, past, m, a);
      if m < first {
        AbsentBefore(past, m, first - 1, a.key, a.account);
      } else {
        HoldsOn(past, first, m, a.key, a.account);
      }
    }
  }

  /** If the last read saw the account level as the first did, the answer was the resolved value. */
  lemma UnresolvedIsSplit(c: Codec, past: seq<Moment>, a: Answer)
    requires AnswerOk(c, past, a) && !ResolvedDuring(c, past, a)
    ensures a.account != "" && a.span.first < a.span.last && GlobalAt(c, past, a.span.last, a) == a.value
    ensures !Holds(past, a.span.first, a.key, a.account) && Holds(past, a.span.last, a.key, a.account)
  {
    assert !ResolvedAt(c, past, a.span.first, a) && !ResolvedAt(c, past, a.span.last, a);
  }

  lemma UnresolvedStraddles(c: Codec, past: seq<Moment>, a: Answer)
    requires Forward(past) && AnswerOk(c, past, a) && !ResolvedDuring(c, past, a)
    ensures Straddles(c, past, a)
  {
    UnresolvedIsSplit(c, past, a);
    hide OwnAt, GlobalAt, Forward, Holds, AnswerOk;
    var first := FirstRowIn(past, a.key, a.account, a.span.first, a.span.last);
    assert a.span.last < |past| by { BoundsOfAnswer(c, past, a); }
    forall m: nat | a.span.first <= m <= a.span.last
      ensures m < first ==> GlobalAt(c, past, m, a) != a.value
      ensures m >= first ==> OwnAt(c, past, m, a) != a.value
    {
      assert !ResolvedAt(c, past, m, a);
      ResolvedIsOwnOrGlobal(c, past, m, a);
      if m < first {
        AbsentBefore(past, m, first - 1, a.key, a.account);
      } else {
        HoldsOn(past, first, m, a.key, a.account);
      }
    }
    assert StraddlesAt(c, past, a, first);
  }

  lemma BoundsOfAnswer(c: Codec, past: seq<Moment>, a: Answer)
    requires AnswerOk(c, past, a)
    ensures a.span.first <= a.span.last <= a.answered < |past|
  {
  }

  /**
   * Whatever gets and sets interleave: an answer is what its own reads found, and they were made within the
   * minute before the get began, or during it. It was the resolved value at some moment from the first of
   * them to the last, unless they straddle the account's first row.
   */
  lemma AnswersAreRecent(c: Codec, start: State, steps: seq<Step>, n: int)
    requires Init(start) && IsRun(c, start, steps) && 0 <= n < |After(c, start, steps).answers|
    ensures var s := After(c, start, steps); var a := s.answers[n];
      && AnswerOk(c, s.past, a)
      && (ResolvedDuring(c, s.past, a) <==> !Straddles(c, s.past, a))
  {
    hide IsRun, Apply, Enabled;
    var s := After(c, start, steps);
    hide After;
    ReachableInv(c, start, steps);
    var a := s.answers[n];
    hide AnswerOk, ResolvedDuring, StraddlesAt;
    if first: nat :| StraddlesAt(c, s.past, a, first) {
      StraddlersAreUnresolved(c, s.past, a, first);
    } else if !ResolvedDuring(c, s.past, a) {
      UnresolvedStraddles(c, s.past, a);
    }
  }

  /**
   * With each miss resolved in one atomic read, an answer was the resolved value at an instant less than a
   * minute before its get began, or during it.
   */
  lemma AtomicReadsAreRecent(c: Codec, start: State, steps: seq<Step>, n: int)
    requires Init(start) && IsRun(c, start, steps) && 0 <= n < |After(c, start, steps).answers|
    requires var a := After(c, start, steps).answers[n]; a.span.first == a.span.last
    ensures var s := After(c, start, steps); var a := s.answers[n];
      && a.span.first <= a.answered && ResolvedAt(c, s.past, a.span.first, a)
      && s.past[a.span.first].at > a.startedAt - 60000
  {
    hide IsRun, Apply, Enabled;
    var s := After(c, start, steps);
    hide After;
    ReachableInv(c, start, steps);
    assert AnswerOk(c, s.past, s.answers[n]);
  }

  // ---------------------------------------------------------------- the exception is real

  lemma FirstStep(c: Codec, s: State, step: Step, rest: seq<Step>)
    requires Enabled(s, step) && IsRun(c, Apply(c, s, step), rest)
    ensures IsRun(c, s, [step] + rest) && After(c, s, [step] + rest) == After(c, Apply(c, s, step), rest)
  {
    hide Enabled, Apply;
    assert ([step] + rest)[1..] == rest;
  }

  const SPLIT_TAIL: seq<Step> :=
    [Upsert(0, "k", "a", Text("mine")), Upsert(1, "k", "", Text("new")), ReadGlobal(0), Finish(0)]

  /** From a get whose account read found nothing: two writes, then the global read. */
  lemma SplitTail(c: Codec, s: State)
    requires s.past == [Moment(s.now, s.db)] && s.sets == map[]
    requires 0 in s.gets && s.gets[0] == Get("k", "a", Null, s.now, 0, AskGlobal(Some(0)))
    requires Faithful(c)
    ensures IsRun(c, s, SPLIT_TAIL)
    ensures var db1 := s.db[("k", "a") := Encode(c, Text("mine"))]; var db2 := db1[("k", "") := Encode(c, Text("new"))];
      && After(c, s, SPLIT_TAIL).answers == s.answers + [Answer("k", "a", Null, Text("new"), s.now, 0, 2, Span(0, 2), false)]
      && After(c, s, SPLIT_TAIL).past == s.past + [Moment(s.now, db1)] + [Moment(s.now, db2)]
  {
    var s3 := DoUpsert(c, s, 0, "k", "a", Text("mine"));
    var s4 := DoUpsert(c, s3, 1, "k", "", Text("new"));
    var s5 := DoReadGlobal(c, s4, 0);
    FirstStep(c, s5, Finish(0), []);
    FirstStep(c, s4, ReadGlobal(0), [Finish(0)] + []);
    FirstStep(c, s3, Upsert(1, "k", "", Text("new")), [ReadGlobal(0)] + ([Finish(0)] + []));
    FirstStep(c, s, SPLIT_TAIL[0], [Upsert(1, "k", "", Text("new"))] + ([ReadGlobal(0)] + ([Finish(0)] + [])));
    assert SPLIT_TAIL == [SPLIT_TAIL[0]] + ([Upsert(1, "k", "", Text("new"))] + ([ReadGlobal(0)] + ([Finish(0)] + [])));
  }

  lemma SplitRun(c: Codec, start: State) returns (steps: seq<Step>)
    requires Faithful(c) && Init(start) && ("k", "a") !in start.db
    ensures IsRun(c, start, steps)
    ensures var db1 := start.db[("k", "a") := Encode(c, Text("mine"))]; var db2 := db1[("k", "") := Encode(c, Text("new"))];
      && After(c, start, steps).answers == [Answer("k", "a", Null, Text("new"), start.now, 0, 2, Span(0, 2), false)]
      && After(c, start, steps).past == start.past + [Moment(start.now, db1)] + [Moment(start.now, db2)]
  {
    var s1 := DoBegin(start, 0, "k", "a", Null);
    var s2 := DoReadAccount(c, s1, 0);
    SplitTail(c, s2);
    hide IsRun, After;
    FirstStep(c, s1, ReadAccount(0), SPLIT_TAIL);
    FirstStep(c, start, Begin(0, "k", "a", Null), [ReadAccount(0)] + SPLIT_TAIL);
    steps := [Begin(0, "k", "a", Null)] + ([ReadAccount(0)] + SPLIT_TAIL);
  }

  ghost predicate NeverResolved(c: Codec, s: State) {
    |s.answers| == 1 && forall m: nat :: !ResolvedAt(c, s.past, m, s.answers[0])
  }

  /**
   * A get can answer with a value the lookup never gave: its account read finds nothing, then the account's
   * first row and a new global row are written, then its global read takes the new global row.
   */
  lemma SplitReadHappens(c: Codec, start: State)
    requires Faithful(c) && Init(start) && start.db == map[("k", "") := Encode(c, Text("old"))]
    ensures exists steps :: IsRun(c, start, steps) && NeverResolved(c, After(c, start, steps))
  {
    var steps := SplitRun(c, start);
    hide IsRun, After;
    var s := After(c, start, steps);
    assert "new"[0] != "old"[0] && "new"[0] != "mine"[0];
    forall m: nat
      ensures !ResolvedAt(c, s.past, m, s.answers[0])
    {
    }
  }

  // ---------------------------------------------------------------- set, then get

  ghost predicate OnPair(t: Get, key: string, account: string) { t.key == key && t.account == account }

  /** The pair's row is v, nothing cached says otherwise, and no get in flight has read anything else. */
  ghost predicate Settled(c: Codec, s: State, key: string, account: string, v: Value) {
    && ColonFree(key) && RowOf(c, s.db, key, account) == Some(v)
    && (CacheKey(key, account) in s.cache ==> s.cache[CacheKey(key, account)].entry.value == v)
    && forall g :: g in s.gets ==> ColonFree(s.gets[g].key) && (OnPair(s.gets[g], key, account) ==> OnTrack(s.gets[g], v))
  }

  predicate OnTrack(t: Get, v: Value) {
    match t.phase
    case AskAccount => t.account != ""
    case AskGlobal(_) => t.account == ""
    case Read(_, found) => found == Some(v)
  }

  ghost predicate NewAnswersAre(before: seq<Answer>, after: seq<Answer>, key: string, account: string, v: Value) {
    && before <= after
    && forall n :: |before| <= n < |after| && after[n].key == key && after[n].account == account ==> after[n].value == v
  }

  lemma SettledStep(c: Codec, s: State, step: Step, key: string, account: string, v: Value)
    requires Settled(c, s, key, account, v) && Enabled(s, step)
    requires !(step.Upsert? && step.key == key && step.account == account)
    ensures Settled(c, Apply(c, s, step), key, account, v)
    ensures NewAnswersAre(s.answers, Apply(c, s, step).answers, key, account, v)
  {
    hide ParseValue, Encode, CacheKey, Default;
    if step.Finish? {
      var t := s.gets[step.g];
      if CacheKey(t.key, t.account) == CacheKey(key, account) {
        CacheKeyInjective(t.key, t.account, key, account);
      }
    }
  }

  lemma {:induction false} SettledRun(c: Codec, s: State, steps: seq<Step>, key: string, account: string, v: Value)
    requires Settled(c, s, key, account, v) && IsRun(c, s, steps)
    requires forall n :: 0 <= n < |steps| && steps[n].Upsert? ==> !(steps[n].key == key && steps[n].account == account)
    ensures NewAnswersAre(s.answers, After(c, s, steps).answers, key, account, v)
    decreases |steps|
  {
    hide Settled, Apply, Enabled;
    if steps != [] {
      var s' := Apply(c, s, steps[0]);
      SettledStep(c, s, steps[0], key, account, v);
      SettledRun(c, s', steps[1..], key, account, v);
      var end := After(c, s', steps[1..]).answers;
      forall n | |s.answers| <= n < |end| && end[n].key == key && end[n].account == account
        ensures end[n].value == v
      {
        if n < |s'.answers| {
          assert end[n] == s'.answers[n];
        }
      }
    }
  }

  /**
   * Set, then get: once the set of a storable value has cleared its cache entry with no get on the pair that
   * has already read, every later get on the pair answers with the value written, until it is set again.
   */
  lemma SetThenGet(c: Codec, s: State, w: nat, key: string, account: string, v: Value, steps: seq<Step>)
    requires Faithful(c) && v != Null && v != Undefined && v != NonFinite && ColonFree(key)
    requires w in s.sets && s.sets[w] == (key, account)
    requires (key, account) in s.db && s.db[(key, account)] == Encode(c, v)
    requires forall g :: g in s.gets ==> ColonFree(s.gets[g].key) && (OnPair(s.gets[g], key, account) ==>
      if account == "" then s.gets[g].phase.AskGlobal? else s.gets[g].phase.AskAccount?)
    requires IsRun(c, DoInvalidate(s, w), steps)
    requires forall n :: 0 <= n < |steps| && steps[n].Upsert? ==> !(steps[n].key == key && steps[n].account == account)
    ensures NewAnswersAre(s.answers, After(c, DoInvalidate(s, w), steps).answers, key, account, v)
  {
    hide IsRun, After, Apply;
    StoredComesBackIff(c, v);
    hide ParseValue, Encode;
    assert Settled(c, DoInvalidate(s, w), key, account, v);
    SettledRun(c, DoInvalidate(s, w), steps, key, account, v);
  }

  // ---------------------------------------------------------------- the service alone is a run

  function Plain(cache: map<string, Kept>): Cache { map ck | ck in cache :: cache[ck].entry }

  /** The steps after a cache lookup that missed, undisturbed. */
  function MissSteps(db: Db, g: nat, key: string, account: string): seq<Step> {
    if account == "" then [ReadGlobal(g), Finish(g)]
    else if (key, account) in db then [ReadAccount(g), Finish(g)]
    else [ReadAccount(g), ReadGlobal(g), Finish(g)]
  }

  function GetSteps(s: State, g: nat, key: string, account: string, fallback: Value): seq<Step> {
    [Begin(g, key, account, fallback)] + (if Hit(s, key, account) then [] else MissSteps(s.db, g, key, account))
  }

  /** The last step of a get back with what the lookup gives. */
  lemma FinishPart(c: Codec, s: State, g: nat)
    requires g in s.gets && s.gets[g].phase.Read?
    ensures IsRun(c, s, [Finish(g)]) && After(c, s, [Finish(g)]) == DoFinish(s, g)
  {
    hide DoFinish;
    FirstStep(c, s, Finish(g), []);
    assert [Finish(g)] + [] == [Finish(g)];
  }

  /** Everything after the cache lookup of a miss. */
  lemma MissPart(c: Codec, s: State, g: nat)
    requires g in s.gets && s.gets[g].phase == (if s.gets[g].account != "" then AskAccount else AskGlobal(None))
    ensures var t := s.gets[g];
      var steps := MissSteps(s.db, g, t.key, t.account);
      var span := Span(Present(s), Present(s));
      var back := t.(phase := Read(span, Found(c, s.db, t.key, t.account)));
      IsRun(c, s, steps) && After(c, s, steps) == DoFinish(s.(gets := s.gets[g := back]), g)
  {
    hide DoFinish;
    var t := s.gets[g];
    var back := t.(phase := Read(Span(Present(s), Present(s)), Found(c, s.db, t.key, t.account)));
    var s2 := s.(gets := s.gets[g := back]);
    FinishPart(c, s2, g);
    if t.account == "" {
      FirstStep(c, s, ReadGlobal(g), [Finish(g)]);
      assert [ReadGlobal(g)] + [Finish(g)] == [ReadGlobal(g), Finish(g)];
    } else if (t.key, t.account) in s.db {
      FirstStep(c, s, ReadAccount(g), [Finish(g)]);
      assert [ReadAccount(g)] + [Finish(g)] == [ReadAccount(g), Finish(g)];
    } else {
      var s1 := DoReadAccount(c, s, g);
      assert s1.gets[g := back] == s.gets[g := back];
      FirstStep(c, s1, ReadGlobal(g), [Finish(g)]);
      FirstStep(c, s, ReadAccount(g), [ReadGlobal(g)] + [Finish(g)]);
      assert [ReadAccount(g)] + ([ReadGlobal(g)] + [Finish(g)]) == [ReadAccount(g), ReadGlobal(g), Finish(g)];
    }
  }

  /** From s to e one answer more, `x` served, and nothing else moved. */
  ghost predicate ServedAs(s: State, e: State, x: Served, key: string, account: string) {
    && Plain(e.cache) == x.cache && e.db == s.db && e.gets == s.gets && e.sets == s.sets && e.past == s.past
    && |e.answers| == |s.answers| + 1 && s.answers <= e.answers
    && var a := e.answers[|s.answers|]; a.key == key && a.account == account && a.value == x.value
  }

  lemma HitServes(c: Codec, s: State, g: nat, key: string, account: string, fallback: Value)
    requires Hit(s, key, account)
    ensures ServedAs(s, DoBegin(s, g, key, account, fallback), Got(c, s.db, Plain(s.cache), key, fallback, account, s.now), key, account)
  {
    hide CacheKey, Resolved, Found;
  }

  /** An undisturbed get is a run that answers and caches as the service does. */
  lemma GetIsARun(c: Codec, s: State, g: nat, key: string, account: string, fallback: Value)
    requires g !in s.gets && ColonFree(key)
    ensures var steps := GetSteps(s, g, key, account, fallback);
      IsRun(c, s, steps) &&
      ServedAs(s, After(c, s, steps), Got(c, s.db, Plain(s.cache), key, fallback, account, s.now), key, account)
  {
    var begin := Begin(g, key, account, fallback);
    var s1 := DoBegin(s, g, key, account, fallback);
    hide IsRun, After, DoFinish, ServedAs, Got, Plain, Found, MissSteps, CacheKey;
    if Hit(s, key, account) {
      HitServes(c, s, g, key, account, fallback);
      hide DoBegin;
      assert IsRun(c, s1, []) && After(c, s1, []) == s1 by { NoSteps(c, s1); }
      FirstStep(c, s, begin, []);
    } else {
      MissPart(c, s1, g);
      MissServes(c, s, g, key, account, fallback);
      hide DoBegin;
      FirstStep(c, s, begin, MissSteps(s.db, g, key, account));
    }
  }

  lemma NoSteps(c: Codec, s: State)
    ensures IsRun(c, s, []) && After(c, s, []) == s
  {
  }

  lemma MissServes(c: Codec, s: State, g: nat, key: string, account: string, fallback: Value)
    requires g !in s.gets && !Hit(s, key, account)
    ensures var s1 := DoBegin(s, g, key, account, fallback);
      var back := s1.gets[g].(phase := Read(Span(Present(s), Present(s)), Found(c, s.db, key, account)));
      ServedAs(s, DoFinish(s1.(gets := s1.gets[g := back]), g), Got(c, s.db, Plain(s.cache), key, fallback, account, s.now), key, account)
  {
    hide CacheKey, Default, RowOf;
    var s1 := DoBegin(s, g, key, account, fallback);
    var back := s1.gets[g].(phase := Read(Span(Present(s), Present(s)), Found(c, s.db, key, account)));
    var e := DoFinish(s1.(gets := s1.gets[g := back]), g);
    assert e.gets == s.gets;
    assert Plain(e.cache) == Got(c, s.db, Plain(s.cache), key, fallback, account, s.now).cache;
  }

  /** An undisturbed set is a run that writes and clears as the service does. */
  lemma SetIsARun(c: Codec, s: State, w: nat, key: string, account: string, value: Value)
    requires w !in s.sets && ColonFree(key)
    ensures var steps := [Upsert(w, key, account, value), Invalidate(w)];
      IsRun(c, s, steps) && var e := After(c, s, steps);
      && e.db == s.db[(key, account) := Encode(c, value)] && Plain(e.cache) == Cleared(Plain(s.cache), key, account)
      && e.gets == s.gets && e.sets == s.sets && e.answers == s.answers
  {
    hide CacheKey, Encode;
    var s1 := DoUpsert(c, s, w, key, account, value);
    FirstStep(c, s1, Invalidate(w), []);
    FirstStep(c, s, Upsert(w, key, account, value), [Invalidate(w)] + []);
    assert [Upsert(w, key, account, value)] + ([Invalidate(w)] + []) == [Upsert(w, key, account, value), Invalidate(w)];
  }
}
