/**
 * The authorization-code grant (oauth/oauth.controller.ts, oauth.service.ts) with the key table it issues
 * into (auth/api-key.service.ts), as a step system: RFC 6749 sections 4.1.2 and 4.1.3, RFC 7636 section 4.6.
 * SHA-256 in its two uses is a parameter.
 */
module OAuth {
  import opened Options
  import opened CodeStore

  /** `s256` is BASE64URL(SHA256(verifier)); `hash` the hex digest kept for secrets and keys. */
  datatype Crypto = Crypto(s256: string -> string, hash: string -> string)

  datatype Client = Client(secretHash: string, name: string, redirectUris: seq<string>)

  datatype KeyRow = KeyRow(
    userId: string, name: string, keyHash: string, oauthClientId: Option<string>,
    expiresAt: Option<int>, revokedAt: Option<int>)

  type Clients = map<string, Client>
  type Keys = map<nat, KeyRow>

  datatype OAuthError =
    | InvalidRequest | InvalidClient | InvalidRedirectUri | UnsupportedGrantType | InvalidGrant | StoreFull

  // ---------------------------------------------------------------- consent

  /** Fields of a body are absent when they are not strings. */
  datatype ConfirmBody = ConfirmBody(
    clientId: Option<string>, redirectUri: Option<string>, codeChallenge: Option<string>,
    codeChallengeMethod: Option<string>, scope: Option<string>, decision: Option<string>)

  datatype Verdict = Reject(error: OAuthError) | Denied | Grant(record: CodeRecord)

  predicate Blank(s: Option<string>) {
    s.None? || forall i :: 0 <= i < |s.value| ==> s.value[i] in " \t\n\r"
  }

  function Confirm(clients: Clients, userId: string, b: ConfirmBody): Verdict {
    if Blank(b.clientId) || Blank(b.redirectUri) then Reject(InvalidRequest)
    else if b.clientId.value !in clients then Reject(InvalidClient)
    else if b.redirectUri.value !in clients[b.clientId.value].redirectUris then Reject(InvalidRedirectUri)
    else if b.decision != Some("allow") then Denied
    else if Blank(b.codeChallenge) || Blank(b.codeChallengeMethod) then Reject(InvalidRequest)
    else if b.codeChallengeMethod != Some("S256") then Reject(InvalidRequest)
    else Grant(CodeRecord(userId, b.clientId.value, b.redirectUri.value, b.codeChallenge.value,
                           if b.scope.Some? then b.scope.value else "*"))
  }

  /** The body consents: an "allow" for a registered URI of a known client, with an S256 challenge. */
  predicate Consents(clients: Clients, b: ConfirmBody) {
    && b.decision == Some("allow") && b.codeChallengeMethod == Some("S256")
    && !Blank(b.clientId) && !Blank(b.redirectUri) && !Blank(b.codeChallenge)
    && b.clientId.value in clients && b.redirectUri.value in clients[b.clientId.value].redirectUris
  }

  /** The record is of this user and says what the body said. */
  predicate Records(record: CodeRecord, userId: string, b: ConfirmBody) {
    && record.userId == userId && Some(record.clientId) == b.clientId && Some(record.redirectUri) == b.redirectUri
    && Some(record.codeChallenge) == b.codeChallenge
    && record.scope == if b.scope.Some? then b.scope.value else "*"
  }

  lemma GrantIffConsents(clients: Clients, userId: string, b: ConfirmBody)
    ensures Confirm(clients, userId, b).Grant? <==> Consents(clients, b)
    ensures Confirm(clients, userId, b).Grant? ==> Records(Confirm(clients, userId, b).record, userId, b)
  {
    assert !Blank(Some("S256")) by { NotBlank(); }
  }

  lemma NotBlank()
    ensures !Blank(Some("S256")) && Blank(None) && Blank(Some("")) && Blank(Some(" \t"))
  {
    assert "S256"[0] !in " \t\n\r";
  }

  // ---------------------------------------------------------------- redemption

  /** Missing fields are empty strings; the credentials come from the Basic header or the body. */
  datatype TokenRequest = TokenRequest(
    grantType: string, clientId: string, clientSecret: string,
    code: string, verifier: string, redirectUri: string)

  predicate Authentic(cr: Crypto, clients: Clients, clientId: string, secret: string) {
    clientId != "" && secret != "" && clientId in clients && cr.hash(secret) == clients[clientId].secretHash
  }

  /** The checks made before the code is taken out of the store. */
  function Refusal(cr: Crypto, clients: Clients, r: TokenRequest): Option<OAuthError> {
    if r.grantType != "authorization_code" then Some(UnsupportedGrantType)
    else if !Authentic(cr, clients, r.clientId, r.clientSecret) then Some(InvalidClient)
    else if r.code == "" || r.verifier == "" || r.redirectUri == "" then Some(InvalidRequest)
    else None
  }

  predicate VerifyS256(cr: Crypto, verifier: string, challenge: string) {
    verifier != "" && challenge != "" && cr.s256(verifier) == challenge
  }

  /** The checks made on the record that was under the code; the code is gone whatever they say. */
  predicate Matches(cr: Crypto, record: CodeRecord, r: TokenRequest) {
    && record.clientId == r.clientId
    && record.redirectUri == r.redirectUri
    && VerifyS256(cr, r.verifier, record.codeChallenge)
  }

  // ---------------------------------------------------------------- keys

  predicate Active(k: KeyRow) { k.revokedAt.None? }

  predicate HeldBy(k: KeyRow, userId: string, clientId: string) {
    k.userId == userId && k.oauthClientId == Some(clientId)
  }

  /** UPDATE ... SET revoked_at WHERE p AND revoked_at IS NULL. */
  function RevokeWhere(keys: Keys, p: KeyRow -> bool, at: int): Keys {
    map i | i in keys :: if Active(keys[i]) && p(keys[i]) then keys[i].(revokedAt := Some(at)) else keys[i]
  }

  function RetireOld(keys: Keys, userId: string, clientId: string, at: int): Keys {
    RevokeWhere(keys, (k: KeyRow) => HeldBy(k, userId, clientId), at)
  }

  /** The unique index on key_hash and the partial one on (user_id, oauth_client_id) of unrevoked keys. */
  ghost predicate Violates(keys: Keys, row: KeyRow) {
    exists i :: i in keys && (keys[i].keyHash == row.keyHash ||
      (row.oauthClientId.Some? && Active(row) && Active(keys[i]) && HeldBy(keys[i], row.userId, row.oauthClientId.value)))
  }

  /** Revoked at that time, and otherwise the key it was. */
  predicate RevokedAt(k: KeyRow, was: KeyRow, at: int) {
    && k.revokedAt == Some(at) && was.revokedAt == None
    && k.userId == was.userId && k.name == was.name && k.keyHash == was.keyHash
    && k.oauthClientId == was.oauthClientId && k.expiresAt == was.expiresAt
  }

  /** Exactly the user's unrevoked keys of the client are revoked. */
  lemma RetiredAre(keys: Keys, userId: string, clientId: string, at: int)
    ensures var after := RetireOld(keys, userId, clientId, at);
      && after.Keys == keys.Keys
      && forall i :: i in keys ==>
           if keys[i].revokedAt == None && keys[i].userId == userId && keys[i].oauthClientId == Some(clientId)
           then RevokedAt(after[i], keys[i], at) else after[i] == keys[i]
  {
  }

  predicate IsApiKey(s: string) { "tk_" <= s }

  function RevokeByPlainKey(cr: Crypto, keys: Keys, plain: string, at: int): Keys {
    if IsApiKey(plain) then RevokeWhere(keys, (k: KeyRow) => k.keyHash == cr.hash(plain), at) else keys
  }

  /** The row a bearer key stands for. */
  ghost predicate Verifies(cr: Crypto, keys: Keys, plain: string, now: int, i: nat) {
    && IsApiKey(plain) && i in keys && keys[i].keyHash == cr.hash(plain) && Active(keys[i])
    && (keys[i].expiresAt.Some? ==> keys[i].expiresAt.value >= now)
  }

  // ---------------------------------------------------------------- the step system

  /** A token request past its checks: it has yet to revoke the old key and to insert the new one. */
  datatype Pending = Pending(
    userId: string, clientId: string, clientName: string, redirectUri: string,
    verifier: string, code: string, consumedAt: int, retired: bool)

  datatype Event =
    | Allowed(code: string, record: CodeRecord, at: int)
    | Issued(token: string, userId: string, clientId: string, redirectUri: string,
             verifier: string, code: string, consumedAt: int)

  datatype State = State(
    clients: Clients, codes: Memory, pending: map<nat, Pending>, keys: Keys, now: int, log: seq<Event>)

  ghost predicate Init(s: State) {
    s.clients == map[] && s.codes == map[] && s.pending == map[] && s.keys == map[] && s.log == []
  }

  datatype Step =
    | Register(clientId: string, client: Client)
    | Authorize(userId: string, body: ConfirmBody, code: string, cap: int, sweptAt: int, storedAt: int)
    | Redeem(p: nat, request: TokenRequest, at: int)
    | Retire(p: nat)
    | InsertKey(p: nat, id: nat, plain: string)
    | Abandon(p: nat)
    | CreateManual(id: nat, row: KeyRow)
    | RevokeToken(clientId: string, secret: string, token: string)
    | RevokeOwn(id: nat, userId: string)
    | Tick(to: int)

  /** Client ids, codes, and primary keys are drawn fresh; the clock never runs back. */
  ghost predicate Enabled(s: State, step: Step) {
    match step
    case Register(clientId, _) => clientId !in s.clients
    case Authorize(_, _, code, _, sweptAt, storedAt) =>
      && s.now <= sweptAt <= storedAt && code !in s.codes
      && forall i :: 0 <= i < |s.log| && s.log[i].Allowed? ==> s.log[i].code != code
    case Redeem(p, _, at) => s.now <= at && p !in s.pending
    case Retire(p) => p in s.pending && !s.pending[p].retired
    case InsertKey(p, id, plain) => p in s.pending && s.pending[p].retired && id !in s.keys && IsApiKey(plain)
    case Abandon(p) => p in s.pending
    case CreateManual(id, row) => id !in s.keys && row.oauthClientId.None?
    case RevokeToken(_, _, _) => true
    case RevokeOwn(_, _) => true
    case Tick(to) => s.now <= to
  }

  function DoAuthorize(s: State, userId: string, b: ConfirmBody, code: string, cap: int, sweptAt: int, storedAt: int): State {
    match Confirm(s.clients, userId, b)
    case Grant(record) =>
      s.(now := storedAt, codes := AfterPut(s.codes, code, record, cap, sweptAt, storedAt),
         log := if PutAccepted(s.codes, cap, sweptAt) then s.log + [Allowed(code, record, storedAt)] else s.log)
    case _ => s
  }

  function DoRedeem(cr: Crypto, s: State, p: nat, r: TokenRequest, at: int): State {
    if Refusal(cr, s.clients, r).Some? || r.clientId !in s.clients then s.(now := at) else
    var found := Consumed(s.codes, r.code, at);
    var s' := s.(now := at, codes := s.codes - {r.code});
    if found.None? || !Matches(cr, found.value, r) then s' else
    s'.(pending := s.pending[p := Pending(found.value.userId, r.clientId, s.clients[r.clientId].name, r.redirectUri,
                                          r.verifier, r.code, at, false)])
  }

  function NewRow(cr: Crypto, g: Pending, plain: string): KeyRow {
    KeyRow(g.userId, g.clientName, cr.hash(plain), Some(g.clientId), None, None)
  }

  ghost function DoInsertKey(cr: Crypto, s: State, p: nat, id: nat, plain: string): State
    requires p in s.pending
  {
    var g := s.pending[p];
    var row := NewRow(cr, g, plain);
    if Violates(s.keys, row) then s.(pending := s.pending - {p}) else
    s.(pending := s.pending - {p}, keys := s.keys[id := row],
       log := s.log + [Issued(plain, g.userId, g.clientId, g.redirectUri, g.verifier, g.code, g.consumedAt)])
  }

  ghost function Apply(cr: Crypto, s: State, step: Step): State
    requires Enabled(s, step)
  {
    match step
    case Register(clientId, client) => s.(clients := s.clients[clientId := client])
    case Authorize(userId, b, code, cap, sweptAt, storedAt) => DoAuthorize(s, userId, b, code, cap, sweptAt, storedAt)
    case Redeem(p, r, at) => DoRedeem(cr, s, p, r, at)
    case Retire(p) =>
      var g := s.pending[p];
      s.(keys := RetireOld(s.keys, g.userId, g.clientId, s.now), pending := s.pending[p := g.(retired := true)])
    case InsertKey(p, id, plain) => DoInsertKey(cr, s, p, id, plain)
    case Abandon(p) => s.(pending := s.pending - {p})
    case CreateManual(id, row) => if Violates(s.keys, row) then s else s.(keys := s.keys[id := row])
    case RevokeToken(clientId, secret, token) =>
      if Authentic(cr, s.clients, clientId, secret) then s.(keys := RevokeByPlainKey(cr, s.keys, token, s.now)) else s
    case RevokeOwn(id, userId) =>
      if id in s.keys && s.keys[id].userId == userId && Active(s.keys[id])
      then s.(keys := s.keys[id := s.keys[id].(revokedAt := Some(s.now))]) else s
    case Tick(to) => s.(now := to)
  }

  ghost predicate IsRun(cr: Crypto, s: State, steps: seq<Step>)
    decreases |steps|
  {
    steps == [] || (Enabled(s, steps[0]) && IsRun(cr, Apply(cr, s, steps[0]), steps[1..]))
  }

  ghost function After(cr: Crypto, s: State, steps: seq<Step>): State
    requires IsRun(cr, s, steps)
    decreases |steps|
  {
    if steps == [] then s else After(cr, Apply(cr, s, steps[0]), steps[1..])
  }

  // ---------------------------------------------------------------- the invariant

  predicate AllowedAt(log: seq<Event>, i: int, code: string, record: CodeRecord, at: int) {
    0 <= i < |log| && log[i] == Allowed(code, record, at)
  }

  predicate RegisteredFor(clients: Clients, record: CodeRecord) {
    record.clientId in clients && record.redirectUri in clients[record.clientId].redirectUris
  }

  /** An entry of the store is the record of a consent, alive for a minute after it. */
  ghost predicate FromConsent(s: State, code: string, e: Entry) {
    exists i, at :: AllowedAt(s.log, i, code, e.value, at) && e.expiresAt == at + 60000
  }

  /** What a token rests on: an earlier consent for the same user, client, redirect URI and challenge. */
  predicate RestsOn(cr: Crypto, e: Event, userId: string, clientId: string, redirectUri: string,
                    verifier: string, code: string, consumedAt: int)
  {
    && e.Allowed? && e.code == code
    && e.record.userId == userId && e.record.clientId == clientId && e.record.redirectUri == redirectUri
    && e.record.codeChallenge == cr.s256(verifier) && consumedAt <= e.at + 60000
  }

  ghost predicate Backed(cr: Crypto, log: seq<Event>, userId: string, clientId: string, redirectUri: string,
                         verifier: string, code: string, consumedAt: int)
  {
    exists i :: 0 <= i < |log| && RestsOn(cr, log[i], userId, clientId, redirectUri, verifier, code, consumedAt)
  }

  ghost predicate ConsentsOk(s: State) {
    && (forall i :: 0 <= i < |s.log| && s.log[i].Allowed? ==> RegisteredFor(s.clients, s.log[i].record))
    && (forall i, j {:trigger s.log[i], s.log[j]} :: 0 <= i < j < |s.log| ==> !SameConsentCode(s.log[i], s.log[j]))
  }

  predicate SameConsentCode(a: Event, b: Event) { a.Allowed? && b.Allowed? && a.code == b.code }

  predicate SameTokenCode(a: Event, b: Event) { a.Issued? && b.Issued? && a.code == b.code }

  ghost predicate Used(log: seq<Event>, code: string) {
    exists i :: 0 <= i < |log| && log[i].Issued? && log[i].code == code
  }

  /** A code in the store is nobody's yet. */
  ghost predicate CodesOk(s: State) {
    forall c :: c in s.codes ==>
      && FromConsent(s, c, s.codes[c]) && !Used(s.log, c)
      && forall p :: p in s.pending ==> s.pending[p].code != c
  }

  ghost predicate GrantOk(cr: Crypto, log: seq<Event>, g: Pending) {
    && Backed(cr, log, g.userId, g.clientId, g.redirectUri, g.verifier, g.code, g.consumedAt)
    && !Used(log, g.code)
  }

  ghost predicate PendingOk(cr: Crypto, s: State) {
    && (forall p :: p in s.pending ==> GrantOk(cr, s.log, s.pending[p]))
    && (forall p, q :: p in s.pending && q in s.pending && p != q ==> s.pending[p].code != s.pending[q].code)
  }

  ghost predicate TokenOk(cr: Crypto, log: seq<Event>, i: int)
    requires 0 <= i < |log|
  {
    var e := log[i];
    e.Issued? ==> Backed(cr, log[..i], e.userId, e.clientId, e.redirectUri, e.verifier, e.code, e.consumedAt)
  }

  ghost predicate IssuedOk(cr: Crypto, s: State) {
    && (forall i :: 0 <= i < |s.log| ==> TokenOk(cr, s.log, i))
    && (forall i, j {:trigger s.log[i], s.log[j]} :: 0 <= i < j < |s.log| ==> !SameTokenCode(s.log[i], s.log[j]))
  }

  ghost predicate KeysOk(keys: Keys) {
    forall i, j :: i in keys && j in keys && i != j ==> !Clash(keys[i], keys[j]) && keys[i].keyHash != keys[j].keyHash
  }

  predicate Clash(a: KeyRow, b: KeyRow) {
    && Active(a) && Active(b) && a.oauthClientId.Some? && a.oauthClientId == b.oauthClientId && a.userId == b.userId
  }

  ghost predicate Inv(cr: Crypto, s: State) {
    CodesOk(s) && ConsentsOk(s) && PendingOk(cr, s) && IssuedOk(cr, s) && KeysOk(s.keys)
  }

  // ---------------------------------------------------------------- steps keep it

  /** Steps that do not write the log and take nothing new out of the store. */
  lemma QuietKeeps(cr: Crypto, s: State, s': State)
    requires Inv(cr, s) && s'.log == s.log && KeysOk(s'.keys)
    requires forall c :: c in s'.codes ==> c in s.codes && s'.codes[c] == s.codes[c]
    requires forall c :: c in s.clients ==> c in s'.clients && s'.clients[c] == s.clients[c]
    requires forall p :: p in s'.pending ==> p in s.pending && s'.pending[p].(retired := s.pending[p].retired) == s.pending[p]
    ensures Inv(cr, s')
  {
    hide KeysOk, Used, TokenOk, SameConsentCode, SameTokenCode, Backed;
    forall c | c in s'.codes
      ensures FromConsent(s', c, s'.codes[c])
    {
      assert FromConsent(s, c, s.codes[c]);
    }
    assert CodesOk(s');
    assert ConsentsOk(s');
    assert PendingOk(cr, s') by {
      forall p | p in s'.pending
        ensures GrantOk(cr, s'.log, s'.pending[p])
      {
        assert GrantOk(cr, s.log, s.pending[p]);
      }
    }
    assert IssuedOk(cr, s');
  }

  lemma BackedGrows(cr: Crypto, log: seq<Event>, e: Event, g: Pending)
    requires Backed(cr, log, g.userId, g.clientId, g.redirectUri, g.verifier, g.code, g.consumedAt)
    ensures Backed(cr, log + [e], g.userId, g.clientId, g.redirectUri, g.verifier, g.code, g.consumedAt)
  {
    var i :| 0 <= i < |log| && RestsOn(cr, log[i], g.userId, g.clientId, g.redirectUri, g.verifier, g.code, g.consumedAt);
    assert (log + [e])[i] == log[i];
  }

  lemma UsedGrows(log: seq<Event>, e: Event, code: string)
    ensures Used(log + [e], code) <==> Used(log, code) || (e.Issued? && e.code == code)
  {
    if Used(log, code) {
      var i :| 0 <= i < |log| && log[i].Issued? && log[i].code == code;
      assert (log + [e])[i] == log[i];
    }
    assert (log + [e])[|log|] == e;
  }

  lemma TokensStayOk(cr: Crypto, log: seq<Event>, e: Event)
    requires forall i :: 0 <= i < |log| ==> TokenOk(cr, log, i)
    requires e.Issued? ==> Backed(cr, log, e.userId, e.clientId, e.redirectUri, e.verifier, e.code, e.consumedAt)
    ensures forall i :: 0 <= i < |log + [e]| ==> TokenOk(cr, log + [e], i)
  {
    var log' := log + [e];
    forall i | 0 <= i < |log'|
      ensures TokenOk(cr, log', i)
    {
      assert log'[..i] == log[..i];
      if i < |log| {
        assert TokenOk(cr, log, i);
      } else {
        assert log[..i] == log;
      }
    }
  }

  /** A backed code has a consent in the log, so a fresh code is nobody's. */
  lemma BackedIsKnown(cr: Crypto, log: seq<Event>, g: Pending)
    requires Backed(cr, log, g.userId, g.clientId, g.redirectUri, g.verifier, g.code, g.consumedAt)
    ensures exists i :: 0 <= i < |log| && log[i].Allowed? && log[i].code == g.code
  {
  }

  lemma UsedIsKnown(cr: Crypto, s: State, code: string)
    requires IssuedOk(cr, s) && Used(s.log, code)
    ensures exists i :: 0 <= i < |s.log| && s.log[i].Allowed? && s.log[i].code == code
  {
    var i :| 0 <= i < |s.log| && s.log[i].Issued? && s.log[i].code == code;
    assert TokenOk(cr, s.log, i);
    var e := s.log[i];
    var j :| 0 <= j < i && RestsOn(cr, s.log[..i][j], e.userId, e.clientId, e.redirectUri, e.verifier, e.code, e.consumedAt);
    assert s.log[j].Allowed?;
  }

  lemma ConfirmIsRegistered(clients: Clients, userId: string, b: ConfirmBody)
    requires Confirm(clients, userId, b).Grant?
    ensures RegisteredFor(clients, Confirm(clients, userId, b).record)
  {
  }

  lemma AuthorizeKeeps(cr: Crypto, s: State, step: Step)
    requires Inv(cr, s) && step.Authorize? && Enabled(s, step)
    ensures Inv(cr, DoAuthorize(s, step.userId, step.body, step.code, step.cap, step.sweptAt, step.storedAt))
  {
    hide CodesOk, ConsentsOk, PendingOk, IssuedOk, KeysOk, Confirm, RegisteredFor;
    var v := Confirm(s.clients, step.userId, step.body);
    if v.Grant? {
      var swept := s.(now := step.storedAt, codes := Swept(s.codes, step.sweptAt));
      QuietKeeps(cr, s, swept);
      if PutAccepted(s.codes, step.cap, step.sweptAt) {
        ConfirmIsRegistered(s.clients, step.userId, step.body);
        ConsentKeeps(cr, swept, step.code, v.record, step.storedAt);
      }
    }
  }

  lemma ConsentKeeps(cr: Crypto, s: State, code: string, record: CodeRecord, at: int)
    requires Inv(cr, s) && RegisteredFor(s.clients, record)
    requires forall i :: 0 <= i < |s.log| && s.log[i].Allowed? ==> s.log[i].code != code
    ensures Inv(cr, s.(codes := s.codes[code := Entry(record, at + CODE_TTL_MS)], log := s.log + [Allowed(code, record, at)]))
  {
    hide KeysOk, Backed, RestsOn;
    var e := Allowed(code, record, at);
    var s' := s.(codes := s.codes[code := Entry(record, at + CODE_TTL_MS)], log := s.log + [e]);
    forall p | p in s.pending
      ensures GrantOk(cr, s'.log, s.pending[p]) && s.pending[p].code != code
    {
      assert GrantOk(cr, s.log, s.pending[p]);
      BackedGrows(cr, s.log, e, s.pending[p]);
      UsedGrows(s.log, e, s.pending[p].code);
      BackedIsKnown(cr, s.log, s.pending[p]);
    }
    TokensStayOk(cr, s.log, e);
    assert s'.log[|s.log|] == e;
    forall c | c in s'.codes
      ensures FromConsent(s', c, s'.codes[c]) && !Used(s'.log, c)
    {
      UsedGrows(s.log, e, c);
      if c == code {
        assert AllowedAt(s'.log, |s.log|, c, record, at);
        if Used(s.log, c) {
          UsedIsKnown(cr, s, c);
        }
      } else {
        var i, t :| AllowedAt(s.log, i, c, s.codes[c].value, t) && s.codes[c].expiresAt == t + 60000;
        assert AllowedAt(s'.log, i, c, s'.codes[c].value, t);
      }
    }
    assert ConsentsOk(s');
  }

  /** A code that passes its checks turns into a request backed by its consent. */
  lemma RedeemedIsBacked(cr: Crypto, s: State, r: TokenRequest, at: int, g: Pending)
    requires CodesOk(s)
    requires Consumed(s.codes, r.code, at).Some? && Matches(cr, Consumed(s.codes, r.code, at).value, r)
    requires g == Pending(Consumed(s.codes, r.code, at).value.userId, r.clientId, g.clientName, r.redirectUri,
                          r.verifier, r.code, at, false)
    ensures GrantOk(cr, s.log, g) && forall q :: q in s.pending ==> s.pending[q].code != g.code
  {
    assert FromConsent(s, r.code, s.codes[r.code]);
    var i, t :| AllowedAt(s.log, i, r.code, s.codes[r.code].value, t) && s.codes[r.code].expiresAt == t + 60000;
    assert RestsOn(cr, s.log[i], g.userId, g.clientId, g.redirectUri, g.verifier, g.code, g.consumedAt);
  }

  lemma RedeemKeeps(cr: Crypto, s: State, p: nat, r: TokenRequest, at: int)
    requires Inv(cr, s) && s.now <= at && p !in s.pending
    ensures Inv(cr, DoRedeem(cr, s, p, r, at))
  {
    hide CodesOk, ConsentsOk, PendingOk, IssuedOk, KeysOk, Refusal, Matches, GrantOk;
    var s' := DoRedeem(cr, s, p, r, at);
    if p !in s'.pending {
      QuietKeeps(cr, s, s');
    } else {
      var mid := s.(now := at, codes := s.codes - {r.code});
      QuietKeeps(cr, s, mid);
      RedeemedIsBacked(cr, s, r, at, s'.pending[p]);
      AdmitKeeps(cr, mid, p, s'.pending[p]);
    }
  }

  lemma AdmitKeeps(cr: Crypto, s: State, p: nat, g: Pending)
    requires Inv(cr, s) && p !in s.pending && GrantOk(cr, s.log, g)
    requires g.code !in s.codes && forall q :: q in s.pending ==> s.pending[q].code != g.code
    ensures Inv(cr, s.(pending := s.pending[p := g]))
  {
    hide KeysOk, Used, TokenOk, Backed, GrantOk;
    var s' := s.(pending := s.pending[p := g]);
    forall c | c in s'.codes
      ensures FromConsent(s', c, s'.codes[c])
    {
      assert FromConsent(s, c, s.codes[c]);
    }
    assert CodesOk(s') && ConsentsOk(s') && PendingOk(cr, s') && IssuedOk(cr, s');
  }

  lemma InsertKeyKeeps(cr: Crypto, s: State, p: nat, id: nat, plain: string)
    requires Inv(cr, s) && p in s.pending && id !in s.keys
    ensures Inv(cr, DoInsertKey(cr, s, p, id, plain))
  {
    hide KeysOk, TokenOk, Backed;
    var g := s.pending[p];
    var row := NewRow(cr, g, plain);
    var mid := s.(pending := s.pending - {p});
    QuietKeeps(cr, s, mid);
    if !Violates(s.keys, row) {
      var e := Issued(plain, g.userId, g.clientId, g.redirectUri, g.verifier, g.code, g.consumedAt);
      NewKeyIsAlone(s.keys, id, row);
      IssueKeeps(cr, mid, e, g);
      QuietKeeps(cr, mid.(log := s.log + [e]), DoInsertKey(cr, s, p, id, plain));
    }
  }

  lemma NewKeyIsAlone(keys: Keys, id: nat, row: KeyRow)
    requires KeysOk(keys) && id !in keys && !Violates(keys, row)
    ensures KeysOk(keys[id := row])
  {
  }

  lemma IssueKeeps(cr: Crypto, s: State, e: Event, g: Pending)
    requires Inv(cr, s) && GrantOk(cr, s.log, g)
    requires g.code !in s.codes && forall q :: q in s.pending ==> s.pending[q].code != g.code
    requires e.Issued? && e == Issued(e.token, g.userId, g.clientId, g.redirectUri, g.verifier, g.code, g.consumedAt)
    ensures Inv(cr, s.(log := s.log + [e]))
  {
    hide KeysOk, Backed;
    var s' := s.(log := s.log + [e]);
    TokensStayOk(cr, s.log, e);
    forall q | q in s.pending
      ensures GrantOk(cr, s'.log, s.pending[q])
    {
      assert GrantOk(cr, s.log, s.pending[q]);
      BackedGrows(cr, s.log, e, s.pending[q]);
      UsedGrows(s.log, e, s.pending[q].code);
    }
    forall c | c in s'.codes
      ensures FromConsent(s', c, s'.codes[c]) && !Used(s'.log, c)
    {
      UsedGrows(s.log, e, c);
      var i, t :| AllowedAt(s.log, i, c, s.codes[c].value, t) && s.codes[c].expiresAt == t + 60000;
      assert AllowedAt(s'.log, i, c, s'.codes[c].value, t);
    }
    assert ConsentsOk(s');
    assert IssuedOk(cr, s') by {
      forall i, j | 0 <= i < j < |s'.log|
        ensures !SameTokenCode(s'.log[i], s'.log[j])
      {
        assert i < |s.log| && !(s.log[i].Issued? && s.log[i].code == g.code);
      }
    }
  }

  lemma RevokingKeepsKeys(keys: Keys, p: KeyRow -> bool, at: int)
    requires KeysOk(keys)
    ensures KeysOk(RevokeWhere(keys, p, at))
  {
  }

  lemma StepKeeps(cr: Crypto, s: State, step: Step)
    requires Inv(cr, s) && Enabled(s, step)
    ensures Inv(cr, Apply(cr, s, step))
  {
    hide CodesOk, ConsentsOk, PendingOk, IssuedOk, KeysOk, DoAuthorize, DoRedeem, DoInsertKey, RevokeWhere, Authentic;
    var s' := Apply(cr, s, step);
    match step
    case Authorize(_, _, _, _, _, _) => AuthorizeKeeps(cr, s, step);
    case Redeem(p, r, at) => RedeemKeeps(cr, s, p, r, at);
    case InsertKey(p, id, plain) => InsertKeyKeeps(cr, s, p, id, plain);
    case Retire(p) =>
      var g := s.pending[p];
      RevokingKeepsKeys(s.keys, (k: KeyRow) => HeldBy(k, g.userId, g.clientId), s.now);
      QuietKeeps(cr, s, s');
    case RevokeToken(_, _, token) =>
      RevokingKeepsKeys(s.keys, (k: KeyRow) => k.keyHash == cr.hash(token), s.now);
      QuietKeeps(cr, s, s');
    case RevokeOwn(id, userId) =>
      RevokeOneKeeps(s.keys, id, s.now);
      QuietKeeps(cr, s, s');
    case CreateManual(id, row) =>
      if !Violates(s.keys, row) {
        NewKeyIsAlone(s.keys, id, row);
      }
      QuietKeeps(cr, s, s');
    case _ => QuietKeeps(cr, s, s');
  }

  lemma RevokeOneKeeps(keys: Keys, id: nat, at: int)
    requires KeysOk(keys)
    ensures id in keys ==> KeysOk(keys[id := keys[id].(revokedAt := Some(at))])
  {
  }

  lemma {:induction false} RunKeeps(cr: Crypto, s: State, steps: seq<Step>)
    requires Inv(cr, s) && IsRun(cr, s, steps)
    ensures Inv(cr, After(cr, s, steps))
    decreases |steps|
  {
    hide Inv, Apply, Enabled;
    if steps != [] {
      StepKeeps(cr, s, steps[0]);
      RunKeeps(cr, Apply(cr, s, steps[0]), steps[1..]);
    }
  }

  // ---------------------------------------------------------------- what every run guarantees

  ghost predicate Reaches(cr: Crypto, start: State, steps: seq<Step>) { Init(start) && IsRun(cr, start, steps) }

  lemma ReachableInv(cr: Crypto, start: State, steps: seq<Step>)
    requires Reaches(cr, start, steps)
    ensures Inv(cr, After(cr, start, steps))
  {
    hide Apply, Enabled, After, IsRun;
    RunKeeps(cr, start, steps);
  }

  /** The step is the consent that the event records: the same user's "allow" with the same challenge. */
  predicate AskedFor(step: Step, e: Event) {
    && step.Authorize? && e.Allowed? && step.code == e.code && step.storedAt == e.at
    && step.body.decision == Some("allow") && Records(e.record, step.userId, step.body)
  }

  /** The step presents the code, verifier and URI that the event names, with the client's own secret. */
  predicate PresentedBy(cr: Crypto, clients: Clients, step: Step, clientId: string, redirectUri: string, verifier: string, code: string) {
    && step.Redeem? && step.request.grantType == "authorization_code"
    && step.request.clientId == clientId && step.request.redirectUri == redirectUri
    && step.request.verifier == verifier && step.request.code == code
    && clientId in clients && cr.hash(step.request.clientSecret) == clients[clientId].secretHash
  }

  lemma StepAllows(cr: Crypto, s: State, step: Step)
    requires Enabled(s, step)
    ensures var e := Apply(cr, s, step);
      forall p :: |s.log| <= p < |e.log| && e.log[p].Allowed? ==> AskedFor(step, e.log[p])
  {
    hide Confirm, Refusal, Matches, Violates, AfterPut, Consumed, PutAccepted, Authentic, Records, Consents;
    if step.Authorize? {
      GrantIffConsents(s.clients, step.userId, step.body);
      ConsentsAllow(s.clients, step.body);
    }
  }

  lemma ConsentsAllow(clients: Clients, b: ConfirmBody)
    ensures Consents(clients, b) ==> b.decision == Some("allow")
  {
  }

  /** Every consent in the log was asked for by a step of the run. */
  lemma {:induction false} AllowsWereAsked(cr: Crypto, s: State, steps: seq<Step>, p: nat)
    requires IsRun(cr, s, steps) && |s.log| <= p < |After(cr, s, steps).log| && After(cr, s, steps).log[p].Allowed?
    ensures exists n: nat :: n < |steps| && AskedFor(steps[n], After(cr, s, steps).log[p])
    decreases |steps|
  {
    hide Apply, Enabled, AskedFor, Extends;
    var mid := Apply(cr, s, steps[0]);
    StepAllows(cr, s, steps[0]);
    RunExtends(cr, mid, steps[1..]);
    LogsAgree(mid, After(cr, mid, steps[1..]));
    if p < |mid.log| {
      assert AskedFor(steps[0], After(cr, s, steps).log[p]);
    } else {
      AllowsWereAsked(cr, mid, steps[1..], p);
      var n: nat :| n < |steps[1..]| && AskedFor(steps[1..][n], After(cr, s, steps).log[p]);
      assert steps[n + 1] == steps[1..][n];
    }
  }

  lemma LogsAgree(s: State, e: State)
    requires Extends(s, e)
    ensures |s.log| <= |e.log| && forall p :: 0 <= p < |s.log| ==> e.log[p] == s.log[p]
    ensures forall c :: c in s.clients ==> c in e.clients && e.clients[c] == s.clients[c]
  {
  }

  /** A request under way, or one already pending at s. */
  ghost predicate Redeemed(cr: Crypto, clients: Clients, s: State, steps: seq<Step>, clientId: string, redirectUri: string, verifier: string, code: string) {
    || (exists p :: p in s.pending && IsPending(s.pending[p], clientId, redirectUri, verifier, code))
    || (exists n: nat :: n < |steps| && PresentedBy(cr, clients, steps[n], clientId, redirectUri, verifier, code))
  }

  predicate IsPending(g: Pending, clientId: string, redirectUri: string, verifier: string, code: string) {
    g.clientId == clientId && g.redirectUri == redirectUri && g.verifier == verifier && g.code == code
  }

  lemma StepRedeems(cr: Crypto, s: State, step: Step, p: nat)
    requires Enabled(s, step) && p in Apply(cr, s, step).pending
    ensures var g := Apply(cr, s, step).pending[p];
      || (p in s.pending && g.(retired := s.pending[p].retired) == s.pending[p])
      || PresentedBy(cr, s.clients, step, g.clientId, g.redirectUri, g.verifier, g.code)
  {
    hide Confirm, Violates, AfterPut, Consumed, PutAccepted, RevokeWhere;
  }

  lemma StepIssues(cr: Crypto, s: State, step: Step, p: nat)
    requires Enabled(s, step) && |s.log| <= p < |Apply(cr, s, step).log| && Apply(cr, s, step).log[p].Issued?
    ensures var t := Apply(cr, s, step).log[p];
      exists q :: q in s.pending && IsPending(s.pending[q], t.clientId, t.redirectUri, t.verifier, t.code)
  {
    hide Confirm, Refusal, Violates, AfterPut, Consumed, PutAccepted, Matches, RevokeWhere;
    var t := Apply(cr, s, step).log[p];
    assert step.InsertKey? && IsPending(s.pending[step.p], t.clientId, t.redirectUri, t.verifier, t.code);
  }

  lemma RedeemedEarlier(
      cr: Crypto, s: State, step: Step, e: State, steps: seq<Step>, clients: Clients,
      clientId: string, redirectUri: string, verifier: string, code: string)
    requires Enabled(s, step) && e == Apply(cr, s, step)
    requires forall c :: c in s.clients ==> c in clients && clients[c] == s.clients[c]
    requires Redeemed(cr, clients, e, steps, clientId, redirectUri, verifier, code)
    ensures Redeemed(cr, clients, s, [step] + steps, clientId, redirectUri, verifier, code)
  {
    hide Apply, Enabled;
    if p :| p in e.pending && IsPending(e.pending[p], clientId, redirectUri, verifier, code) {
      StepRedeems(cr, s, step, p);
      if p in s.pending && e.pending[p].(retired := s.pending[p].retired) == s.pending[p] {
        assert IsPending(s.pending[p], clientId, redirectUri, verifier, code);
      } else {
        assert PresentedBy(cr, clients, ([step] + steps)[0], clientId, redirectUri, verifier, code);
      }
    } else {
      var n: nat :| n < |steps| && PresentedBy(cr, clients, steps[n], clientId, redirectUri, verifier, code);
      assert ([step] + steps)[n + 1] == steps[n];
    }
  }

  /** Every token in the log was asked for by a step of the run, or by a request pending at its start. */
  lemma {:induction false} TokensWereRedeemed(cr: Crypto, s: State, steps: seq<Step>, p: nat)
    requires IsRun(cr, s, steps) && |s.log| <= p < |After(cr, s, steps).log| && After(cr, s, steps).log[p].Issued?
    ensures var e := After(cr, s, steps); var t := e.log[p];
      Redeemed(cr, e.clients, s, steps, t.clientId, t.redirectUri, t.verifier, t.code)
    decreases |steps|
  {
    hide Apply, Enabled, Redeemed, Extends;
    var mid, e := Apply(cr, s, steps[0]), After(cr, s, steps);
    StepExtends(cr, s, steps[0]);
    RunExtends(cr, mid, steps[1..]);
    LogsAgree(s, mid);
    LogsAgree(mid, e);
    var t := e.log[p];
    if p < |mid.log| {
      StepIssues(cr, s, steps[0], p);
      PendingIsRedeemed(cr, e.clients, s, steps, mid, p);
    } else {
      TokensWereRedeemed(cr, mid, steps[1..], p);
      RedeemedEarlier(cr, s, steps[0], mid, steps[1..], e.clients, t.clientId, t.redirectUri, t.verifier, t.code);
      assert [steps[0]] + steps[1..] == steps;
    }
  }

  lemma PendingIsRedeemed(cr: Crypto, clients: Clients, s: State, steps: seq<Step>, mid: State, p: nat)
    requires p < |mid.log| && mid.log[p].Issued?
    requires exists q :: q in s.pending && IsPending(s.pending[q], mid.log[p].clientId, mid.log[p].redirectUri, mid.log[p].verifier, mid.log[p].code)
    ensures var t := mid.log[p]; Redeemed(cr, clients, s, steps, t.clientId, t.redirectUri, t.verifier, t.code)
  {
  }

  predicate TokenRestsOn(cr: Crypto, token: Event, consent: Event) {
    && token.Issued?
    && RestsOn(cr, consent, token.userId, token.clientId, token.redirectUri, token.verifier, token.code, token.consumedAt)
  }

  /**
   * Every token issued in any run rests on an earlier consent of the same user for the same client and
   * redirect URI, whose challenge is S256 of the verifier presented and whose code was redeemed within
   * its minute; the URI is one the client registered. That consent was a step of the run whose body said
   * "allow", and the redemption one in which the client gave its secret.
   */
  lemma TokensRestOnConsents(cr: Crypto, start: State, steps: seq<Step>, p: int)
    requires Reaches(cr, start, steps)
    requires 0 <= p < |After(cr, start, steps).log| && After(cr, start, steps).log[p].Issued?
    ensures var s := After(cr, start, steps);
      exists a, n: nat, m: nat :: RestsOnSteps(cr, s, steps, p, a, n, m)
  {
    var s := After(cr, start, steps);
    ReachableInv(cr, start, steps);
    assert TokenOk(cr, s.log, p);
    var e := s.log[p];
    var a :| 0 <= a < p && RestsOn(cr, s.log[..p][a], e.userId, e.clientId, e.redirectUri, e.verifier, e.code, e.consumedAt);
    assert TokenRestsOn(cr, s.log[p], s.log[a]);
    TokensWereRedeemed(cr, start, steps, p);
    hide Apply, Enabled, IsRun, After, RestsOn, AskedFor, PresentedBy, RegisteredFor;
    AllowsWereAsked(cr, start, steps, a);
    var n: nat :| n < |steps| && AskedFor(steps[n], s.log[a]);
    var m: nat :| m < |steps| && PresentedBy(cr, s.clients, steps[m], e.clientId, e.redirectUri, e.verifier, e.code);
    assert RestsOnSteps(cr, s, steps, p, a, n, m);
  }

  /** Token p rests on consent a, which step n asked for, and on the redemption of step m. */
  predicate RestsOnSteps(cr: Crypto, s: State, steps: seq<Step>, p: int, a: int, n: nat, m: nat) {
    && 0 <= a < p < |s.log| && TokenRestsOn(cr, s.log[p], s.log[a]) && RegisteredFor(s.clients, s.log[a].record)
    && n < |steps| && AskedFor(steps[n], s.log[a])
    && m < |steps| && PresentedBy(cr, s.clients, steps[m], s.log[p].clientId, s.log[p].redirectUri, s.log[p].verifier, s.log[p].code)
  }

  /** And no consent backs two tokens. */
  lemma OneTokenPerConsent(cr: Crypto, start: State, steps: seq<Step>, p: int, q: int, a: int)
    requires Reaches(cr, start, steps)
    requires var log := After(cr, start, steps).log;
      && 0 <= a < |log| && 0 <= p < |log| && 0 <= q < |log|
      && TokenRestsOn(cr, log[p], log[a]) && TokenRestsOn(cr, log[q], log[a])
    ensures p == q
  {
    hide Apply, Enabled, IsRun;
    var s := After(cr, start, steps);
    hide After;
    ReachableInv(cr, start, steps);
    assert SameTokenCode(s.log[p], s.log[q]);
  }

  /** However the two writes of issueOAuthKey interleave, a user has one unrevoked key per client. */
  lemma OneActiveKeyPerClient(cr: Crypto, start: State, steps: seq<Step>, i: nat, j: nat, userId: string, clientId: string)
    requires Reaches(cr, start, steps)
    requires var keys := After(cr, start, steps).keys;
      && i in keys && Active(keys[i]) && HeldBy(keys[i], userId, clientId)
      && j in keys && Active(keys[j]) && HeldBy(keys[j], userId, clientId)
    ensures i == j
  {
    hide Apply, Enabled, IsRun;
    var s := After(cr, start, steps);
    hide After;
    ReachableInv(cr, start, steps);
  }

  /** A token that is issued is good at once, and every older key of the user at the client is not. */
  lemma IssuedKeyReplacesOlder(cr: Crypto, start: State, steps: seq<Step>, p: nat, id: nat, plain: string, now: int)
    requires Reaches(cr, start, steps) && Enabled(After(cr, start, steps), InsertKey(p, id, plain))
    requires |Apply(cr, After(cr, start, steps), InsertKey(p, id, plain)).log| > |After(cr, start, steps).log|
    ensures var s := After(cr, start, steps); var s' := Apply(cr, s, InsertKey(p, id, plain)); var g := s.pending[p];
      && (forall i :: Verifies(cr, s'.keys, plain, now, i) <==> i == id)
      && s'.keys[id].userId == g.userId && s'.keys[id].oauthClientId == Some(g.clientId)
      && (forall i :: i in s'.keys && i != id && HeldBy(s'.keys[i], g.userId, g.clientId) ==> !Active(s'.keys[i]))
  {
    hide IsRun;
    var s := After(cr, start, steps);
    hide After;
    ReachableInv(cr, start, steps);
    var row := NewRow(cr, s.pending[p], plain);
    assert !Violates(s.keys, row);
    forall i | i in s.keys && HeldBy(s.keys[i], row.userId, row.oauthClientId.value)
      ensures !Active(s.keys[i])
    {
    }
    forall i | i in s.keys
      ensures s.keys[i].keyHash != row.keyHash
    {
    }
  }

  /** Left alone, the insert after the revoking update fails only on a collision of key hashes. */
  lemma RetiringMakesRoom(keys: Keys, row: KeyRow, at: int)
    requires row.oauthClientId.Some? && Active(row)
    ensures Violates(RetireOld(keys, row.userId, row.oauthClientId.value, at), row)
       <==> exists i :: i in keys && keys[i].keyHash == row.keyHash
  {
    var retired := RetireOld(keys, row.userId, row.oauthClientId.value, at);
    if i :| i in keys && keys[i].keyHash == row.keyHash {
      assert i in retired && retired[i].keyHash == row.keyHash;
    }
  }

  // ---------------------------------------------------------------- issuances that interleave

  predicate SameHolder(a: KeyRow, b: KeyRow) {
    a.userId == b.userId && a.oauthClientId == b.oauthClientId && a.keyHash == b.keyHash
  }

  ghost predicate Extends(s: State, e: State) {
    && s.log <= e.log
    && (forall c :: c in s.clients ==> c in e.clients && e.clients[c] == s.clients[c])
    && forall i :: i in s.keys ==> i in e.keys && SameHolder(s.keys[i], e.keys[i]) && (Active(e.keys[i]) ==> Active(s.keys[i]))
  }

  lemma StepKeepsClients(cr: Crypto, s: State, step: Step)
    requires Enabled(s, step)
    ensures forall c :: c in s.clients ==> c in Apply(cr, s, step).clients && Apply(cr, s, step).clients[c] == s.clients[c]
  {
    hide Confirm, Refusal, Matches, Violates, AfterPut, Consumed, PutAccepted, Authentic, RevokeWhere;
  }

  lemma StepKeepsHolders(cr: Crypto, s: State, step: Step)
    requires Enabled(s, step)
    ensures var e := Apply(cr, s, step);
      forall i :: i in s.keys ==> i in e.keys && SameHolder(s.keys[i], e.keys[i]) && (Active(e.keys[i]) ==> Active(s.keys[i]))
  {
    hide Confirm, Refusal, Matches, Violates, AfterPut, Consumed, PutAccepted, Authentic;
  }

  /** The log only grows; clients stay, keys keep their holder, and a revoked one stays revoked. */
  lemma StepExtends(cr: Crypto, s: State, step: Step)
    requires Enabled(s, step)
    ensures Extends(s, Apply(cr, s, step))
  {
    StepKeepsClients(cr, s, step);
    StepKeepsHolders(cr, s, step);
    hide Confirm, Refusal, Matches, Violates, AfterPut, Consumed, PutAccepted, Authentic, RevokeWhere, SameHolder, Active;
    assert s.log <= Apply(cr, s, step).log;
  }

  lemma {:induction false} RunExtends(cr: Crypto, s: State, steps: seq<Step>)
    requires IsRun(cr, s, steps)
    ensures Extends(s, After(cr, s, steps))
    decreases |steps|
  {
    hide Apply, Enabled;
    if steps != [] {
      StepExtends(cr, s, steps[0]);
      RunExtends(cr, Apply(cr, s, steps[0]), steps[1..]);
    }
  }

  predicate TokenFor(cr: Crypto, e: Event, k: KeyRow) {
    e.Issued? && e.userId == k.userId && Some(e.clientId) == k.oauthClientId && cr.hash(e.token) == k.keyHash
  }

  ghost predicate LoggedSince(cr: Crypto, s: State, e: State, k: KeyRow) {
    exists n :: |s.log| <= n < |e.log| && TokenFor(cr, e.log[n], k)
  }

  lemma NewKeyStep(cr: Crypto, s: State, step: Step, i: nat)
    requires Enabled(s, step) && i !in s.keys
    requires i in Apply(cr, s, step).keys && Apply(cr, s, step).keys[i].oauthClientId.Some?
    ensures LoggedSince(cr, s, Apply(cr, s, step), Apply(cr, s, step).keys[i])
  {
    hide Confirm, Refusal, Matches, Violates, AfterPut, Consumed, PutAccepted, Authentic;
    var e := Apply(cr, s, step);
    assert step.InsertKey? && TokenFor(cr, e.log[|s.log|], e.keys[i]);
  }

  lemma StillLogged(cr: Crypto, s: State, mid: State, e: State, i: nat)
    requires s.log <= mid.log && Extends(mid, e) && i in mid.keys && LoggedSince(cr, s, mid, mid.keys[i])
    ensures LoggedSince(cr, s, e, e.keys[i])
  {
    var n :| |s.log| <= n < |mid.log| && TokenFor(cr, mid.log[n], mid.keys[i]);
    assert TokenFor(cr, e.log[n], e.keys[i]);
  }

  /** A client's key that appears in a run was issued in it. */
  lemma {:induction false} NewKeysWereIssued(cr: Crypto, s: State, steps: seq<Step>, i: nat)
    requires IsRun(cr, s, steps) && i !in s.keys
    requires i in After(cr, s, steps).keys && After(cr, s, steps).keys[i].oauthClientId.Some?
    ensures LoggedSince(cr, s, After(cr, s, steps), After(cr, s, steps).keys[i])
    decreases |steps|
  {
    hide Apply, Enabled, LoggedSince;
    var mid := Apply(cr, s, steps[0]);
    var e := After(cr, mid, steps[1..]);
    StepExtends(cr, s, steps[0]);
    RunExtends(cr, mid, steps[1..]);
    if i in mid.keys {
      NewKeyStep(cr, s, steps[0], i);
      StillLogged(cr, s, mid, e, i);
    } else {
      NewKeysWereIssued(cr, mid, steps[1..], i);
      LoggedLater(cr, s, mid, e, i);
    }
  }

  lemma LoggedLater(cr: Crypto, s: State, mid: State, e: State, i: nat)
    requires s.log <= mid.log && i in e.keys && LoggedSince(cr, mid, e, e.keys[i])
    ensures LoggedSince(cr, s, e, e.keys[i])
  {
  }

  /** A key of the user at the client that was not there at s and is unrevoked at e. */
  predicate LiveSince(s: State, e: State, userId: string, clientId: string, i: nat) {
    i in e.keys && i !in s.keys && Active(e.keys[i]) && HeldBy(e.keys[i], userId, clientId)
  }

  /**
   * An issuance whose two writes have other steps between them ends in a conflict exactly if the new key's hash
   * is taken, or a token of the same user for the same client was issued in between and is not yet revoked.
   */
  lemma ConflictIff(cr: Crypto, s: State, p: nat, between: seq<Step>, id: nat, plain: string)
    requires Enabled(s, Retire(p)) && IsRun(cr, Apply(cr, s, Retire(p)), between)
    requires var s1 := Apply(cr, s, Retire(p)); var e := After(cr, s1, between);
      p in e.pending && e.pending[p] == s1.pending[p] && id !in e.keys && IsApiKey(plain)
    ensures var g := s.pending[p]; var s1 := Apply(cr, s, Retire(p)); var e := After(cr, s1, between);
      var after := Apply(cr, e, InsertKey(p, id, plain));
      && (after.keys == e.keys <==>
            (exists i :: i in e.keys && e.keys[i].keyHash == cr.hash(plain))
            || (exists i :: LiveSince(s1, e, g.userId, g.clientId, i)))
      && (forall i :: LiveSince(s1, e, g.userId, g.clientId, i) ==> LoggedSince(cr, s1, e, e.keys[i]))
  {
    var g := s.pending[p];
    var s1 := Apply(cr, s, Retire(p));
    var e := After(cr, s1, between);
    assert forall i :: i in s1.keys && HeldBy(s1.keys[i], g.userId, g.clientId) ==> !Active(s1.keys[i]);
    hide Apply, Enabled, IsRun, After;
    RunExtends(cr, s1, between);
    forall i | LiveSince(s1, e, g.userId, g.clientId, i)
      ensures LoggedSince(cr, s1, e, e.keys[i])
    {
      NewKeysWereIssued(cr, s1, between, i);
    }
    RetiredGrant(cr, s, p);
    InsertRefusedIff(cr, e, p, id, plain);
    hide LoggedSince;
    forall i | i in e.keys && Active(e.keys[i]) && HeldBy(e.keys[i], g.userId, g.clientId)
      ensures LiveSince(s1, e, g.userId, g.clientId, i)
    {
    }
  }

  lemma RetiredGrant(cr: Crypto, s: State, p: nat)
    requires Enabled(s, Retire(p))
    ensures p in Apply(cr, s, Retire(p)).pending && Apply(cr, s, Retire(p)).pending[p] == s.pending[p].(retired := true)
  {
  }

  lemma InsertRefusedIff(cr: Crypto, e: State, p: nat, id: nat, plain: string)
    requires Enabled(e, InsertKey(p, id, plain))
    ensures var g := e.pending[p];
      Apply(cr, e, InsertKey(p, id, plain)).keys == e.keys <==>
        (exists i :: i in e.keys && e.keys[i].keyHash == cr.hash(plain))
        || (exists i :: i in e.keys && Active(e.keys[i]) && HeldBy(e.keys[i], g.userId, g.clientId))
  {
    var row := NewRow(cr, e.pending[p], plain);
    if Violates(e.keys, row) {
      var i :| i in e.keys && (e.keys[i].keyHash == row.keyHash ||
        (Active(e.keys[i]) && HeldBy(e.keys[i], row.userId, row.oauthClientId.value)));
    } else {
      assert id in e.keys[id := row] && id !in e.keys;
    }
  }

  // ---------------------------------------------------------------- whose tokens a client can revoke

  ghost predicate TouchesOnly(keys: Keys, after: Keys, clientId: string) {
    forall i :: i in keys && i in after && after[i] != keys[i] ==> keys[i].oauthClientId == Some(clientId)
  }

  /**
   * RFC 7009 lets a client revoke its own tokens, and the controller says so, but the statement looks the
   * token up by its hash alone. The revocation stays within the client exactly if the key was its own.
   */
  lemma RevokesOwnTokenIff(cr: Crypto, s: State, clientId: string, secret: string, token: string)
    requires Authentic(cr, s.clients, clientId, secret) && IsApiKey(token)
    ensures TouchesOnly(s.keys, Apply(cr, s, RevokeToken(clientId, secret, token)).keys, clientId)
      <==> forall i :: i in s.keys && s.keys[i].keyHash == cr.hash(token) && Active(s.keys[i])
                       ==> s.keys[i].oauthClientId == Some(clientId)
  {
    var after := RevokeByPlainKey(cr, s.keys, token, s.now);
    forall i | i in s.keys
      ensures i in after && (after[i] != s.keys[i] <==> s.keys[i].keyHash == cr.hash(token) && Active(s.keys[i]))
    {
    }
  }

  /** In any reachable state a revocation revokes one key at most, and the token is dead after it. */
  lemma RevocationTouchesOneKey(cr: Crypto, start: State, steps: seq<Step>, clientId: string, secret: string, token: string, i: nat, j: nat)
    requires Reaches(cr, start, steps) && Authentic(cr, After(cr, start, steps).clients, clientId, secret)
    ensures var s := After(cr, start, steps); var after := Apply(cr, s, RevokeToken(clientId, secret, token)).keys;
      && (i in s.keys && after[i] != s.keys[i] && j in s.keys && after[j] != s.keys[j] ==> i == j)
      && (forall now :: !Verifies(cr, after, token, now, i))
  {
    hide IsRun;
    var s := After(cr, start, steps);
    hide After;
    ReachableInv(cr, start, steps);
  }

  /** And it can be somebody else's: a registered client revokes a key that a user made by hand. */
  lemma RevokesAnothersKey(cr: Crypto, start: State)
    requires Init(start)
    ensures var row := KeyRow("user", "laptop", cr.hash("tk_x"), None, None, None);
      var steps := [Register("a", Client(cr.hash("s"), "A", ["https://a.example/callback"])), CreateManual(0, row)];
      Reaches(cr, start, steps) && var s := After(cr, start, steps);
      var after := Apply(cr, s, RevokeToken("a", "s", "tk_x")).keys;
      && s.keys == map[0 := row] && !TouchesOnly(s.keys, after, "a")
      && Verifies(cr, s.keys, "tk_x", s.now, 0) && !Verifies(cr, after, "tk_x", s.now, 0)
  {
    var row := KeyRow("user", "laptop", cr.hash("tk_x"), None, None, None);
    var register, create := Register("a", Client(cr.hash("s"), "A", ["https://a.example/callback"])), CreateManual(0, row);
    var s1 := start.(clients := map["a" := Client(cr.hash("s"), "A", ["https://a.example/callback"])]);
    assert Apply(cr, start, register) == s1;
    var s2 := s1.(keys := map[0 := row]);
    assert Apply(cr, s1, create) == s2;
    FirstStep(cr, s1, create, []);
    FirstStep(cr, start, register, [create] + []);
    assert [register] + ([create] + []) == [register, create];
    assert Authentic(cr, s2.clients, "a", "s");
  }

  // ---------------------------------------------------------------- the controller, in place

  datatype TokenReply = Token(plain: string) | Failed(error: OAuthError) | Conflict
  datatype ConfirmReply = Code(code: string) | AccessDenied | Rejected(error: OAuthError)

  datatype Exchange = Exchange(reply: TokenReply, codes: Memory, keys: Keys)

  /** A token request served alone: what the client hears, and what is left of the codes and the keys. */
  ghost function Exchanged(
      cr: Crypto, clients: Clients, codes: Memory, keys: Keys, r: TokenRequest, id: nat, plain: string, now: int): Exchange
  {
    var refusal := Refusal(cr, clients, r);
    if refusal.Some? then Exchange(Failed(refusal.value), codes, keys) else
    var found := Consumed(codes, r.code, now);
    if found.None? || !Matches(cr, found.value, r) then Exchange(Failed(InvalidGrant), codes - {r.code}, keys) else
    var retired := RetireOld(keys, found.value.userId, r.clientId, now);
    var row := KeyRow(found.value.userId, clients[r.clientId].name, cr.hash(plain), Some(r.clientId), None, None);
    if Violates(retired, row) then Exchange(Conflict, codes - {r.code}, retired)
    else Exchange(Token(plain), codes - {r.code}, retired[id := row])
  }

  function ExchangeSteps(reply: TokenReply, p: nat, r: TokenRequest, id: nat, plain: string, at: int): seq<Step> {
    if reply.Failed? then [Redeem(p, r, at)] else [Redeem(p, r, at), Retire(p), InsertKey(p, id, plain)]
  }

  lemma FirstStep(cr: Crypto, s: State, step: Step, rest: seq<Step>)
    requires Enabled(s, step) && IsRun(cr, Apply(cr, s, step), rest)
    ensures IsRun(cr, s, [step] + rest) && After(cr, s, [step] + rest) == After(cr, Apply(cr, s, step), rest)
  {
    hide Enabled, Apply;
    assert ([step] + rest)[1..] == rest;
  }

  function TokenOf(g: Pending, plain: string): Event {
    Issued(plain, g.userId, g.clientId, g.redirectUri, g.verifier, g.code, g.consumedAt)
  }

  /** The two writes of a request that passed its checks. */
  lemma IssuingPart(cr: Crypto, s: State, p: nat, id: nat, plain: string)
    requires p in s.pending && !s.pending[p].retired && id !in s.keys && IsApiKey(plain)
    ensures var g := s.pending[p]; var steps := [Retire(p), InsertKey(p, id, plain)];
      var retired := RetireOld(s.keys, g.userId, g.clientId, s.now);
      IsRun(cr, s, steps) && var e := After(cr, s, steps);
      && e.clients == s.clients && e.codes == s.codes && e.now == s.now && e.pending == s.pending - {p}
      && (if Violates(retired, NewRow(cr, g, plain)) then e.keys == retired && e.log == s.log
          else e.keys == retired[id := NewRow(cr, g, plain)] && e.log == s.log + [TokenOf(g, plain)])
  {
    hide Violates, IsApiKey;
    var g := s.pending[p];
    var retired := RetireOld(s.keys, g.userId, g.clientId, s.now);
    var s1 := s.(keys := retired, pending := s.pending[p := g.(retired := true)]);
    assert Apply(cr, s, Retire(p)) == s1;
    assert NewRow(cr, g.(retired := true), plain) == NewRow(cr, g, plain);
    var insert := InsertKey(p, id, plain);
    FirstStep(cr, s1, insert, []);
    FirstStep(cr, s, Retire(p), [insert] + []);
    assert [Retire(p)] + ([insert] + []) == [Retire(p), insert];
    assert s1.pending - {p} == s.pending - {p};
  }

  /** The reading half of an exchange is one step. */
  lemma RedeemMirrors(cr: Crypto, s: State, p: nat, r: TokenRequest, id: nat, plain: string, at: int)
    requires p !in s.pending
    ensures var x := Exchanged(cr, s.clients, s.codes, s.keys, r, id, plain, at); var s1 := DoRedeem(cr, s, p, r, at);
      && s1.clients == s.clients && s1.keys == s.keys && s1.log == s.log && s1.now == at && s1.codes == x.codes
      && (if x.reply.Failed? then x.keys == s.keys && s1.pending == s.pending else
          p in s1.pending && s1.pending - {p} == s.pending && var g := s1.pending[p];
          && !g.retired && g.clientId == r.clientId && g.redirectUri == r.redirectUri && g.verifier == r.verifier && g.code == r.code
          && var retired := RetireOld(s.keys, g.userId, g.clientId, at);
          if Violates(retired, NewRow(cr, g, plain)) then x.reply == Conflict && x.keys == retired
          else x.reply == Token(plain) && x.keys == retired[id := NewRow(cr, g, plain)])
  {
    hide Violates, Matches, RetireOld, Consumed;
    assert DoRedeem(cr, s, p, r, at).pending - {p} == s.pending;
  }

  /**
   * The controller's exchange is a run of the steps above, so what holds of every run holds of it: a token
   * comes out exactly when the run logs one, and codes and keys end the same.
   */
  lemma ExchangeIsARun(cr: Crypto, s: State, p: nat, r: TokenRequest, id: nat, plain: string, at: int)
    requires s.now <= at && p !in s.pending && id !in s.keys && IsApiKey(plain)
    ensures var x := Exchanged(cr, s.clients, s.codes, s.keys, r, id, plain, at);
      var steps := ExchangeSteps(x.reply, p, r, id, plain, at);
      IsRun(cr, s, steps) && var e := After(cr, s, steps);
      && e.clients == s.clients && e.codes == x.codes && e.keys == x.keys && e.pending == s.pending && e.now == at
      && (if x.reply.Token? then exists token :: e.log == s.log + [token] && IsTokenOf(token, x.reply, r) else e.log == s.log)
  {
    hide Violates, IsApiKey, RetireOld, DoRedeem, Exchanged, NewRow;
    var x := Exchanged(cr, s.clients, s.codes, s.keys, r, id, plain, at);
    var redeem := Redeem(p, r, at);
    var s1 := DoRedeem(cr, s, p, r, at);
    RedeemMirrors(cr, s, p, r, id, plain, at);
    assert Enabled(s, redeem) && Apply(cr, s, redeem) == s1;
    if x.reply.Failed? {
      FirstStep(cr, s, redeem, []);
      assert [redeem] + [] == [redeem];
    } else {
      IssuingPart(cr, s1, p, id, plain);
      hide IsRun, After, Apply, Enabled;
      var last := [Retire(p), InsertKey(p, id, plain)];
      FirstStep(cr, s, redeem, last);
      assert [redeem] + last == [redeem, Retire(p), InsertKey(p, id, plain)];
      if x.reply.Token? {
        assert IsTokenOf(TokenOf(s1.pending[p], plain), x.reply, r);
      }
    }
  }

  predicate IsTokenOf(e: Event, reply: TokenReply, r: TokenRequest) {
    reply.Token? && e.Issued? && e.token == reply.plain && e.clientId == r.clientId && e.redirectUri == r.redirectUri
    && e.verifier == r.verifier && e.code == r.code
  }

  lemma RoomIsLive(m: Memory, cap: int, sweptAt: int)
    ensures PutAccepted(m, cap, sweptAt) <==> |set c | c in m && m[c].expiresAt >= sweptAt| < cap
  {
    assert Swept(m, sweptAt).Keys == set c | c in m && m[c].expiresAt >= sweptAt;
    assert |Swept(m, sweptAt)| == |Swept(m, sweptAt).Keys|;
  }

  /** The request is in order and its code is the client's, alive, for this URI and this verifier. */
  predicate InOrder(cr: Crypto, clients: Clients, codes: Memory, r: TokenRequest, now: int) {
    && r.grantType == "authorization_code" && r.clientId != "" && r.clientSecret != ""
    && r.code != "" && r.verifier != "" && r.redirectUri != ""
    && r.clientId in clients && cr.hash(r.clientSecret) == clients[r.clientId].secretHash
    && r.code in codes && now <= codes[r.code].expiresAt
    && codes[r.code].value.clientId == r.clientId && codes[r.code].value.redirectUri == r.redirectUri
    && codes[r.code].value.codeChallenge == cr.s256(r.verifier) && codes[r.code].value.codeChallenge != ""
  }

  /** The key of the user whose consent the code stands for, under the client's name, without an end. */
  predicate IsKeyOf(cr: Crypto, k: KeyRow, clients: Clients, codes: Memory, r: TokenRequest, plain: string) {
    && r.code in codes && r.clientId in clients
    && k.userId == codes[r.code].value.userId && k.name == clients[r.clientId].name && k.keyHash == cr.hash(plain)
    && k.oauthClientId == Some(r.clientId) && k.expiresAt == None && k.revokedAt == None
  }

  /** A token comes out exactly for a request in order with a fresh key, and its row is the consenting user's. */
  lemma TokenIffInOrder(
      cr: Crypto, clients: Clients, codes: Memory, keys: Keys, r: TokenRequest, id: nat, plain: string, now: int)
    ensures var x := Exchanged(cr, clients, codes, keys, r, id, plain, now);
      && (x.reply.Token? <==> InOrder(cr, clients, codes, r, now) && forall i :: i in keys ==> keys[i].keyHash != cr.hash(plain))
      && (x.reply.Token? ==> x.reply.plain == plain && id in x.keys && IsKeyOf(cr, x.keys[id], clients, codes, r, plain))
      && (r.code in x.codes ==> Refusal(cr, clients, r).Some?)
  {
    if Refusal(cr, clients, r).None? && r.code in codes {
      var row := KeyRow(codes[r.code].value.userId, clients[r.clientId].name, cr.hash(plain), Some(r.clientId), None, None);
      RetiringMakesRoom(keys, row, now);
    }
    hide Violates, RetireOld;
  }

  class Server {
    const crypto: Crypto
    const store: Store
    var clients: Clients
    var keys: Keys

    constructor (crypto: Crypto, store: Store)
      ensures this.crypto == crypto && this.store == store && clients == map[] && keys == map[]
    {
      this.crypto := crypto;
      this.store := store;
      clients := map[];
      keys := map[];
    }

    method AuthorizeConfirm(userId: string, b: ConfirmBody, code: string, cap: int, sweptAt: int, storedAt: int)
      returns (reply: ConfirmReply)
      modifies store
      ensures var v := Confirm(clients, userId, b);
        && (v.Grant? ==> store.memory == AfterPut(old(store.memory), code, v.record, cap, sweptAt, storedAt))
        && (v.Grant? ==> reply == if PutAccepted(old(store.memory), cap, sweptAt) then Code(code) else Rejected(StoreFull))
        && (!v.Grant? ==> store.memory == old(store.memory))
        && (v.Denied? ==> reply == AccessDenied)
        && (v.Reject? ==> reply == Rejected(v.error))
      ensures reply.Code? <==> Consents(clients, b) && |set c | c in old(store.memory) && old(store.memory)[c].expiresAt >= sweptAt| < cap
      ensures reply.Code? ==> reply.code == code && code in store.memory && Records(store.memory[code].value, userId, b)
      ensures reply.Code? ==> store.memory[code].expiresAt == storedAt + 60000
      ensures forall c :: c in store.memory && !(reply.Code? && c == code) ==> c in old(store.memory) && store.memory[c] == old(store.memory)[c]
      ensures b.decision != Some("allow") ==> store.memory == old(store.memory) && (reply == AccessDenied || reply.Rejected?)
    {
      GrantIffConsents(clients, userId, b);
      RoomIsLive(store.memory, cap, sweptAt);
      if Blank(b.clientId) || Blank(b.redirectUri) { return Rejected(InvalidRequest); }
      if b.clientId.value !in clients { return Rejected(InvalidClient); }
      var client := clients[b.clientId.value];
      if b.redirectUri.value !in client.redirectUris { return Rejected(InvalidRedirectUri); }
      if b.decision != Some("allow") { return AccessDenied; }
      if Blank(b.codeChallenge) || Blank(b.codeChallengeMethod) { return Rejected(InvalidRequest); }
      if b.codeChallengeMethod != Some("S256") { return Rejected(InvalidRequest); }
      var record := CodeRecord(userId, b.clientId.value, b.redirectUri.value, b.codeChallenge.value,
                               if b.scope.Some? then b.scope.value else "*");
      var accepted := store.Put(code, record, cap, sweptAt, storedAt);
      reply := if accepted then Code(code) else Rejected(StoreFull);
    }

    /** The two writes of issueOAuthKey. */
    method IssueOAuthKey(userId: string, clientId: string, clientName: string, id: nat, plain: string, now: int)
      returns (reply: TokenReply)
      requires id !in keys
      modifies this`keys
      ensures var retired := RetireOld(old(keys), userId, clientId, now);
        var row := KeyRow(userId, clientName, crypto.hash(plain), Some(clientId), None, None);
        if Violates(retired, row) then reply == Conflict && keys == retired
        else reply == Token(plain) && keys == retired[id := row]
    {
      keys := RetireOld(keys, userId, clientId, now);
      var row := KeyRow(userId, clientName, crypto.hash(plain), Some(clientId), None, None);
      var rest := keys.Keys;
      while rest != {}
        invariant rest <= keys.Keys && keys == RetireOld(old(keys), userId, clientId, now)
        invariant forall i :: i in keys.Keys - rest ==> keys[i].keyHash != row.keyHash
        invariant forall i :: i in keys.Keys - rest && Active(keys[i]) ==> !HeldBy(keys[i], userId, clientId)
        decreases rest
      {
        var i :| i in rest;
        if keys[i].keyHash == row.keyHash || (Active(keys[i]) && HeldBy(keys[i], userId, clientId)) {
          assert Violates(keys, row);
          return Conflict;
        }
        rest := rest - {i};
      }
      assert !Violates(keys, row);
      keys := keys[id := row];
      reply := Token(plain);
    }

    method ExchangeCode(r: TokenRequest, id: nat, plain: string, now: int) returns (reply: TokenReply)
      requires id !in keys
      modifies store, this`keys
      ensures Exchange(reply, store.memory, keys) ==
        Exchanged(crypto, clients, old(store.memory), old(keys), r, id, plain, now)
      ensures reply.Token? <==>
        InOrder(crypto, clients, old(store.memory), r, now) && forall i :: i in old(keys) ==> old(keys)[i].keyHash != crypto.hash(plain)
      ensures reply.Token? ==>
        reply.plain == plain && id in keys && IsKeyOf(crypto, keys[id], clients, old(store.memory), r, plain)
    {
      TokenIffInOrder(crypto, clients, store.memory, keys, r, id, plain, now);
      if r.grantType != "authorization_code" { return Failed(UnsupportedGrantType); }
      if !Authentic(crypto, clients, r.clientId, r.clientSecret) { return Failed(InvalidClient); }
      if r.code == "" || r.verifier == "" || r.redirectUri == "" { return Failed(InvalidRequest); }
      var client := clients[r.clientId];
      var record := store.Consume(r.code, now);
      if record.None? { return Failed(InvalidGrant); }
      if record.value.clientId != r.clientId { return Failed(InvalidGrant); }
      if record.value.redirectUri != r.redirectUri { return Failed(InvalidGrant); }
      if !VerifyS256(crypto, r.verifier, record.value.codeChallenge) { return Failed(InvalidGrant); }
      reply := IssueOAuthKey(record.value.userId, r.clientId, client.name, id, plain, now);
    }

    method Revoke(clientId: string, secret: string, token: string, now: int) returns (ok: bool)
      modifies this`keys
      ensures ok == Authentic(crypto, clients, clientId, secret)
      ensures keys == if ok then RevokeByPlainKey(crypto, old(keys), token, now) else old(keys)
      ensures ok ==> forall t, i :: !Verifies(crypto, keys, token, t, i)
      ensures keys.Keys == old(keys).Keys
      ensures forall i :: i in keys ==>
        if ok && "tk_" <= token && old(keys)[i].revokedAt == None && old(keys)[i].keyHash == crypto.hash(token)
        then RevokedAt(keys[i], old(keys)[i], now) else keys[i] == old(keys)[i]
      ensures forall plain, t, i :: crypto.hash(plain) != crypto.hash(token) ==>
        (Verifies(crypto, keys, plain, t, i) <==> Verifies(crypto, old(keys), plain, t, i))
    {
      ok := Authentic(crypto, clients, clientId, secret);
      if ok {
        keys := RevokeByPlainKey(crypto, keys, token, now);
      }
    }
  }
}
