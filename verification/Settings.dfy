/**
 * Settings (settings/settings.service.ts): a 60 s cache over a two-level lookup, an account row before a
 * global row before a default. A get that misses awaits one database read or two, so gets and sets interleave.
 */
module Settings {
  import opened Options

  // ---------------------------------------------------------------- values and their text

  /**
   * JavaScript values by the branches of inferType. `Json` stands for an object that JSON.parse can produce: a
   * Date, an object with an undefined member, a bigint and a function have no value here.
   */
  datatype Value =
    | Number(n: int) | NonFinite | Boolean(b: bool) | Json(text: string) | Text(s: string) | Null | Undefined

  datatype Kind = KString | KNumber | KBoolean | KJson

  /** String(value), JSON.stringify, Number(raw) and JSON.parse, as far as they are not spelled out here. */
  datatype Codec = Codec(
    showNumber: int -> string, readNumber: string -> Option<int>,
    showNonFinite: string, stringify: string -> string, parseJson: string -> Option<string>)

  ghost predicate Faithful(c: Codec) {
    && (forall n :: c.readNumber(c.showNumber(n)) == Some(n))
    && c.readNumber(c.showNonFinite) == None
    && (forall t :: c.parseJson(c.stringify(t)) == Some(t))
  }

  datatype Stored = Stored(raw: string, kind: Kind)

  function InferType(v: Value): Kind {
    match v
    case Number(_) => KNumber
    case NonFinite => KNumber
    case Boolean(_) => KBoolean
    case Json(_) => KJson
    case _ => KString
  }

  function Encode(c: Codec, v: Value): Stored {
    Stored(
      match v
      case Number(n) => c.showNumber(n)
      case NonFinite => c.showNonFinite
      case Boolean(b) => if b then "true" else "false"
      case Json(t) => c.stringify(t)
      case Text(s) => s
      case Null => "null"
      case Undefined => "undefined",
      InferType(v))
  }

  function ParseValue(c: Codec, st: Stored): Value {
    match st.kind
    case KNumber => (match c.readNumber(st.raw) case Some(n) => Number(n) case None => Number(0))
    case KBoolean => Boolean(st.raw == "true" || st.raw == "1")
    case KJson => (match c.parseJson(st.raw) case Some(t) => Json(t) case None => Null)
    case KString => Text(st.raw)
  }

  /** What was stored comes back, exactly for the values that have a text of their own. */
  lemma StoredComesBackIff(c: Codec, v: Value)
    requires Faithful(c)
    ensures ParseValue(c, Encode(c, v)) == v <==> v != Null && v != Undefined && v != NonFinite
  {
    assert "false"[0] != "true"[0] && "false"[0] != "1"[0];
  }

  // ---------------------------------------------------------------- the lookup

  /** Primary key (key, account_id); the global level is the empty account. */
  type Db = map<(string, string), Stored>

  const DEFAULTS: map<string, Value> :=
    map["max_attempts" := Number(3), "reply_delay_ms" := Number(10000), "content_memory_max" := Number(500)]

  function Default(key: string, fallback: Value): Value { if key in DEFAULTS then DEFAULTS[key] else fallback }

  function RowOf(c: Codec, db: Db, key: string, account: string): Option<Value> {
    if (key, account) in db then Some(ParseValue(c, db[(key, account)])) else None
  }

  /** Account row, then global row. */
  function Found(c: Codec, db: Db, key: string, account: string): Option<Value> {
    if account != "" && (key, account) in db then RowOf(c, db, key, account) else RowOf(c, db, key, "")
  }

  function OrDefault(v: Option<Value>, key: string, fallback: Value): Value {
    if v.Some? then v.value else Default(key, fallback)
  }

  function Resolved(c: Codec, db: Db, key: string, account: string, fallback: Value): Value {
    OrDefault(Found(c, db, key, account), key, fallback)
  }

  /** An account's own row wins over the global row, that over the built-in default, and that over the fallback. */
  lemma Precedence(c: Codec, db: Db, key: string, account: string, fallback: Value)
    ensures account != "" && (key, account) in db ==> Resolved(c, db, key, account, fallback) == ParseValue(c, db[(key, account)])
    ensures !(account != "" && (key, account) in db) && (key, "") in db ==>
      Resolved(c, db, key, account, fallback) == ParseValue(c, db[(key, "")])
    ensures !(account != "" && (key, account) in db) && (key, "") !in db ==>
      Resolved(c, db, key, account, fallback) ==
        if key == "max_attempts" then Number(3) else if key == "reply_delay_ms" then Number(10000)
        else if key == "content_memory_max" then Number(500) else fallback
  {
  }

  /** The texts themselves: what is written for each kind of value, and what is made of any text. */
  lemma StoredForms(c: Codec, raw: string, n: int, t: string)
    ensures Encode(c, Boolean(true)) == Stored("true", KBoolean) && Encode(c, Boolean(false)) == Stored("false", KBoolean)
    ensures Encode(c, Text(t)) == Stored(t, KString) && Encode(c, Null) == Stored("null", KString)
    ensures Encode(c, Undefined) == Stored("undefined", KString)
    ensures Encode(c, Number(n)) == Stored(c.showNumber(n), KNumber) && Encode(c, Json(t)) == Stored(c.stringify(t), KJson)
    ensures ParseValue(c, Stored(raw, KBoolean)) == Boolean(raw == "true" || raw == "1")
    ensures ParseValue(c, Stored(raw, KString)) == Text(raw)
    ensures c.readNumber(raw) == None ==> ParseValue(c, Stored(raw, KNumber)) == Number(0)
    ensures c.parseJson(raw) == None ==> ParseValue(c, Stored(raw, KJson)) == Null
  {
  }

  // ---------------------------------------------------------------- cache keys

  function CacheKey(key: string, account: string): string {
    if account != "" then account + ":" + key else key
  }

  predicate ColonFree(s: string) { ':' !in s }

  /** In an account's cache key the last colon ends the account id. */
  lemma LastColon(key: string, account: string)
    requires ColonFree(key) && account != ""
    ensures var s := CacheKey(key, account);
      && |s| > |account| && s[|account|] == ':' && s[..|account|] == account && s[|account| + 1..] == key
      && forall i :: |account| < i < |s| ==> s[i] != ':'
  {
    var s := CacheKey(key, account);
    forall i | |account| < i < |s|
      ensures s[i] == key[i - |account| - 1] && s[i] != ':'
    {
      assert key[i - |account| - 1] in key;
    }
  }

  /** Colon-free keys make the cache key unambiguous, whatever the account ids contain. */
  lemma CacheKeyInjective(k1: string, a1: string, k2: string, a2: string)
    requires ColonFree(k1) && ColonFree(k2) && CacheKey(k1, a1) == CacheKey(k2, a2)
    ensures k1 == k2 && a1 == a2
  {
    if a1 != "" {
      LastColon(k1, a1);
    }
    if a2 != "" {
      LastColon(k2, a2);
    }
  }

  /** A global key with a colon inside shares its entry with some account's key. */
  lemma ColonsCollide(x: string, y: string)
    requires x != ""
    ensures CacheKey(x + ":" + y, "") == CacheKey(y, x)
  {
  }

  // ---------------------------------------------------------------- the cache

  datatype Cached = Cached(value: Value, cachedAt: int)

  type Cache = map<string, Cached>

  const CACHE_TTL_MS := 60000

  datatype Served = Served(value: Value, cache: Cache)

  /** A get served alone: from the cache within the minute, else resolved, and cached if a row was found. */
  function Got(c: Codec, db: Db, cache: Cache, key: string, fallback: Value, account: string, now: int): Served {
    var ck := CacheKey(key, account);
    var found := Found(c, db, key, account);
    if ck in cache && now - cache[ck].cachedAt < CACHE_TTL_MS then Served(cache[ck].value, cache)
    else Served(Resolved(c, db, key, account, fallback),
                if found.Some? then cache[ck := Cached(found.value, now)] else cache)
  }

  function Cleared(cache: Cache, key: string, account: string): Cache {
    if key == "" then map[] else cache - {CacheKey(key, account)}
  }

  predicate EntryAsBefore(before: Cache, after: Cache, key: string, account: string) {
    var ck := CacheKey(key, account);
    (ck in after <==> ck in before) && (ck in after ==> after[ck] == before[ck])
  }

  ghost predicate OthersStayCached(before: Cache, after: Cache, key: string, account: string) {
    forall k, a :: ColonFree(k) && !(k == key && a == account) ==> EntryAsBefore(before, after, k, a)
  }

  /** Clearing a pair with a colon-free key costs no other pair its entry. */
  lemma OthersKeepTheirEntries(cache: Cache, key: string, account: string)
    requires ColonFree(key) && key != ""
    ensures OthersStayCached(cache, Cleared(cache, key, account), key, account)
  {
    forall k, a | ColonFree(k) && !(k == key && a == account)
      ensures EntryAsBefore(cache, Cleared(cache, key, account), k, a)
    {
      if CacheKey(k, a) == CacheKey(key, account) {
        CacheKeyInjective(k, a, key, account);
      }
    }
  }

  // ---------------------------------------------------------------- the service, in place

  class Service {
    const codec: Codec
    var db: Db
    var cache: map<string, Cached>

    constructor (codec: Codec, db: Db)
      ensures this.codec == codec && this.db == db && cache == map[]
    {
      this.codec := codec;
      this.db := db;
      cache := map[];
    }

    method GetValue(key: string, fallback: Value, account: string, now: int) returns (value: Value)
      modifies this`cache
      ensures Served(value, cache) == Got(codec, db, old(cache), key, fallback, account, now)
      ensures var ck := CacheKey(key, account); var own := account != "" && (key, account) in db;
        if ck in old(cache) && now - old(cache)[ck].cachedAt < 60000 then value == old(cache)[ck].value && cache == old(cache)
        else if own || (key, "") in db then
          value == ParseValue(codec, db[(key, if own then account else "")]) && cache == old(cache)[ck := Cached(value, now)]
        else cache == old(cache) && value == Resolved(codec, map[], key, "", fallback)
    {
      var ck := CacheKey(key, account);
      if ck in cache && now - cache[ck].cachedAt < CACHE_TTL_MS {
        return cache[ck].value;
      }
      var row: Option<Stored> := None;
      if account != "" && (key, account) in db {
        row := Some(db[(key, account)]);
      }
      if row.None? && (key, "") in db {
        row := Some(db[(key, "")]);
      }
      if row.None? {
        return if key in DEFAULTS then DEFAULTS[key] else fallback;
      }
      value := ParseValue(codec, row.value);
      cache := cache[ck := Cached(value, now)];
    }

    /** The pair resolves to what its row now says, no other row moved, and no other pair lost its entry. */
    method SetValue(key: string, value: Value, account: string)
      modifies this
      ensures db == old(db)[(key, account) := Encode(codec, value)]
      ensures cache == Cleared(old(cache), key, account)
      ensures Found(codec, db, key, account) == Some(ParseValue(codec, Encode(codec, value)))
      ensures CacheKey(key, account) !in cache
      ensures forall k, a :: !(k == key && (a == account || account == "")) ==> Found(codec, db, k, a) == Found(codec, old(db), k, a)
      ensures ColonFree(key) && key != "" ==> OthersStayCached(old(cache), cache, key, account)
    {
      db := db[(key, account) := Encode(codec, value)];
      InvalidateCache(key, account);
    }

    /** Without a key everything goes; else one entry, which among colon-free keys is this pair's alone. */
    method InvalidateCache(key: string, account: string)
      modifies this`cache
      ensures cache == Cleared(old(cache), key, account)
      ensures CacheKey(key, account) !in cache && (key == "" ==> cache == map[])
      ensures ColonFree(key) && key != "" ==> OthersStayCached(old(cache), cache, key, account)
    {
      if ColonFree(key) && key != "" {
        OthersKeepTheirEntries(cache, key, account);
      }
      if key == "" {
        cache := map[];
        return;
      }
      cache := cache - {CacheKey(key, account)};
    }
  }
}
