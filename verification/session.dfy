/** The session identity provider of `lib/session.ts`. Browser local storage
    is a map from keys to strings; the server-side render (no `window`) is a
    separate environment in which nothing is stored. `crypto.randomUUID()` is
    an input: the caller supplies the id it would have returned. */
module Session {

  const SessionKey := "rag_session_id"

  /** A `crypto.randomUUID()` result: always 36 characters, never empty. */
  type Uuid = s: string | |s| == 36 witness "00000000-0000-0000-0000-000000000000"

  datatype Env = Server | Browser(storage: map<string, string>)

  /** The id a call returned and the environment after it. */
  datatype Issued = Issued(id: string, env: Env)

  /** The value stored under the session key, if any. */
  function Stored(env: Env): string
    requires env.Browser?
  {
    if SessionKey in env.storage then env.storage[SessionKey] else ""
  }

  /** `getOrCreateSessionId()`: returns the stored id when one is stored and
      non-empty; otherwise stores `uuid` under the session key and returns it.
      Without a `window` it returns "" and touches nothing. */
  function GetOrCreateSessionId(env: Env, uuid: Uuid): (r: Issued)
    ensures env.Server? ==> r == Issued("", env)
    ensures env.Browser? && Stored(env) != "" ==> r == Issued(Stored(env), env)
    ensures env.Browser? && Stored(env) == "" ==>
              r.id == uuid && r.env.Browser? && r.env.storage == env.storage[SessionKey := uuid]
  {
    match env
    case Server => Issued("", env)
    case Browser(storage) =>
      if SessionKey in storage && storage[SessionKey] != "" then Issued(storage[SessionKey], env)
      else Issued(uuid, Browser(storage[SessionKey := uuid]))
  }

  /** `resetSessionId()`: unconditionally stores `uuid` and returns it (or
      returns "" without a `window`). */
  function ResetSessionId(env: Env, uuid: Uuid): (r: Issued)
    ensures env.Server? ==> r == Issued("", env)
    ensures env.Browser? ==> r.id == uuid && r.env.Browser? && Stored(r.env) == uuid
    ensures env.Browser? ==> forall k :: k != SessionKey ==>
              (k in r.env.storage <==> k in env.storage) &&
              (k in env.storage ==> r.env.storage[k] == env.storage[k])
  {
    match env
    case Server => Issued("", env)
    case Browser(storage) => Issued(uuid, Browser(storage[SessionKey := uuid]))
  }

  /** Neither call touches any key but the session key. */
  lemma OnlySessionKeyWritten(env: Env, uuid: Uuid, k: string)
    requires env.Browser? && k != SessionKey
    ensures var g := GetOrCreateSessionId(env, uuid).env;
            g.Browser? && (k in g.storage <==> k in env.storage) &&
            (k in env.storage ==> g.storage[k] == env.storage[k])
  {
  }

  /** A browser call always yields a usable, non-empty id. */
  lemma BrowserIdNonEmpty(env: Env, uuid: Uuid)
    requires env.Browser?
    ensures GetOrCreateSessionId(env, uuid).id != ""
    ensures ResetSessionId(env, uuid).id != ""
  {
  }

  /** `getOrCreateSessionId` is idempotent: a second call returns the id of the
      first, whatever uuid it is offered, and stores nothing new. */
  lemma GetOrCreateIdempotent(env: Env, uuid1: Uuid, uuid2: Uuid)
    ensures var first := GetOrCreateSessionId(env, uuid1);
            var second := GetOrCreateSessionId(first.env, uuid2);
            second.id == first.id && second.env == first.env
  {
  }

  /** After a reset, `getOrCreateSessionId` returns the id the reset issued. */
  lemma ResetThenGet(env: Env, uuid1: Uuid, uuid2: Uuid)
    ensures var reset := ResetSessionId(env, uuid1);
            var got := GetOrCreateSessionId(reset.env, uuid2);
            got.id == reset.id && got.env == reset.env
  {
  }
}
