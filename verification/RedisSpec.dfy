/** auth/token_store_redis.py on values: one flat map from strings to serialized payloads with
    server-side deadlines. A key is invisible from its deadline on. */
module RedisSpec {
  import opened Prelude
  import opened Sessions
  import opened TokenStore
  import opened RedisKeys

  /** The JSON form of a session; only the API key is encrypted. */
  datatype SessionDoc = SessionDoc(url: string, sealedKey: string, userId: int, login: string, expiresAt: real)

  datatype Payload =
    | SessionPayload(doc: SessionDoc)
    | CodePayload(doc: SessionDoc, redirectUri: string, clientId: string, expiresAt: real, challenge: string)
    | ClientPayload(client: Client)
    | Counter(n: nat)

  datatype Cell = Cell(payload: Payload, deadline: Option<real>)

  type Db = map<string, Cell>

  /** Fernet. Encryption takes a nonce because it is randomized; decryption may fail. */
  datatype Vault = Vault(seal: (nat, string) -> string, open: string -> Option<string>)

  /** decrypt(encrypt(x)) = x. */
  ghost predicate Lawful(v: Vault) {
    forall nonce, x :: v.open(v.seal(nonce, x)) == Some(x)
  }

  function ToDoc(v: Vault, nonce: nat, s: Session): SessionDoc {
    SessionDoc(s.who.url, v.seal(nonce, s.who.apiKey), s.who.userId, s.who.login, s.expiresAt)
  }

  function FromDoc(v: Vault, d: SessionDoc): Option<Session> {
    match v.open(d.sealedKey)
    case None => None
    case Some(apiKey) => Some(Session(Identity(d.url, apiKey, d.userId, d.login), d.expiresAt))
  }

  function FromPayload(v: Vault, p: Payload): Option<Session> {
    if p.SessionPayload? then FromDoc(v, p.doc) else None
  }

  function ToCodePayload(v: Vault, nonce: nat, e: CodeEntry<Session>): Payload {
    CodePayload(ToDoc(v, nonce, e.session), e.redirectUri, e.clientId, e.expiresAt, e.challenge)
  }

  function FromCodePayload(v: Vault, p: Payload): Option<CodeEntry<Session>> {
    if !p.CodePayload? then None else
      match FromDoc(v, p.doc)
      case None => None
      case Some(s) => Some(CodeEntry(s, p.redirectUri, p.clientId, p.expiresAt, p.challenge))
  }

  /** Serializing loses nothing, whatever nonce the encryption drew. */
  lemma DocRoundTrip(v: Vault, nonce: nat, s: Session, e: CodeEntry<Session>)
    requires Lawful(v)
    ensures FromPayload(v, SessionPayload(ToDoc(v, nonce, s))) == Some(s)
    ensures FromCodePayload(v, ToCodePayload(v, nonce, e)) == Some(e)
  {
    assert v.open(v.seal(nonce, s.who.apiKey)) == Some(s.who.apiKey);
    assert v.open(v.seal(nonce, e.session.who.apiKey)) == Some(e.session.who.apiKey);
  }

  /** Python's `int(x)` rounds toward zero. */
  function Truncate(x: real): int {
    if x >= 0.0 then x.Floor else -((-x).Floor)
  }

  /** `_ttl_for`: whole seconds, and never less than one. */
  function TtlFor(expiresAt: real, read: real): int {
    var seconds := Truncate(expiresAt - read);
    if seconds > 1 then seconds else 1
  }

  /** The server-side deadline of a write read at `read` that lands at `at`. */
  function Deadline(expiresAt: real, read: real, at: real): real {
    at + TtlFor(expiresAt, read) as real
  }

  /** The TTL is the whole seconds left at the reading, and at least one. So truncation costs less than a second:
      a key never vanishes a full second early, and it outlives its record only through the one-second minimum
      or a late write. */
  lemma DeadlineSlack(expiresAt: real, read: real, at: real)
    requires read <= at
    ensures expiresAt - 1.0 < Deadline(expiresAt, read, at)
    ensures at + 1.0 <= Deadline(expiresAt, read, at)
    ensures read + 1.0 <= expiresAt ==> Deadline(expiresAt, read, at) <= expiresAt + (at - read)
    ensures var n := TtlFor(expiresAt, read);
            && Deadline(expiresAt, read, at) == at + n as real
            && if expiresAt - read < 2.0 then n == 1 else n as real <= expiresAt - read < (n + 1) as real
  {
  }

  // ---------------------------------------------------------------------------------------
  // The Redis commands the store issues.
  // ---------------------------------------------------------------------------------------

  predicate Visible(db: Db, key: string, at: real) {
    key in db && (db[key].deadline.None? || at < db[key].deadline.value)
  }

  function Get(db: Db, key: string, at: real): Option<Payload> {
    if Visible(db, key, at) then Some(db[key].payload) else None
  }

  function Set(db: Db, key: string, p: Payload, at: real, ex: int): Db {
    db[key := Cell(p, Some(at + ex as real))]
  }

  function Incr(db: Db, key: string, at: real): (Db, nat) {
    if Visible(db, key, at) && db[key].payload.Counter? then
      (db[key := Cell(Counter(db[key].payload.n + 1), db[key].deadline)], db[key].payload.n + 1)
    else
      (db[key := Cell(Counter(1), None)], 1)
  }

  function ExpireNx(db: Db, key: string, seconds: int, at: real): Db {
    if Visible(db, key, at) && db[key].deadline.None? then
      db[key := db[key].(deadline := Some(at + seconds as real))]
    else db
  }

  // ---------------------------------------------------------------------------------------
  // RedisTokenStore's methods.
  // ---------------------------------------------------------------------------------------

  function PutSessionAs(v: Vault, db: Db, kind: Kind, token: string, s: Session, read: real, at: real, nonce: nat): Db {
    Set(db, Key(kind, token), SessionPayload(ToDoc(v, nonce, s)), at, TtlFor(s.expiresAt, read))
  }

  /** A record that cannot be decrypted, or whose own bound has passed, is deleted and refused. */
  function GetSession(v: Vault, db: Db, token: string, at: real): (Db, Option<Session>) {
    var key := Key(SessionKind, token);
    match Get(db, key, at)
    case None => (db, None)
    case Some(p) =>
      match FromPayload(v, p)
      case None => (db - {key}, None)
      case Some(s) => if Expired(s, at) then (db - {key}, None) else (db, Some(s))
  }

  function PopRefresh(v: Vault, db: Db, token: string, at: real): (Db, Option<Session>) {
    var key := Key(RefreshKind, token);
    match Get(db, key, at)
    case None => (db, None)
    case Some(p) =>
      match FromPayload(v, p)
      case None => (db - {key}, None)
      case Some(s) => (db - {key}, if Expired(s, at) then None else Some(s))
  }

  function PutCode(v: Vault, db: Db, code: string, e: CodeEntry<Session>, read: real, at: real, nonce: nat): Db {
    Set(db, Key(CodeKind, code), ToCodePayload(v, nonce, e), at, TtlFor(e.expiresAt, read))
  }

  function PopCode(v: Vault, db: Db, code: string, at: real): (Db, Option<CodeEntry<Session>>) {
    var key := Key(CodeKind, code);
    match Get(db, key, at)
    case None => (db, None)
    case Some(p) => (db - {key}, FromCodePayload(v, p))
  }

  function GetClient(db: Db, id: string, at: real): Option<Client> {
    match Get(db, Key(ClientKind, id), at)
    case None => None
    case Some(p) => if p.ClientPayload? then Some(p.client) else None
  }

  /** The INCR + EXPIRE NX pipeline, executed as one step. */
  function IncrRate(db: Db, key: string, seconds: int, at: real): (Db, nat) {
    var (bumped, n) := Incr(db, Key(RateKind, key), at);
    (ExpireNx(bumped, Key(RateKind, key), seconds, at), n)
  }

  /** The same operations as `TokenStore.Store.Apply`; purges leave expiry to the server. */
  function Apply(v: Vault, clientTtl: nat, db: Db, at: real, nonce: nat, op: Op): (Db, Result) {
    match op
    case PutSession(token, s, read) => (PutSessionAs(v, db, SessionKind, token, s, read, at, nonce), Done)
    case GetSession(token) => var (d, r) := GetSession(v, db, token, at); (d, Found(r))
    case DeleteSession(token) => (db - {Key(SessionKind, token)}, Done)
    case PurgeSessions(_) => (db, Counted(0))
    case PutCode(code, e, read) => (PutCode(v, db, code, e, read, at, nonce), Done)
    case PopCode(code) => var (d, r) := PopCode(v, db, code, at); (d, Taken(r))
    case PurgeCodes(_) => (db, Counted(0))
    case PutClient(id, client) => (Set(db, Key(ClientKind, id), ClientPayload(client), at, clientTtl), Done)
    case GetClient(id) => (db, Known(GetClient(db, id, at)))
    case PutRefresh(token, s, read) => (PutSessionAs(v, db, RefreshKind, token, s, read, at, nonce), Done)
    case PopRefresh(token) => var (d, r) := PopRefresh(v, db, token, at); (d, Found(r))
    case IncrRate(key, seconds) => var (d, n) := IncrRate(db, key, seconds, at); (d, Counted(n))
  }

  /** The keyspace after a log of operations; the position in the log serves as the nonce. */
  function Replay(v: Vault, clientTtl: nat, ops: seq<Timed>): Db {
    if ops == [] then map[]
    else Apply(v, clientTtl, Replay(v, clientTtl, ops[..|ops| - 1]), ops[|ops| - 1].at, |ops|, ops[|ops| - 1].op).0
  }

  function Answer(v: Vault, clientTtl: nat, ops: seq<Timed>, at: real, op: Op): Result {
    Apply(v, clientTtl, Replay(v, clientTtl, ops), at, |ops| + 1, op).1
  }

  // ---------------------------------------------------------------------------------------
  // Non-interference: an operation writes only its own key.
  // ---------------------------------------------------------------------------------------

  /** The kind and name of the only key an operation may change. */
  function Target(op: Op): Option<(Kind, string)> {
    match op
    case PutSession(token, _, _) => Some((SessionKind, token))
    case GetSession(token) => Some((SessionKind, token))
    case DeleteSession(token) => Some((SessionKind, token))
    case PurgeSessions(_) => None
    case PutCode(code, _, _) => Some((CodeKind, code))
    case PopCode(code) => Some((CodeKind, code))
    case PurgeCodes(_) => None
    case PutClient(id, _) => Some((ClientKind, id))
    case GetClient(_) => None
    case PutRefresh(token, _, _) => Some((RefreshKind, token))
    case PopRefresh(token) => Some((RefreshKind, token))
    case IncrRate(key, _) => Some((RateKind, key))
  }

  ghost predicate SameCell(d1: Db, d2: Db, key: string) {
    && (key in d1 <==> key in d2)
    && (key in d1 ==> d1[key] == d2[key])
  }

  /** The single flat keyspace behaves as five independent maps: an operation leaves every key of
      another kind, and every other key of its own kind, exactly as it was. */
  lemma OnlyTargetChanges(v: Vault, clientTtl: nat, db: Db, at: real, nonce: nat, op: Op, kind: Kind, name: string)
    requires Target(op) != Some((kind, name))
    ensures SameCell(Apply(v, clientTtl, db, at, nonce, op).0, db, Key(kind, name))
  {
    if Target(op).Some? {
      KeysDoNotCollide(Target(op).value.0, Target(op).value.1, kind, name);
    }
  }
}
