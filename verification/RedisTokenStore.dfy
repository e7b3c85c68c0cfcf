/** auth/token_store_redis.py as a class over the external keyspace. It keeps serialized snapshots:
    every lookup builds a new session object, so nothing a caller does to it reaches the store. */
module RedisTokenStore {
  import opened Prelude
  import opened Sessions
  import opened TokenStore
  import opened RedisKeys
  import opened RedisLive
  import Memory = InMemoryTokenStore
  import R = RedisSpec

  /** The keyspace became what `op` makes of it, deadlines included; and where it stood for a store,
      it stands for what `op` makes of that store. */
  ghost predicate Performs(v: R.Vault, ttl: nat, db: R.Db, db': R.Db, at: real, nonce: nat, op: Op) {
    && db' == R.Apply(v, ttl, db, at, nonce, op).0
    && forall st :: Stands(v, db, at, st) ==> Stands(v, db', at, OnRedis(st, at, op).0)
  }

  /** The answer is the one that store gives. */
  ghost predicate Answers(v: R.Vault, db: R.Db, at: real, op: Op, r: Result) {
    forall st :: Stands(v, db, at, st) ==> OnRedis(st, at, op).1 == r
  }

  lemma OperationPerforms(v: R.Vault, ttl: nat, db: R.Db, at: real, nonce: nat, op: Op)
    requires R.Lawful(v) && 0 < ttl && 0.0 < at
    ensures Performs(v, ttl, db, R.Apply(v, ttl, db, at, nonce, op).0, at, nonce, op)
    ensures Answers(v, db, at, op, R.Apply(v, ttl, db, at, nonce, op).1)
  {
    forall st | Stands(v, db, at, st)
      ensures Stands(v, R.Apply(v, ttl, db, at, nonce, op).0, at, OnRedis(st, at, op).0)
      ensures R.Apply(v, ttl, db, at, nonce, op).1 == OnRedis(st, at, op).1
    {
      OperationStands(v, ttl, db, st, at, nonce, op);
    }
  }

  class RedisTokenStore {
    const vault: R.Vault
    const clientTtl: nat
    var db: R.Db
    /** Counts encryptions; stands for the randomness each of them draws. */
    var nonce: nat

    constructor (vault: R.Vault, clientTtl: nat)
      requires R.Lawful(vault) && 0 < clientTtl
      ensures Valid() && forall at: real :: Stands(this.vault, db, at, EMPTY)
    {
      this.vault, this.clientTtl, db, nonce := vault, clientTtl, map[], 0;
      new;
      forall at: real ensures Stands(this.vault, db, at, EMPTY) {
        EmptyStands(this.vault, at);
      }
    }

    ghost predicate Valid() {
      R.Lawful(vault) && 0 < clientTtl
    }

    method SessionToDoc(s: UserSession) returns (doc: R.SessionDoc)
      modifies this`nonce
      ensures doc == R.ToDoc(vault, old(nonce), s.Value())
    {
      doc := R.SessionDoc(s.who.url, vault.seal(nonce, s.who.apiKey), s.who.userId, s.who.login, s.expiresAt);
      nonce := nonce + 1;
    }

    method SessionFromDoc(doc: R.SessionDoc) returns (s: Option<UserSession>)
      ensures R.FromDoc(vault, doc) == if s.Some? then Some(s.value.Value()) else None
      ensures s.Some? ==> fresh(s.value)
    {
      match vault.open(doc.sealedKey) {
        case None => return None;
        case Some(apiKey) =>
          var session := new UserSession(Identity(doc.url, apiKey, doc.userId, doc.login), doc.expiresAt);
          return Some(session);
      }
    }

    method PutSession(token: string, s: UserSession, read: real, at: real)
      requires Valid() && 0.0 < at
      modifies this
      ensures Performs(vault, clientTtl, old(db), db, at, old(nonce), Op.PutSession(token, s.Value(), read))
    {
      var doc := SessionToDoc(s);
      db := R.Set(db, Key(SessionKind, token), R.SessionPayload(doc), at, R.TtlFor(s.expiresAt, read));
      OperationPerforms(vault, clientTtl, old(db), at, old(nonce), Op.PutSession(token, s.Value(), read));
    }

    /** A record that cannot be read back, or whose own bound has passed, is deleted. */
    method GetSession(token: string, at: real) returns (s: Option<UserSession>)
      requires Valid() && 0.0 < at
      modifies this`db
      ensures Performs(vault, clientTtl, old(db), db, at, 0, Op.GetSession(token))
      ensures Answers(vault, old(db), at, Op.GetSession(token), Found(if s.Some? then Some(s.value.Value()) else None))
      ensures s.Some? ==> fresh(s.value)
    {
      var key := Key(SessionKind, token);
      var raw := R.Get(db, key, at);
      s := None;
      if raw.Some? {
        if raw.value.SessionPayload? {
          s := SessionFromDoc(raw.value.doc);
        }
        if s == None || s.value.IsExpired(None, at) {
          db := db - {key};
          s := None;
        }
      }
      OperationPerforms(vault, clientTtl, old(db), at, 0, Op.GetSession(token));
    }

    method DeleteSession(token: string, at: real)
      requires Valid() && 0.0 < at
      modifies this`db
      ensures Performs(vault, clientTtl, old(db), db, at, 0, Op.DeleteSession(token))
    {
      db := db - {Key(SessionKind, token)};
      OperationPerforms(vault, clientTtl, old(db), at, 0, Op.DeleteSession(token));
    }

    /** Expiry is left to the server. */
    method PurgeExpiredSessions(now: real, at: real) returns (n: nat)
      requires Valid() && 0.0 < at
      ensures n == 0 && Performs(vault, clientTtl, db, db, at, 0, Op.PurgeSessions(now))
      ensures Answers(vault, db, at, Op.PurgeSessions(now), Counted(n))
    {
      OperationPerforms(vault, clientTtl, db, at, 0, Op.PurgeSessions(now));
      return 0;
    }

    method PurgeExpiredCodes(now: real, at: real) returns (n: nat)
      requires Valid() && 0.0 < at
      ensures n == 0 && Performs(vault, clientTtl, db, db, at, 0, Op.PurgeCodes(now))
      ensures Answers(vault, db, at, Op.PurgeCodes(now), Counted(n))
    {
      OperationPerforms(vault, clientTtl, db, at, 0, Op.PurgeCodes(now));
      return 0;
    }

    method PutCode(code: string, e: CodeEntry<UserSession>, read: real, at: real)
      requires Valid() && 0.0 < at
      modifies this
      ensures Performs(vault, clientTtl, old(db), db, at, old(nonce), Op.PutCode(code, Memory.EntryValue(e), read))
    {
      var doc := SessionToDoc(e.session);
      var payload := R.CodePayload(doc, e.redirectUri, e.clientId, e.expiresAt, e.challenge);
      db := R.Set(db, Key(CodeKind, code), payload, at, R.TtlFor(e.expiresAt, read));
      OperationPerforms(vault, clientTtl, old(db), at, old(nonce), Op.PutCode(code, Memory.EntryValue(e), read));
    }

    /** GETDEL: read and removed in one command. */
    method PopCode(code: string, at: real) returns (e: Option<CodeEntry<UserSession>>)
      requires Valid() && 0.0 < at
      modifies this`db
      ensures Performs(vault, clientTtl, old(db), db, at, 0, Op.PopCode(code))
      ensures Answers(vault, old(db), at, Op.PopCode(code), Result.Taken(if e.Some? then Some(Memory.EntryValue(e.value)) else None))
      ensures e.Some? ==> fresh(e.value.session)
    {
      var key := Key(CodeKind, code);
      var raw := R.Get(db, key, at);
      e := None;
      if raw.Some? {
        db := db - {key};
        if raw.value.CodePayload? {
          var s := SessionFromDoc(raw.value.doc);
          if s.Some? {
            e := Some(CodeEntry(s.value, raw.value.redirectUri, raw.value.clientId, raw.value.expiresAt, raw.value.challenge));
          }
        }
      }
      OperationPerforms(vault, clientTtl, old(db), at, 0, Op.PopCode(code));
    }

    method PutClient(id: string, client: Client, at: real)
      requires Valid() && 0.0 < at
      modifies this`db
      ensures Performs(vault, clientTtl, old(db), db, at, 0, Op.PutClient(id, client))
    {
      db := R.Set(db, Key(ClientKind, id), R.ClientPayload(client), at, clientTtl);
      OperationPerforms(vault, clientTtl, old(db), at, 0, Op.PutClient(id, client));
    }

    method GetClient(id: string, at: real) returns (client: Option<Client>)
      requires Valid() && 0.0 < at
      ensures Answers(vault, db, at, Op.GetClient(id), Known(client))
    {
      var raw := R.Get(db, Key(ClientKind, id), at);
      client := if raw.Some? && raw.value.ClientPayload? then Some(raw.value.client) else None;
      OperationPerforms(vault, clientTtl, db, at, 0, Op.GetClient(id));
    }

    method PutRefresh(token: string, s: UserSession, read: real, at: real)
      requires Valid() && 0.0 < at
      modifies this
      ensures Performs(vault, clientTtl, old(db), db, at, old(nonce), Op.PutRefresh(token, s.Value(), read))
    {
      var doc := SessionToDoc(s);
      db := R.Set(db, Key(RefreshKind, token), R.SessionPayload(doc), at, R.TtlFor(s.expiresAt, read));
      OperationPerforms(vault, clientTtl, old(db), at, old(nonce), Op.PutRefresh(token, s.Value(), read));
    }

    method PopRefresh(token: string, at: real) returns (s: Option<UserSession>)
      requires Valid() && 0.0 < at
      modifies this`db
      ensures Performs(vault, clientTtl, old(db), db, at, 0, Op.PopRefresh(token))
      ensures Answers(vault, old(db), at, Op.PopRefresh(token), Found(if s.Some? then Some(s.value.Value()) else None))
      ensures s.Some? ==> fresh(s.value)
    {
      var key := Key(RefreshKind, token);
      var raw := R.Get(db, key, at);
      s := None;
      if raw.Some? {
        db := db - {key};
        if raw.value.SessionPayload? {
          s := SessionFromDoc(raw.value.doc);
        }
        if s.Some? && s.value.IsExpired(None, at) {
          s := None;
        }
      }
      OperationPerforms(vault, clientTtl, old(db), at, 0, Op.PopRefresh(token));
    }

    /** INCR then EXPIRE NX, in one pipeline. */
    method IncrRate(key: string, seconds: int, at: real) returns (count: nat)
      requires Valid() && 0.0 < at
      modifies this`db
      ensures Performs(vault, clientTtl, old(db), db, at, 0, Op.IncrRate(key, seconds))
      ensures Answers(vault, old(db), at, Op.IncrRate(key, seconds), Counted(count))
    {
      var (bumped, n) := R.Incr(db, Key(RateKind, key), at);
      db, count := R.ExpireNx(bumped, Key(RateKind, key), seconds, at), n;
      OperationPerforms(vault, clientTtl, old(db), at, 0, Op.IncrRate(key, seconds));
    }
  }
}
