/** Redis as a backend of the grant steps: at every instant the keyspace stands for a store, each
    operation does to it what the in-memory operation does, and time takes records away. */
module RedisLive {
  import opened Prelude
  import opened Sessions
  import opened TokenStore
  import opened RedisKeys
  import opened RedisRefinement
  import opened Grants
  import R = RedisSpec

  /** What a reader at `at` finds under a key of each kind. */
  function LiveSession(v: R.Vault, db: R.Db, kind: Kind, token: string, at: real): Option<Session> {
    var p := R.Get(db, Key(kind, token), at);
    if p.Some? then R.FromPayload(v, p.value) else None
  }

  function LiveCode(v: R.Vault, db: R.Db, code: string, at: real): Option<CodeEntry<Session>> {
    var p := R.Get(db, Key(CodeKind, code), at);
    if p.Some? then R.FromCodePayload(v, p.value) else None
  }

  function Find<V>(m: map<string, V>, key: string): Option<V> {
    if key in m then Some(m[key]) else None
  }

  /** At the instant `at`, the visible keys are exactly the records of `st`. */
  ghost predicate Stands(v: R.Vault, db: R.Db, at: real, st: Store) {
    forall key: string :: StandsAt(v, db, at, st, key)
  }

  ghost predicate StandsAt(v: R.Vault, db: R.Db, at: real, st: Store, key: string) {
    && Find(st.sessions, key) == LiveSession(v, db, SessionKind, key, at)
    && Find(st.refresh, key) == LiveSession(v, db, RefreshKind, key, at)
    && Find(st.codes, key) == LiveCode(v, db, key, at)
    && Find(st.clients, key) == R.GetClient(db, key, at)
    && SameCounter(db, st.rate, key)
  }

  lemma EmptyStands(v: R.Vault, at: real)
    ensures Stands(v, map[], at, EMPTY)
  {
    forall key: string ensures StandsAt(v, map[], at, EMPTY, key) {
    }
  }

  /** What time takes between two instants. */
  function Vanished(v: R.Vault, db: R.Db, st: Store, at: real): Gone {
    Gone(set t | t in st.sessions && LiveSession(v, db, SessionKind, t, at) == None,
         set c | c in st.codes && LiveCode(v, db, c, at) == None,
         set id | id in st.clients && R.GetClient(db, id, at) == None,
         set t | t in st.refresh && LiveSession(v, db, RefreshKind, t, at) == None)
  }

  /** Time does nothing to the keyspace but take visible records away. */
  lemma TimeTakes(v: R.Vault, db: R.Db, st: Store, at: real, later: real)
    requires Stands(v, db, at, st) && at <= later
    ensures Stands(v, db, later, Drop(st, Vanished(v, db, st, later)))
  {
    forall key: string ensures StandsAt(v, db, later, Drop(st, Vanished(v, db, st, later)), key) {
      assert StandsAt(v, db, at, st, key);
      TimeTakesAt(v, db, st, at, later, key);
    }
  }

  lemma TimeTakesAt(v: R.Vault, db: R.Db, st: Store, at: real, later: real, key: string)
    requires StandsAt(v, db, at, st, key) && at <= later
    ensures StandsAt(v, db, later, Drop(st, Vanished(v, db, st, later)), key)
  {
    VisibilityEnds(db, Key(SessionKind, key), at, later);
    VisibilityEnds(db, Key(RefreshKind, key), at, later);
    VisibilityEnds(db, Key(CodeKind, key), at, later);
    VisibilityEnds(db, Key(ClientKind, key), at, later);
  }

  lemma VisibilityEnds(db: R.Db, key: string, at: real, later: real)
    requires at <= later
    ensures R.Get(db, key, later) == None || R.Get(db, key, later) == R.Get(db, key, at)
  {
  }

  /** What an operation does to the store that Redis stands for: purges leave expiry to the server. */
  function OnRedis(st: Store, at: real, op: Op): (Store, Result) {
    if IsPurge(op) then (st, Counted(0)) else st.Apply(at, op)
  }

  /** Every operation answers like the store it stands for, and goes on standing for what that becomes. */
  lemma OperationStands(v: R.Vault, ttl: nat, db: R.Db, st: Store, at: real, nonce: nat, op: Op)
    requires R.Lawful(v) && 0 < ttl && 0.0 < at
    requires Stands(v, db, at, st)
    ensures Stands(v, R.Apply(v, ttl, db, at, nonce, op).0, at, OnRedis(st, at, op).0)
    ensures R.Apply(v, ttl, db, at, nonce, op).1 == OnRedis(st, at, op).1
  {
    if !IsPurge(op) {
      var db', st' := R.Apply(v, ttl, db, at, nonce, op).0, st.Apply(at, op).0;
      forall key: string ensures StandsAt(v, db', at, st', key) {
        assert StandsAt(v, db, at, st, key);
        OperationStandsAt(v, ttl, db, st, at, nonce, op, key);
      }
      OperationAnswers(v, ttl, db, st, at, nonce, op);
    }
  }

  lemma OperationAnswers(v: R.Vault, ttl: nat, db: R.Db, st: Store, at: real, nonce: nat, op: Op)
    requires R.Lawful(v) && 0 < ttl && 0.0 < at && !IsPurge(op)
    requires Stands(v, db, at, st)
    ensures R.Apply(v, ttl, db, at, nonce, op).1 == st.Apply(at, op).1
  {
    var name := R.Target(op);
    if name.Some? {
      assert StandsAt(v, db, at, st, name.value.1);
      OperationStandsAt(v, ttl, db, st, at, nonce, op, name.value.1);
    } else {
      assert StandsAt(v, db, at, st, op.clientId);
    }
  }

  lemma OperationStandsAt(v: R.Vault, ttl: nat, db: R.Db, st: Store, at: real, nonce: nat, op: Op, key: string)
    requires R.Lawful(v) && 0 < ttl && 0.0 < at && !IsPurge(op)
    requires StandsAt(v, db, at, st, key)
    ensures StandsAt(v, R.Apply(v, ttl, db, at, nonce, op).0, at, st.Apply(at, op).0, key)
    ensures op.IncrRate? && op.key == key ==> R.Apply(v, ttl, db, at, nonce, op).1 == st.Apply(at, op).1
  {
    SessionStands(v, ttl, db, st, at, nonce, op, key);
    RefreshStands(v, ttl, db, st, at, nonce, op, key);
    CodeStands(v, ttl, db, st, at, nonce, op, key);
    ClientStands(v, ttl, db, st, at, nonce, op, key);
    StepSameCounter(v, ttl, db, st, at, nonce, op, key);
  }

  lemma SessionStands(v: R.Vault, ttl: nat, db: R.Db, st: Store, at: real, nonce: nat, op: Op, token: string)
    requires R.Lawful(v) && !IsPurge(op)
    requires Find(st.sessions, token) == LiveSession(v, db, SessionKind, token, at)
    ensures Find(st.Apply(at, op).0.sessions, token) == LiveSession(v, R.Apply(v, ttl, db, at, nonce, op).0, SessionKind, token, at)
  {
    if R.Target(op) != Some((SessionKind, token)) {
      R.OnlyTargetChanges(v, ttl, db, at, nonce, op, SessionKind, token);
    } else if op.PutSession? {
      R.DocRoundTrip(v, nonce, op.session, CodeEntry(op.session, "", "", 0.0, ""));
    }
  }

  lemma RefreshStands(v: R.Vault, ttl: nat, db: R.Db, st: Store, at: real, nonce: nat, op: Op, token: string)
    requires R.Lawful(v) && !IsPurge(op)
    requires Find(st.refresh, token) == LiveSession(v, db, RefreshKind, token, at)
    ensures Find(st.Apply(at, op).0.refresh, token) == LiveSession(v, R.Apply(v, ttl, db, at, nonce, op).0, RefreshKind, token, at)
  {
    if R.Target(op) != Some((RefreshKind, token)) {
      R.OnlyTargetChanges(v, ttl, db, at, nonce, op, RefreshKind, token);
    } else if op.PutRefresh? {
      R.DocRoundTrip(v, nonce, op.session, CodeEntry(op.session, "", "", 0.0, ""));
    }
  }

  lemma CodeStands(v: R.Vault, ttl: nat, db: R.Db, st: Store, at: real, nonce: nat, op: Op, code: string)
    requires R.Lawful(v) && !IsPurge(op)
    requires Find(st.codes, code) == LiveCode(v, db, code, at)
    ensures Find(st.Apply(at, op).0.codes, code) == LiveCode(v, R.Apply(v, ttl, db, at, nonce, op).0, code, at)
  {
    if R.Target(op) != Some((CodeKind, code)) {
      R.OnlyTargetChanges(v, ttl, db, at, nonce, op, CodeKind, code);
    } else if op.PutCode? {
      R.DocRoundTrip(v, nonce, op.entry.session, op.entry);
    }
  }

  lemma ClientStands(v: R.Vault, ttl: nat, db: R.Db, st: Store, at: real, nonce: nat, op: Op, id: string)
    requires 0 < ttl && !IsPurge(op)
    requires Find(st.clients, id) == R.GetClient(db, id, at)
    ensures Find(st.Apply(at, op).0.clients, id) == R.GetClient(R.Apply(v, ttl, db, at, nonce, op).0, id, at)
  {
    ApplyClients(st, at, op);
    if R.Target(op) != Some((ClientKind, id)) {
      R.OnlyTargetChanges(v, ttl, db, at, nonce, op, ClientKind, id);
    }
  }

  // ---------------------------------------------------------------------------------------
  // Time takes nothing early.
  // ---------------------------------------------------------------------------------------

  /** Every record in the keyspace has a deadline less than a second before its own bound, or later. */
  ghost predicate Dated(v: R.Vault, db: R.Db) {
    forall key: string :: DatedAt(v, db, key)
  }

  ghost predicate DatedAt(v: R.Vault, db: R.Db, key: string) {
    && DatedSession(v, db, Key(SessionKind, key)) && DatedSession(v, db, Key(RefreshKind, key))
    && DatedCode(v, db, Key(CodeKind, key))
  }

  ghost predicate DatedSession(v: R.Vault, db: R.Db, k: string) {
    k in db && R.FromPayload(v, db[k].payload).Some? && db[k].deadline.Some? ==>
      R.FromPayload(v, db[k].payload).value.expiresAt - 1.0 < db[k].deadline.value
  }

  ghost predicate DatedCode(v: R.Vault, db: R.Db, k: string) {
    k in db && R.FromCodePayload(v, db[k].payload).Some? && db[k].deadline.Some? ==>
      R.FromCodePayload(v, db[k].payload).value.expiresAt - 1.0 < db[k].deadline.value
  }

  lemma EmptyDated(v: R.Vault)
    ensures Dated(v, map[])
  {
    forall key: string ensures DatedAt(v, map[], key) {
    }
  }

  lemma SessionDated(v: R.Vault, ttl: nat, db: R.Db, at: real, nonce: nat, op: Op, kind: Kind, key: string)
    requires R.Lawful(v) && ReadsBefore(op, at) && (kind == SessionKind || kind == RefreshKind)
    requires DatedSession(v, db, Key(kind, key))
    ensures DatedSession(v, R.Apply(v, ttl, db, at, nonce, op).0, Key(kind, key))
  {
    if R.Target(op) != Some((kind, key)) {
      R.OnlyTargetChanges(v, ttl, db, at, nonce, op, kind, key);
    } else if op.PutSession? || op.PutRefresh? {
      R.DocRoundTrip(v, nonce, op.session, CodeEntry(op.session, "", "", 0.0, ""));
      R.DeadlineSlack(op.session.expiresAt, op.read, at);
    }
  }

  lemma CodeDated(v: R.Vault, ttl: nat, db: R.Db, at: real, nonce: nat, op: Op, key: string)
    requires R.Lawful(v) && ReadsBefore(op, at) && DatedCode(v, db, Key(CodeKind, key))
    ensures DatedCode(v, R.Apply(v, ttl, db, at, nonce, op).0, Key(CodeKind, key))
  {
    if R.Target(op) != Some((CodeKind, key)) {
      R.OnlyTargetChanges(v, ttl, db, at, nonce, op, CodeKind, key);
    } else if op.PutCode? {
      R.DocRoundTrip(v, nonce, op.entry.session, op.entry);
      R.DeadlineSlack(op.entry.expiresAt, op.read, at);
    }
  }

  lemma OperationDates(v: R.Vault, ttl: nat, db: R.Db, at: real, nonce: nat, op: Op)
    requires R.Lawful(v) && ReadsBefore(op, at) && Dated(v, db)
    ensures Dated(v, R.Apply(v, ttl, db, at, nonce, op).0)
  {
    forall key: string ensures DatedAt(v, R.Apply(v, ttl, db, at, nonce, op).0, key) {
      assert DatedAt(v, db, key);
      SessionDated(v, ttl, db, at, nonce, op, SessionKind, key);
      SessionDated(v, ttl, db, at, nonce, op, RefreshKind, key);
      CodeDated(v, ttl, db, at, nonce, op, key);
    }
  }

  /** What time takes is less than a second from its own bound. */
  lemma VanishedIsLate(v: R.Vault, db: R.Db, st: Store, at: real, later: real)
    requires Stands(v, db, at, st) && Dated(v, db)
    ensures OnlyLate(st, Vanished(v, db, st, later), later)
  {
    forall key: string
      ensures key in st.sessions && LiveSession(v, db, SessionKind, key, later) == None ==> st.sessions[key].expiresAt - 1.0 < later
      ensures key in st.refresh && LiveSession(v, db, RefreshKind, key, later) == None ==> st.refresh[key].expiresAt - 1.0 < later
      ensures key in st.codes && LiveCode(v, db, key, later) == None ==> st.codes[key].expiresAt - 1.0 < later
    {
      assert StandsAt(v, db, at, st, key) && DatedAt(v, db, key);
    }
  }

  // ---------------------------------------------------------------------------------------
  // Whole logs.
  // ---------------------------------------------------------------------------------------

  /** A store under a log, losing `gone[i]` before operation `i`. */
  function Decaying(ops: seq<Timed>, gone: seq<Gone>): Store
    requires |gone| == |ops|
  {
    if ops == [] then EMPTY
    else
      var n := |ops| - 1;
      OnRedis(Drop(Decaying(ops[..n], gone[..n]), gone[n]), ops[n].at, ops[n].op).0
  }

  /** What goes at time `t` after a log is due: less than a second from its bound, and of the clients those
      whose TTL since their last write is over. */
  ghost predicate Due(ttl: nat, ops: seq<Timed>, st: Store, gone: Gone, t: real) {
    && OnlyLate(st, gone, t)
    && forall id :: id in gone.clients ==>
         StandingClient(ops, id).Some? && StandingClient(ops, id).value.at + ttl as real <= t
  }

  lemma VanishedIsDue(v: R.Vault, ttl: nat, ops: seq<Timed>, st: Store, at: real, t: real)
    requires Stands(v, R.Replay(v, ttl, ops), at, st) && Dated(v, R.Replay(v, ttl, ops))
    ensures Due(ttl, ops, st, Vanished(v, R.Replay(v, ttl, ops), st, t), t)
  {
    var db := R.Replay(v, ttl, ops);
    VanishedIsLate(v, db, st, at, t);
    forall id | id in Vanished(v, db, st, t).clients
      ensures StandingClient(ops, id).Some? && StandingClient(ops, id).value.at + ttl as real <= t
    {
      assert StandsAt(v, db, at, st, id);
      RedisClients(v, ttl, ops, id);
    }
  }

  /** Over any log, Redis answers its next operation exactly like an in-memory store from which time has
      taken records, none of them before it was due. */
  lemma {:induction false} RedisIsADecayingStore(v: R.Vault, ttl: nat, ops: seq<Timed>, t: real) returns (gone: seq<Gone>, last: Gone)
    requires R.Lawful(v) && 0 < ttl && Clocked(ops, t)
    ensures |gone| == |ops|
    ensures forall i :: 0 <= i < |ops| ==> Due(ttl, ops[..i], Decaying(ops[..i], gone[..i]), gone[i], ops[i].at)
    ensures Due(ttl, ops, Decaying(ops, gone), last, t)
    ensures Stands(v, R.Replay(v, ttl, ops), t, Drop(Decaying(ops, gone), last)) && Dated(v, R.Replay(v, ttl, ops))
    ensures forall op :: R.Answer(v, ttl, ops, t, op) == OnRedis(Drop(Decaying(ops, gone), last), t, op).1
    decreases |ops|, 1
  {
    var db := R.Replay(v, ttl, ops);
    if ops == [] {
      gone := [];
      EmptyStands(v, t);
      EmptyDated(v);
      last := Vanished(v, db, EMPTY, t);
      TimeTakes(v, db, EMPTY, t, t);
      VanishedIsDue(v, ttl, ops, EMPTY, t, t);
    } else {
      gone, last := DecayStep(v, ttl, ops, t);
    }
    forall op ensures R.Answer(v, ttl, ops, t, op) == OnRedis(Drop(Decaying(ops, gone), last), t, op).1 {
      OperationStands(v, ttl, db, Drop(Decaying(ops, gone), last), t, |ops| + 1, op);
    }
  }

  lemma {:induction false} DecayStep(v: R.Vault, ttl: nat, ops: seq<Timed>, t: real) returns (gone: seq<Gone>, last: Gone)
    requires R.Lawful(v) && 0 < ttl && Clocked(ops, t) && ops != []
    ensures |gone| == |ops|
    ensures forall i :: 0 <= i < |ops| ==> Due(ttl, ops[..i], Decaying(ops[..i], gone[..i]), gone[i], ops[i].at)
    ensures Due(ttl, ops, Decaying(ops, gone), last, t)
    ensures Stands(v, R.Replay(v, ttl, ops), t, Drop(Decaying(ops, gone), last)) && Dated(v, R.Replay(v, ttl, ops))
    decreases |ops|, 0
  {
    var db, n := R.Replay(v, ttl, ops), |ops| - 1;
    var now, op := ops[n].at, ops[n].op;
    ClockedPrefix(ops, t);
    var g, l := RedisIsADecayingStore(v, ttl, ops[..n], now);
    gone := g + [l];
    assert gone[..n] == g;
    forall i | 0 <= i < |ops| ensures Due(ttl, ops[..i], Decaying(ops[..i], gone[..i]), gone[i], ops[i].at) {
      if i < n {
        assert ops[..n][..i] == ops[..i] && g[..i] == gone[..i];
      }
    }
    OperationStands(v, ttl, R.Replay(v, ttl, ops[..n]), Drop(Decaying(ops[..n], g), l), now, |ops|, op);
    OperationDates(v, ttl, R.Replay(v, ttl, ops[..n]), now, |ops|, op);
    last := Vanished(v, db, Decaying(ops, gone), t);
    TimeTakes(v, db, Decaying(ops, gone), now, t);
    VanishedIsDue(v, ttl, ops, Decaying(ops, gone), now, t);
  }
}
