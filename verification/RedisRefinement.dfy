/** The Redis backend against the in-memory one, over every common log of operations. */
module RedisRefinement {
  import opened Prelude
  import opened Sessions
  import opened TokenStore
  import opened RedisKeys
  import R = RedisSpec

  /** What stands in the keyspace for a written value, and until when. */
  ghost predicate HoldsSession(v: R.Vault, db: R.Db, key: string, p: Put<Session>) {
    && key in db
    && R.FromPayload(v, db[key].payload) == Some(p.value)
    && db[key].deadline == Some(R.Deadline(p.value.expiresAt, p.read, p.at))
  }

  ghost predicate HoldsCode(v: R.Vault, db: R.Db, key: string, p: Put<CodeEntry<Session>>) {
    && key in db
    && R.FromCodePayload(v, db[key].payload) == Some(p.value)
    && db[key].deadline == Some(R.Deadline(p.value.expiresAt, p.read, p.at))
  }

  /** A key holds the standing write, or is gone because that write had already expired. */
  ghost predicate TracksSession(v: R.Vault, db: R.Db, token: string, p: Option<Put<Session>>, t: real) {
    var key := Key(SessionKind, token);
    && (key in db ==> p.Some? && HoldsSession(v, db, key, p.value))
    && (key !in db && p.Some? ==> p.value.value.expiresAt <= t)
  }

  /** A pop removes only a visible key; an invisible one stays behind in the map, past its deadline. */
  ghost predicate TracksRefresh(v: R.Vault, db: R.Db, token: string, p: Option<Put<Session>>, t: real) {
    var key := Key(RefreshKind, token);
    && (p.Some? ==> HoldsSession(v, db, key, p.value))
    && (p.None? ==> !R.Visible(db, key, t))
  }

  ghost predicate TracksCode(v: R.Vault, db: R.Db, code: string, p: Option<Put<CodeEntry<Session>>>, t: real) {
    var key := Key(CodeKind, code);
    && (p.Some? ==> HoldsCode(v, db, key, p.value))
    && (p.None? ==> !R.Visible(db, key, t))
  }

  lemma StepTracksSession(v: R.Vault, ttl: nat, db: R.Db, at: real, nonce: nat, op: Op, token: string, p: Option<Put<Session>>, before: real)
    requires R.Lawful(v) && before <= at
    requires TracksSession(v, db, token, p, before)
    ensures TracksSession(v, R.Apply(v, ttl, db, at, nonce, op).0, token,
              if op.PutSession? && op.token == token then Some(Put(op.session, op.read, at))
              else if op == Op.DeleteSession(token) then None else p, at)
  {
    if R.Target(op) != Some((SessionKind, token)) {
      R.OnlyTargetChanges(v, ttl, db, at, nonce, op, SessionKind, token);
    } else if op.PutSession? {
      assert v.open(v.seal(nonce, op.session.who.apiKey)) == Some(op.session.who.apiKey);
    }
  }

  lemma StepTracksRefresh(v: R.Vault, ttl: nat, db: R.Db, at: real, nonce: nat, op: Op, token: string, p: Option<Put<Session>>, before: real)
    requires R.Lawful(v) && before <= at
    requires TracksRefresh(v, db, token, p, before)
    ensures TracksRefresh(v, R.Apply(v, ttl, db, at, nonce, op).0, token,
              if op.PutRefresh? && op.token == token then Some(Put(op.session, op.read, at))
              else if op == Op.PopRefresh(token) then None else p, at)
  {
    if R.Target(op) != Some((RefreshKind, token)) {
      R.OnlyTargetChanges(v, ttl, db, at, nonce, op, RefreshKind, token);
    } else if op.PutRefresh? {
      assert v.open(v.seal(nonce, op.session.who.apiKey)) == Some(op.session.who.apiKey);
    }
  }

  lemma StepTracksCode(v: R.Vault, ttl: nat, db: R.Db, at: real, nonce: nat, op: Op, code: string, p: Option<Put<CodeEntry<Session>>>, before: real)
    requires R.Lawful(v) && before <= at
    requires TracksCode(v, db, code, p, before)
    ensures TracksCode(v, R.Apply(v, ttl, db, at, nonce, op).0, code,
              if op.PutCode? && op.code == code then Some(Put(op.entry, op.read, at))
              else if op == Op.PopCode(code) then None else p, at)
  {
    if R.Target(op) != Some((CodeKind, code)) {
      R.OnlyTargetChanges(v, ttl, db, at, nonce, op, CodeKind, code);
    } else if op.PutCode? {
      assert v.open(v.seal(nonce, op.entry.session.who.apiKey)) == Some(op.entry.session.who.apiKey);
    }
  }

  lemma {:induction false} RedisTracks(v: R.Vault, ttl: nat, ops: seq<Timed>, key: string, t: real)
    requires R.Lawful(v) && Clocked(ops, t)
    ensures TracksSession(v, R.Replay(v, ttl, ops), key, StandingSession(ops, key), t)
    ensures TracksRefresh(v, R.Replay(v, ttl, ops), key, StandingRefresh(ops, key), t)
    ensures TracksCode(v, R.Replay(v, ttl, ops), key, StandingCode(ops, key), t)
  {
    if ops != [] {
      var init, last := ops[..|ops| - 1], ops[|ops| - 1];
      var db := R.Replay(v, ttl, init);
      ClockedPrefix(ops, t);
      RedisTracks(v, ttl, init, key, last.at);
      StepTracksSession(v, ttl, db, last.at, |ops|, last.op, key, StandingSession(init, key), last.at);
      StepTracksRefresh(v, ttl, db, last.at, |ops|, last.op, key, StandingRefresh(init, key), last.at);
      StepTracksCode(v, ttl, db, last.at, |ops|, last.op, key, StandingCode(init, key), last.at);
    }
  }

  /** The standing write, if neither its own bound nor the server's deadline has passed. */
  function FreshInRedis(p: Option<Put<Session>>, t: real): Option<Session> {
    if p.Some? && t < R.Deadline(p.value.value.expiresAt, p.value.read, p.value.at) then Fresh(p, t) else None
  }

  lemma RedisGetSession(v: R.Vault, ttl: nat, ops: seq<Timed>, token: string, t: real)
    requires R.Lawful(v) && Clocked(ops, t)
    ensures R.Answer(v, ttl, ops, t, Op.GetSession(token)) == Found(FreshInRedis(StandingSession(ops, token), t))
  {
    RedisTracks(v, ttl, ops, token, t);
    StandingHasLanded(ops, token, t);
  }

  lemma RedisPopRefresh(v: R.Vault, ttl: nat, ops: seq<Timed>, token: string, t: real)
    requires R.Lawful(v) && Clocked(ops, t)
    ensures R.Answer(v, ttl, ops, t, Op.PopRefresh(token)) == Found(FreshInRedis(StandingRefresh(ops, token), t))
  {
    RedisTracks(v, ttl, ops, token, t);
  }

  lemma RedisPopCode(v: R.Vault, ttl: nat, ops: seq<Timed>, code: string, t: real)
    requires R.Lawful(v) && Clocked(ops, t)
    ensures var p := StandingCode(ops, code);
            R.Answer(v, ttl, ops, t, Op.PopCode(code))
            == Taken(if p.Some? && t < R.Deadline(p.value.value.expiresAt, p.value.read, p.value.at)
                     then Some(p.value.value) else None)
  {
    RedisTracks(v, ttl, ops, code, t);
  }

  /** A standing write landed no later than the log's clock, and was read no later than it landed. */
  lemma {:induction false} StandingHasLanded(ops: seq<Timed>, key: string, t: real)
    requires Clocked(ops, t)
    ensures StandingSession(ops, key).Some? ==>
              StandingSession(ops, key).value.read <= StandingSession(ops, key).value.at <= t
    ensures StandingRefresh(ops, key).Some? ==>
              StandingRefresh(ops, key).value.read <= StandingRefresh(ops, key).value.at <= t
    ensures StandingCode(ops, key).Some? ==>
              StandingCode(ops, key).value.read <= StandingCode(ops, key).value.at <= t
  {
    if ops != [] {
      ClockedPrefix(ops, t);
      StandingHasLanded(ops[..|ops| - 1], key, ops[|ops| - 1].at);
    }
  }

  // ---------------------------------------------------------------------------------------
  // The simulation.
  // ---------------------------------------------------------------------------------------

  /** `redis` may refuse what `memory` accepts, but only in the open last second before
      `expires_at`; what it accepts is the same session. */
  ghost predicate AgreesUpToASecond(redis: Result, memory: Result, t: real) {
    && redis.Found? && memory.Found?
    && (redis.session.Some? ==> memory.session == redis.session)
    && (memory.session.Some? && t <= memory.session.value.expiresAt - 1.0 ==> redis.session == memory.session)
  }

  lemma RedisSimulatesMemory(v: R.Vault, ttl: nat, ops: seq<Timed>, token: string, t: real)
    requires R.Lawful(v) && Clocked(ops, t)
    ensures AgreesUpToASecond(R.Answer(v, ttl, ops, t, Op.GetSession(token)), Answer(ops, t, Op.GetSession(token)), t)
    ensures AgreesUpToASecond(R.Answer(v, ttl, ops, t, Op.PopRefresh(token)), Answer(ops, t, Op.PopRefresh(token)), t)
  {
    RedisGetSession(v, ttl, ops, token, t);
    RedisPopRefresh(v, ttl, ops, token, t);
    GetSessionMeansStanding(ops, token, t);
    PopRefreshMeansStanding(ops, token, t);
    StandingHasLanded(ops, token, t);
    forall p: Put<Session> | p.read <= p.at
      ensures p.value.expiresAt - 1.0 < R.Deadline(p.value.expiresAt, p.read, p.at)
    {
      R.DeadlineSlack(p.value.expiresAt, p.read, p.at);
    }
  }

  /** The same for codes, whose own bound is inclusive and is tested at a later reading `check`. */
  lemma RedisSimulatesMemoryCodes(v: R.Vault, ttl: nat, ops: seq<Timed>, code: string, t: real, check: real)
    requires R.Lawful(v) && Clocked(ops, t) && t <= check
    ensures var redis := Redeemable(R.Answer(v, ttl, ops, t, Op.PopCode(code)), check);
            var memory := Redeemable(Answer(ops, t, Op.PopCode(code)), check);
            && (redis.Some? ==> memory == redis)
            && (memory.Some? && t <= memory.value.expiresAt - 1.0 ==> redis == memory)
  {
    RedisPopCode(v, ttl, ops, code, t);
    PopCodeMeansStanding(ops, code, t, check);
    StandingHasLanded(ops, code, t);
    var p := StandingCode(ops, code);
    if p.Some? {
      R.DeadlineSlack(p.value.value.expiresAt, p.value.read, p.value.at);
    }
  }

  /** The exact condition: Redis refuses a session, a refresh token or a code that memory hands out iff the
      truncated deadline of its standing write has passed. */
  lemma RedisRefusesExactlyAfterDeadline(v: R.Vault, ttl: nat, ops: seq<Timed>, key: string, t: real)
    requires R.Lawful(v) && Clocked(ops, t)
    ensures Answer(ops, t, Op.GetSession(key)) != Found(None) ==>
              && StandingSession(ops, key).Some?
              && (R.Answer(v, ttl, ops, t, Op.GetSession(key)) == Found(None) <==> Overdue(StandingSession(ops, key).value, t))
    ensures Answer(ops, t, Op.PopRefresh(key)) != Found(None) ==>
              && StandingRefresh(ops, key).Some?
              && (R.Answer(v, ttl, ops, t, Op.PopRefresh(key)) == Found(None) <==> Overdue(StandingRefresh(ops, key).value, t))
    ensures Answer(ops, t, Op.PopCode(key)) != Taken(None) ==>
              && StandingCode(ops, key).Some?
              && (R.Answer(v, ttl, ops, t, Op.PopCode(key)) == Taken(None)
                  <==> (var p := StandingCode(ops, key).value; R.Deadline(p.value.expiresAt, p.read, p.at) <= t))
  {
    RedisGetSession(v, ttl, ops, key, t);
    GetSessionMeansStanding(ops, key, t);
    RedisPopRefresh(v, ttl, ops, key, t);
    PopRefreshMeansStanding(ops, key, t);
    RedisPopCode(v, ttl, ops, key, t);
    CodesTrack(ops, key, t);
  }

  predicate Overdue(p: Put<Session>, t: real) {
    R.Deadline(p.value.expiresAt, p.read, p.at) <= t
  }

  /** The slack is real, and it cannot be made smaller than a second: a session issued with nearly
      two seconds to live is refused by Redis from its first whole second on. */
  lemma SlackIsReached(v: R.Vault, ttl: nat, who: Identity, late: real)
    requires R.Lawful(v) && 0.0 < late < 1.0
    ensures var s := Session(who, 12.0 - late);
            var ops := [Timed(10.0, Op.PutSession("t", s, 10.0))];
            && Clocked(ops, 11.0)
            && Answer(ops, 11.0, Op.GetSession("t")) == Found(Some(s))
            && R.Answer(v, ttl, ops, 11.0, Op.GetSession("t")) == Found(None)
  {
    var s := Session(who, 12.0 - late);
    var ops := [Timed(10.0, Op.PutSession("t", s, 10.0))];
    assert Clocked(ops, 11.0);
    assert StandingSession(ops, "t") == Some(Put(s, 10.0, 10.0));
    assert R.TtlFor(12.0 - late, 10.0) == 1;
    GetSessionMeansStanding(ops, "t", 11.0);
    RedisGetSession(v, ttl, ops, "t", 11.0);
  }

  // ---------------------------------------------------------------------------------------
  // Rate counters and client records.
  // ---------------------------------------------------------------------------------------

  /** Both counters of one key: absent together, or equal in count and in window end. */
  ghost predicate SameCounter(db: R.Db, rate: map<string, Window>, key: string) {
    var k := Key(RateKind, key);
    && (k in db <==> key in rate)
    && (key in rate ==> db[k] == R.Cell(R.Counter(rate[key].count), Some(rate[key].end)))
  }

  lemma StepSameCounter(v: R.Vault, ttl: nat, db: R.Db, st: Store, at: real, nonce: nat, op: Op, key: string)
    requires 0.0 < at
    requires SameCounter(db, st.rate, key)
    ensures SameCounter(R.Apply(v, ttl, db, at, nonce, op).0, st.Apply(at, op).0.rate, key)
    ensures op.IncrRate? && op.key == key ==> R.Apply(v, ttl, db, at, nonce, op).1 == st.Apply(at, op).1
  {
    ApplyRate(st, at, op);
    if R.Target(op) != Some((RateKind, key)) {
      R.OnlyTargetChanges(v, ttl, db, at, nonce, op, RateKind, key);
    }
  }

  lemma {:induction false} CountersStaySame(v: R.Vault, ttl: nat, ops: seq<Timed>, key: string, t: real)
    requires Clocked(ops, t)
    ensures SameCounter(R.Replay(v, ttl, ops), Replay(ops).rate, key)
  {
    if ops != [] {
      var init, last := ops[..|ops| - 1], ops[|ops| - 1];
      ClockedPrefix(ops, t);
      CountersStaySame(v, ttl, init, key, last.at);
      StepSameCounter(v, ttl, R.Replay(v, ttl, init), Replay(init), last.at, |ops|, last.op, key);
    }
  }

  /** INCR with EXPIRE NX and the (count, window_end) pair count alike on every log, also when the
      in-memory entry is stale and the Redis key has vanished. */
  lemma RateCountersAgree(v: R.Vault, ttl: nat, ops: seq<Timed>, key: string, seconds: int, t: real)
    requires Clocked(ops, t)
    ensures R.Answer(v, ttl, ops, t, Op.IncrRate(key, seconds)) == Answer(ops, t, Op.IncrRate(key, seconds))
  {
    CountersStaySame(v, ttl, ops, key, t);
    StepSameCounter(v, ttl, R.Replay(v, ttl, ops), Replay(ops), t, |ops| + 1, Op.IncrRate(key, seconds), key);
  }

  /** A registration is kept by Redis for `clientTtl` from its last write, and by memory for ever. */
  lemma {:induction false} RedisClients(v: R.Vault, ttl: nat, ops: seq<Timed>, id: string)
    ensures var p := StandingClient(ops, id);
            var key := Key(ClientKind, id);
            var db := R.Replay(v, ttl, ops);
            && (key in db <==> p.Some?)
            && (p.Some? ==> db[key] == R.Cell(R.ClientPayload(p.value.value), Some(p.value.at + ttl as real)))
  {
    if ops != [] {
      var init, last := ops[..|ops| - 1], ops[|ops| - 1];
      RedisClients(v, ttl, init, id);
      if R.Target(last.op) != Some((ClientKind, id)) {
        R.OnlyTargetChanges(v, ttl, R.Replay(v, ttl, init), last.at, |ops|, last.op, ClientKind, id);
      }
    }
  }

  lemma RedisGetClient(v: R.Vault, ttl: nat, ops: seq<Timed>, id: string, t: real)
    ensures Answer(ops, t, Op.GetClient(id))
            == Known(if StandingClient(ops, id).Some? then Some(StandingClient(ops, id).value.value) else None)
    ensures R.Answer(v, ttl, ops, t, Op.GetClient(id))
            == (var p := StandingClient(ops, id);
                Known(if p.Some? && t < p.value.at + ttl as real then Some(p.value.value) else None))
  {
    RedisClients(v, ttl, ops, id);
    ClientsTrack(ops, id);
  }
}
