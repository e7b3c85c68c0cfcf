/** auth/token_store.py: what the token store means, on values.
    Sessions are values here; the class that holds them by reference is in InMemoryTokenStore.dfy. */
module TokenStore {
  import opened Prelude
  import opened Sessions

  /** An authorization code's record. `S` is a session value or a session reference. */
  datatype CodeEntry<+S> = CodeEntry(session: S, redirectUri: string, clientId: string,
                                     expiresAt: real, challenge: string)

  /** A dynamic client registration. */
  datatype Client = Client(redirectUris: seq<string>, createdAt: int)

  /** A fixed-window counter and the instant at which its window closes. */
  datatype Window = Window(count: nat, end: real)

  /** A code is still good at its own `expires_at`: this bound is inclusive, unlike a session's. */
  predicate CodeExpired<S>(e: CodeEntry<S>, now: real) {
    now > e.expiresAt
  }

  function Bump(w: Window, seconds: int, now: real): Window {
    if now >= w.end then Window(1, now + seconds as real) else Window(w.count + 1, w.end)
  }

  const NO_WINDOW := Window(0, 0.0)

  function RateAt(rate: map<string, Window>, key: string): Window {
    if key in rate then rate[key] else NO_WINDOW
  }

  datatype Store = Store(
    sessions: map<string, Session>,
    codes: map<string, CodeEntry<Session>>,
    clients: map<string, Client>,
    refresh: map<string, Session>,
    rate: map<string, Window>)
  {
    function PutSession(token: string, s: Session): Store {
      this.(sessions := sessions[token := s])
    }

    /** A lookup deletes the entry it finds expired. */
    function GetSession(token: string, now: real): (Store, Option<Session>) {
      if token !in sessions then (this, None)
      else if Expired(sessions[token], now) then (this.(sessions := sessions - {token}), None)
      else (this, Some(sessions[token]))
    }

    function DeleteSession(token: string): Store {
      this.(sessions := sessions - {token})
    }

    function ExpiredSessions(now: real): set<string> {
      set t | t in sessions && Expired(sessions[t], now)
    }

    function PurgeSessions(now: real): (Store, nat) {
      (this.(sessions := sessions - ExpiredSessions(now)), |ExpiredSessions(now)|)
    }

    function PutCode(code: string, e: CodeEntry<Session>): Store {
      this.(codes := codes[code := e])
    }

    /** Popping looks at no clock: an expired code is handed out and left to the caller to refuse. */
    function PopCode(code: string): (Store, Option<CodeEntry<Session>>) {
      if code in codes then (this.(codes := codes - {code}), Some(codes[code])) else (this, None)
    }

    function ExpiredCodes(now: real): set<string> {
      set c | c in codes && CodeExpired(codes[c], now)
    }

    function PurgeCodes(now: real): (Store, nat) {
      (this.(codes := codes - ExpiredCodes(now)), |ExpiredCodes(now)|)
    }

    function PutClient(clientId: string, client: Client): Store {
      this.(clients := clients[clientId := client])
    }

    function GetClient(clientId: string): Option<Client> {
      if clientId in clients then Some(clients[clientId]) else None
    }

    function PutRefresh(token: string, s: Session): Store {
      this.(refresh := refresh[token := s])
    }

    /** An expired refresh token is consumed as well, but nothing is handed out. */
    function PopRefresh(token: string, now: real): (Store, Option<Session>) {
      if token !in refresh then (this, None)
      else
        var rest := this.(refresh := refresh - {token});
        if Expired(refresh[token], now) then (rest, None) else (rest, Some(refresh[token]))
    }

    function IncrRate(key: string, seconds: int, now: real): (Store, nat) {
      var w := Bump(RateAt(rate, key), seconds, now);
      (this.(rate := rate[key := w]), w.count)
    }

    /** One operation of the store protocol, at clock reading `at`. */
    function Apply(at: real, op: Op): (Store, Result) {
      match op
      case PutSession(token, s, _) => (PutSession(token, s), Done)
      case GetSession(token) => var (st, r) := GetSession(token, at); (st, Found(r))
      case DeleteSession(token) => (DeleteSession(token), Done)
      case PurgeSessions(now) => var (st, n) := PurgeSessions(now); (st, Counted(n))
      case PutCode(code, e, _) => (PutCode(code, e), Done)
      case PopCode(code) => var (st, r) := PopCode(code); (st, Taken(r))
      case PurgeCodes(now) => var (st, n) := PurgeCodes(now); (st, Counted(n))
      case PutClient(id, client) => (PutClient(id, client), Done)
      case GetClient(id) => (this, Known(GetClient(id)))
      case PutRefresh(token, s, _) => (PutRefresh(token, s), Done)
      case PopRefresh(token) => var (st, r) := PopRefresh(token, at); (st, Found(r))
      case IncrRate(key, seconds) => var (st, n) := IncrRate(key, seconds, at); (st, Counted(n))
    }
  }

  const EMPTY := Store(map[], map[], map[], map[], map[])

  /** An operation. `read` is the clock reading a Redis backend takes before it writes;
      `now` is the reading a purge takes before it obtains the lock. */
  datatype Op =
    | PutSession(token: string, session: Session, read: real)
    | GetSession(token: string)
    | DeleteSession(token: string)
    | PurgeSessions(now: real)
    | PutCode(code: string, entry: CodeEntry<Session>, read: real)
    | PopCode(code: string)
    | PurgeCodes(now: real)
    | PutClient(clientId: string, client: Client)
    | GetClient(clientId: string)
    | PutRefresh(token: string, session: Session, read: real)
    | PopRefresh(token: string)
    | IncrRate(key: string, seconds: int)

  datatype Timed = Timed(at: real, op: Op)

  datatype Result =
    | Done
    | Found(session: Option<Session>)
    | Taken(entry: Option<CodeEntry<Session>>)
    | Known(client: Option<Client>)
    | Counted(n: nat)

  /** The store after a log of operations. */
  function Replay(ops: seq<Timed>): Store {
    if ops == [] then EMPTY
    else Replay(ops[..|ops| - 1]).Apply(ops[|ops| - 1].at, ops[|ops| - 1].op).0
  }

  /** What the next operation answers after a log. */
  function Answer(ops: seq<Timed>, at: real, op: Op): Result {
    Replay(ops).Apply(at, op).1
  }

  /** Every early clock reading of an operation was taken no later than the operation itself. */
  ghost predicate ReadsBefore(op: Op, at: real) {
    match op
    case PutSession(_, _, read) => read <= at
    case PutCode(_, _, read) => read <= at
    case PutRefresh(_, _, read) => read <= at
    case PurgeSessions(now) => now <= at
    case PurgeCodes(now) => now <= at
    case _ => true
  }

  /** A log whose clock is positive, never runs backwards, and has not passed `t`. */
  ghost predicate Clocked(ops: seq<Timed>, t: real) {
    && 0.0 < t
    && (forall i :: 0 <= i < |ops| ==> 0.0 < ops[i].at <= t && ReadsBefore(ops[i].op, ops[i].at))
    && (forall i, j :: 0 <= i < j < |ops| ==> ops[i].at <= ops[j].at)
  }

  lemma ClockedPrefix(ops: seq<Timed>, t: real)
    requires Clocked(ops, t) && ops != []
    ensures Clocked(ops[..|ops| - 1], ops[|ops| - 1].at)
  {
  }

  // ---------------------------------------------------------------------------------------
  // The log-based meaning: the last write of a key that nothing took away again.
  // ---------------------------------------------------------------------------------------

  /** A write: its value, the reading taken for the TTL, and the instant it landed. */
  datatype Put<+V> = Put(value: V, read: real, at: real)

  function StandingSession(ops: seq<Timed>, token: string): Option<Put<Session>> {
    if ops == [] then None else
      var last := ops[|ops| - 1];
      if last.op.PutSession? && last.op.token == token then Some(Put(last.op.session, last.op.read, last.at))
      else if last.op == Op.DeleteSession(token) then None
      else StandingSession(ops[..|ops| - 1], token)
  }

  function StandingRefresh(ops: seq<Timed>, token: string): Option<Put<Session>> {
    if ops == [] then None else
      var last := ops[|ops| - 1];
      if last.op.PutRefresh? && last.op.token == token then Some(Put(last.op.session, last.op.read, last.at))
      else if last.op == Op.PopRefresh(token) then None
      else StandingRefresh(ops[..|ops| - 1], token)
  }

  function StandingCode(ops: seq<Timed>, code: string): Option<Put<CodeEntry<Session>>> {
    if ops == [] then None else
      var last := ops[|ops| - 1];
      if last.op.PutCode? && last.op.code == code then Some(Put(last.op.entry, last.op.read, last.at))
      else if last.op == Op.PopCode(code) then None
      else StandingCode(ops[..|ops| - 1], code)
  }

  function StandingClient(ops: seq<Timed>, id: string): Option<Put<Client>> {
    if ops == [] then None else
      var last := ops[|ops| - 1];
      if last.op.PutClient? && last.op.clientId == id then Some(Put(last.op.client, last.at, last.at))
      else StandingClient(ops[..|ops| - 1], id)
  }

  /** The value of a write that is unexpired at `t`. */
  function Fresh(p: Option<Put<Session>>, t: real): Option<Session> {
    if p.Some? && t < p.value.value.expiresAt then Some(p.value.value) else None
  }

  /** The entry for a key is the standing write, or it is gone because that write had expired. */
  ghost predicate Tracks(entries: map<string, Session>, token: string, p: Option<Put<Session>>, t: real) {
    && (token in entries ==> p.Some? && p.value.value == entries[token])
    && (token !in entries && p.Some? ==> p.value.value.expiresAt <= t)
  }

  lemma SessionStepTracks(st: Store, at: real, op: Op, token: string, p: Option<Put<Session>>)
    requires Tracks(st.sessions, token, p, at) && ReadsBefore(op, at)
    ensures Tracks(st.Apply(at, op).0.sessions, token,
              if op.PutSession? && op.token == token then Some(Put(op.session, op.read, at))
              else if op == Op.DeleteSession(token) then None else p, at)
  {
  }

  lemma {:induction false} SessionsTrack(ops: seq<Timed>, token: string, t: real)
    requires Clocked(ops, t)
    ensures Tracks(Replay(ops).sessions, token, StandingSession(ops, token), t)
  {
    if ops != [] {
      var init, last := ops[..|ops| - 1], ops[|ops| - 1];
      ClockedPrefix(ops, t);
      SessionsTrack(init, token, last.at);
      SessionStepTracks(Replay(init), last.at, last.op, token, StandingSession(init, token));
    }
  }

  lemma RefreshStepTracks(st: Store, at: real, op: Op, token: string, p: Option<Put<Session>>)
    requires Tracks(st.refresh, token, p, at) && (token in st.refresh <==> p.Some?)
    ensures var p' := if op.PutRefresh? && op.token == token then Some(Put(op.session, op.read, at))
                      else if op == Op.PopRefresh(token) then None else p;
            var st' := st.Apply(at, op).0;
            Tracks(st'.refresh, token, p', at) && (token in st'.refresh <==> p'.Some?)
  {
  }

  lemma {:induction false} RefreshTracks(ops: seq<Timed>, token: string, t: real)
    requires Clocked(ops, t)
    ensures token in Replay(ops).refresh <==> StandingRefresh(ops, token).Some?
    ensures Tracks(Replay(ops).refresh, token, StandingRefresh(ops, token), t)
  {
    if ops != [] {
      var init, last := ops[..|ops| - 1], ops[|ops| - 1];
      ClockedPrefix(ops, t);
      RefreshTracks(init, token, last.at);
      RefreshStepTracks(Replay(init), last.at, last.op, token, StandingRefresh(init, token));
    }
  }

  /** As `Tracks`, with the inclusive bound of a code. */
  ghost predicate TracksCode(entries: map<string, CodeEntry<Session>>, code: string, p: Option<Put<CodeEntry<Session>>>, t: real) {
    && (code in entries ==> p.Some? && p.value.value == entries[code])
    && (code !in entries && p.Some? ==> p.value.value.expiresAt < t)
  }

  lemma CodeStepTracks(st: Store, at: real, op: Op, code: string, p: Option<Put<CodeEntry<Session>>>)
    requires TracksCode(st.codes, code, p, at) && ReadsBefore(op, at)
    ensures TracksCode(st.Apply(at, op).0.codes, code,
              if op.PutCode? && op.code == code then Some(Put(op.entry, op.read, at))
              else if op == Op.PopCode(code) then None else p, at)
  {
  }

  lemma {:induction false} CodesTrack(ops: seq<Timed>, code: string, t: real)
    requires Clocked(ops, t)
    ensures TracksCode(Replay(ops).codes, code, StandingCode(ops, code), t)
  {
    if ops != [] {
      var init, last := ops[..|ops| - 1], ops[|ops| - 1];
      ClockedPrefix(ops, t);
      CodesTrack(init, code, last.at);
      CodeStepTracks(Replay(init), last.at, last.op, code, StandingCode(init, code));
    }
  }

  /** Only a registration touches the client records. */
  lemma ApplyClients(st: Store, at: real, op: Op)
    ensures st.Apply(at, op).0.clients
            == if op.PutClient? then st.clients[op.clientId := op.client] else st.clients
  {
  }

  lemma {:induction false} ClientsTrack(ops: seq<Timed>, id: string)
    ensures Replay(ops).GetClient(id)
            == match StandingClient(ops, id) case None => None case Some(p) => Some(p.value)
  {
    if ops != [] {
      var init, last := Replay(ops[..|ops| - 1]), ops[|ops| - 1];
      ClientsTrack(ops[..|ops| - 1], id);
      ApplyClients(init, last.at, last.op);
      assert Replay(ops) == init.Apply(last.at, last.op).0;
    }
  }

  /** A lookup answers exactly the standing write, if it has not expired. */
  lemma {:induction false} GetSessionMeansStanding(ops: seq<Timed>, token: string, t: real)
    requires Clocked(ops, t)
    ensures Answer(ops, t, Op.GetSession(token)) == Found(Fresh(StandingSession(ops, token), t))
  {
    SessionsTrack(ops, token, t);
  }

  lemma {:induction false} PopRefreshMeansStanding(ops: seq<Timed>, token: string, t: real)
    requires Clocked(ops, t)
    ensures Answer(ops, t, Op.PopRefresh(token)) == Found(Fresh(StandingRefresh(ops, token), t))
  {
    RefreshTracks(ops, token, t);
  }

  /** What a caller that checks the clock at `check` can redeem from an answer. */
  function Redeemable(r: Result, check: real): Option<CodeEntry<Session>> {
    if r.Taken? && r.entry.Some? && !CodeExpired(r.entry.value, check) then r.entry else None
  }

  /** A popped code is redeemable exactly when it is standing and not past its inclusive bound. */
  lemma {:induction false} PopCodeMeansStanding(ops: seq<Timed>, code: string, t: real, check: real)
    requires Clocked(ops, t) && t <= check
    ensures var p := StandingCode(ops, code);
            Redeemable(Answer(ops, t, Op.PopCode(code)), check)
            == if p.Some? && check <= p.value.value.expiresAt then Some(p.value.value) else None
  {
    CodesTrack(ops, code, t);
  }

  /** RFC 7009 section 2 for access tokens: after a deletion, and until the token is stored again,
      no lookup ever accepts it, and every other token is answered as if nothing had happened. */
  lemma {:induction false} RevokedStaysRevoked(before: seq<Timed>, gone: Timed, after: seq<Timed>, token: string, other: string, t: real)
    requires gone.op == Op.DeleteSession(token)
    requires forall i :: 0 <= i < |after| ==> !(after[i].op.PutSession? && after[i].op.token == token)
    requires Clocked(before + [gone] + after, t)
    ensures Answer(before + [gone] + after, t, Op.GetSession(token)) == Found(None)
    ensures other != token ==>
              Answer(before + [gone] + after, t, Op.GetSession(other)) == Answer(before + after, t, Op.GetSession(other))
  {
    ClockedWithout(before, gone, after, t);
    DeletionErases(before, gone, after, token, other);
    GetSessionMeansStanding(before + [gone] + after, token, t);
    GetSessionMeansStanding(before + [gone] + after, other, t);
    GetSessionMeansStanding(before + after, other, t);
  }

  lemma ClockedWithout(before: seq<Timed>, gone: Timed, after: seq<Timed>, t: real)
    requires Clocked(before + [gone] + after, t)
    ensures Clocked(before + after, t)
  {
    var all, less := before + [gone] + after, before + after;
    forall i | 0 <= i < |less| ensures less[i] == all[if i < |before| then i else i + 1] {
    }
  }

  lemma {:induction false} DeletionErases(before: seq<Timed>, gone: Timed, after: seq<Timed>, token: string, other: string)
    requires gone.op == Op.DeleteSession(token)
    requires forall i :: 0 <= i < |after| ==> !(after[i].op.PutSession? && after[i].op.token == token)
    ensures StandingSession(before + [gone] + after, token) == None
    ensures other != token ==>
              StandingSession(before + [gone] + after, other) == StandingSession(before + after, other)
  {
    if after == [] {
      assert before + [gone] + after == before + [gone];
      assert (before + [gone])[..|before|] == before;
      assert before + after == before;
    } else {
      var init := after[..|after| - 1];
      var whole := before + [gone] + after;
      assert whole[..|whole| - 1] == before + [gone] + init;
      assert (before + after)[..|before + after| - 1] == before + init;
      assert (before + after)[|before + after| - 1] == after[|after| - 1] == whole[|whole| - 1];
      DeletionErases(before, gone, init, token, other);
    }
  }

  // ---------------------------------------------------------------------------------------
  // Purging is invisible.
  // ---------------------------------------------------------------------------------------

  predicate IsPurge(op: Op) {
    op.PurgeSessions? || op.PurgeCodes?
  }

  /** The same log with every purge left out. */
  function WithoutPurges(ops: seq<Timed>): seq<Timed> {
    if ops == [] then []
    else
      var init := WithoutPurges(ops[..|ops| - 1]);
      if IsPurge(ops[|ops| - 1].op) then init else init + [ops[|ops| - 1]]
  }

  lemma {:induction false} PurgesDoNotStand(ops: seq<Timed>, key: string)
    ensures StandingSession(WithoutPurges(ops), key) == StandingSession(ops, key)
    ensures StandingRefresh(WithoutPurges(ops), key) == StandingRefresh(ops, key)
    ensures StandingCode(WithoutPurges(ops), key) == StandingCode(ops, key)
    ensures StandingClient(WithoutPurges(ops), key) == StandingClient(ops, key)
  {
    if ops != [] {
      var init := WithoutPurges(ops[..|ops| - 1]);
      PurgesDoNotStand(ops[..|ops| - 1], key);
      if !IsPurge(ops[|ops| - 1].op) {
        assert (init + [ops[|ops| - 1]])[..|init|] == init;
      }
    }
  }

  lemma {:induction false} WithoutPurgesClocked(ops: seq<Timed>, t: real)
    requires Clocked(ops, t)
    ensures Clocked(WithoutPurges(ops), t)
  {
    if ops != [] {
      var init, last := ops[..|ops| - 1], ops[|ops| - 1];
      ClockedPrefix(ops, t);
      WithoutPurgesClocked(init, last.at);
      ClockedAppend(WithoutPurges(init), last, t);
    }
  }

  lemma ClockedAppend(ops: seq<Timed>, last: Timed, t: real)
    requires Clocked(ops, last.at) && last.at <= t && ReadsBefore(last.op, last.at)
    ensures Clocked(ops, t)
    ensures Clocked(ops + [last], t)
  {
  }

  /** Only a rate check touches the counters. */
  lemma ApplyRate(st: Store, at: real, op: Op)
    ensures st.Apply(at, op).0.rate
            == if op.IncrRate? then st.rate[op.key := Bump(RateAt(st.rate, op.key), op.seconds, at)] else st.rate
  {
  }

  lemma ReplayAppend(ops: seq<Timed>, last: Timed)
    ensures Replay(ops + [last]) == Replay(ops).Apply(last.at, last.op).0
  {
    assert (ops + [last])[..|ops|] == ops;
  }

  lemma {:induction false} PurgesLeaveRates(ops: seq<Timed>)
    ensures Replay(WithoutPurges(ops)).rate == Replay(ops).rate
  {
    if ops != [] {
      var init, last := ops[..|ops| - 1], ops[|ops| - 1];
      PurgesLeaveRates(init);
      ReplayAppend(init, last);
      ReplayAppend(WithoutPurges(init), last);
      assert init + [last] == ops;
      ApplyRate(Replay(init), last.at, last.op);
      ApplyRate(Replay(WithoutPurges(init)), last.at, last.op);
    }
  }

  /** Whether purges ran, how often, and with however old a clock reading, no later lookup,
      refresh, redemption or client lookup can tell. */
  lemma {:induction false} PurgingIsInvisible(ops: seq<Timed>, key: string, t: real, check: real)
    requires Clocked(ops, t) && t <= check
    ensures Answer(ops, t, Op.GetSession(key)) == Answer(WithoutPurges(ops), t, Op.GetSession(key))
    ensures Answer(ops, t, Op.PopRefresh(key)) == Answer(WithoutPurges(ops), t, Op.PopRefresh(key))
    ensures Redeemable(Answer(ops, t, Op.PopCode(key)), check)
            == Redeemable(Answer(WithoutPurges(ops), t, Op.PopCode(key)), check)
    ensures Replay(ops).GetClient(key) == Replay(WithoutPurges(ops)).GetClient(key)
  {
    var bare := WithoutPurges(ops);
    WithoutPurgesClocked(ops, t);
    PurgesDoNotStand(ops, key);
    GetSessionMeansStanding(ops, key, t);
    GetSessionMeansStanding(bare, key, t);
    PopRefreshMeansStanding(ops, key, t);
    PopRefreshMeansStanding(bare, key, t);
    PopCodeMeansStanding(ops, key, t, check);
    PopCodeMeansStanding(bare, key, t, check);
    ClientsTrack(ops, key);
    ClientsTrack(bare, key);
  }
}
