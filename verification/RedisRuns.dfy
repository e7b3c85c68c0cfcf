/** The server on Redis: the same handlers, answered by the keyspace. Every history of it is a run of the
    grant steps, so what is proved of all runs holds of it. */
module RedisRuns {
  import opened Prelude
  import opened Sessions
  import opened TokenStore
  import opened RedisKeys
  import opened Grants
  import opened RedisLive
  import Frames
  import Registration
  import R = RedisSpec

  /** The keyspace, and the requests with their history. The state's own store is not used. */
  datatype Server = Server(db: R.Db, s: State)

  /** The store operation of a step; `read` is the clock reading taken for a TTL. */
  function OpOf(s: State, a: Action, read: real): Option<Op>
    requires Stage(s, a)
  {
    match a
    case StartLogin(ip, _) => Some(Op.IncrRate(RateKey("login", 60, ip), 60))
    case LoginHour(h, _) => Some(Op.IncrRate(RateKey("login", 3600, s.flights[h].ip), 3600))
    case LoginRedirect(h) => Some(Op.GetClient(s.flights[h].form.clientId))
    case LoginPurge(h) => Some(Op.PurgeCodes(s.flights[h].purgeAt))
    case LoginStore(h) => Some(Op.PutCode(s.flights[h].code, s.flights[h].entry, read))
    case StartToken(ip, _) => Some(Op.IncrRate(RateKey("token", 60, ip), 60))
    case TakeCode(h) => Some(Op.PopCode(s.flights[h].code))
    case TakeRefresh(h) => Some(Op.PopRefresh(s.flights[h].token))
    case StoreAccess(h) => Some(Op.PutSession(s.flights[h].access, s.flights[h].session, read))
    case StoreRefresh(h) => Some(Op.PutRefresh(s.flights[h].refresh, s.flights[h].next, read))
    case Lookup(token) => Some(Op.GetSession(token))
    case Revoke(token) => Some(Op.DeleteSession(token))
    case RevokePurge(h) => Some(Op.PurgeSessions(s.flights[h].purgeAt))
    case StartRegister(ip) => Some(Op.IncrRate(RateKey("register", 60, ip), 60))
    case RegisterStore(h) => Some(Op.PutClient(s.flights[h].clientId, s.flights[h].client))
    case _ => None
  }

  function CountIn(r: Result): nat { if r.Counted? then r.n else 0 }

  function SessionIn(r: Result): Option<Session> { if r.Found? then r.session else None }

  function EntryIn(r: Result): Option<CodeEntry<Session>> { if r.Taken? then r.entry else None }

  function ClientIn(r: Result): Option<Client> { if r.Known? then r.client else None }

  /** The handler, given the store's answer; `there` only decides what is logged of an expired token. */
  function Respond(c: Config, s: State, a: Action, r: Result, there: bool): State
    requires Stage(s, a)
  {
    match a
    case Tick(_, _) => s
    case StartLogin(ip, form) => OnStartLogin(c, s, ip, form, CountIn(r))
    case LoginHour(h, csrfOk) => OnLoginHour(c, s, h, csrfOk, CountIn(r))
    case LoginRedirect(h) => OnLoginRedirect(c, s, h, ClientIn(r))
    case LoginValidate(h, found) => DoLoginValidate(s, h, found)
    case LoginPurge(h) => OnLoginPurge(s, h)
    case LoginMint(h, code) => DoLoginMint(c, s, h, code)
    case LoginStore(h) => OnLoginStore(s, h)
    case StartToken(ip, asked) => OnStartToken(c, s, ip, asked, CountIn(r))
    case TakeCode(h) => OnTakeCode(s, h, EntryIn(r))
    case CheckCode(h) => DoCheckCode(c, s, h)
    case TakeRefresh(h) => OnTakeRefresh(s, h, SessionIn(r), there)
    case MintPair(h, access, refresh) => DoMintPair(c, s, h, access, refresh)
    case StoreAccess(h) => OnStoreAccess(s, h)
    case StoreRefresh(h) => OnStoreRefresh(c, s, h)
    case Lookup(token) => OnLookup(s, token, SessionIn(r))
    case Revoke(token) => OnRevoke(s, token)
    case RevokePurge(h) => OnRevokePurge(s, h)
    case StartRegister(ip) => OnStartRegister(c, s, ip, CountIn(r))
    case RegisterMint(h, uris, clientId) => DoRegisterMint(c, s, h, uris, clientId)
    case RegisterStore(h) => OnRegisterStore(s, h)
  }

  /** No handler looks at the store. */
  lemma LoginIgnoresStore(c: Config, s: State, st: Store, a: Action, r: Result, there: bool)
    requires Stage(s, a) && Frames.OfLogin(a)
    ensures Stage(s.With(st), a) && Respond(c, s.With(st), a, r, there) == Respond(c, s, a, r, there).With(st)
  {
  }

  lemma GrantIgnoresStore(c: Config, s: State, st: Store, a: Action, r: Result, there: bool)
    requires Stage(s, a) && Frames.OfGrant(a)
    ensures Stage(s.With(st), a) && Respond(c, s.With(st), a, r, there) == Respond(c, s, a, r, there).With(st)
  {
  }

  lemma OtherIgnoresStore(c: Config, s: State, st: Store, a: Action, r: Result, there: bool)
    requires Stage(s, a) && !Frames.OfLogin(a) && !Frames.OfGrant(a)
    ensures Stage(s.With(st), a) && Respond(c, s.With(st), a, r, there) == Respond(c, s, a, r, there).With(st)
  {
  }

  lemma RespondIgnoresStore(c: Config, s: State, st: Store, a: Action, r: Result, there: bool)
    requires Stage(s, a)
    ensures Stage(s.With(st), a) && Respond(c, s.With(st), a, r, there) == Respond(c, s, a, r, there).With(st)
  {
    if Frames.OfLogin(a) {
      LoginIgnoresStore(c, s, st, a, r, there);
    } else if Frames.OfGrant(a) {
      GrantIgnoresStore(c, s, st, a, r, there);
    } else {
      OtherIgnoresStore(c, s, st, a, r, there);
    }
  }

  /** The token that a refresh finds in the store. */
  predicate Finds(st: Store, s: State, a: Action)
    requires Stage(s, a)
  {
    a.TakeRefresh? && s.flights[a.h].token in st.refresh
  }

  /** What a step makes of the store it works on, and the answer it gets. */
  function Worked(s: State, st: Store, a: Action, read: real): (Store, Result)
    requires Stage(s, a)
  {
    match OpOf(s, a, read)
    case None => (st, Done)
    case Some(op) => OnRedis(st, s.now, op)
  }

  /** A step is its handler, answered by the store it works on. */
  lemma LoginIsAnswered(c: Config, s: State, a: Action, read: real)
    requires c.backend == Redis && Enabled(c, s, a) && Frames.OfLogin(a)
    ensures Stage(s, a)
    ensures Apply(c, s, a) == Respond(c, s.With(Worked(s, s.store, a, read).0), a, Worked(s, s.store, a, read).1, Finds(s.store, s, a))
  {
  }

  lemma TakeIsAnswered(c: Config, s: State, a: Action, read: real)
    requires c.backend == Redis && Enabled(c, s, a) && (a.TakeRefresh? || a.TakeCode?)
    ensures Stage(s, a)
    ensures Apply(c, s, a) == Respond(c, s.With(Worked(s, s.store, a, read).0), a, Worked(s, s.store, a, read).1, Finds(s.store, s, a))
  {
  }

  lemma GrantIsAnswered(c: Config, s: State, a: Action, read: real)
    requires c.backend == Redis && Enabled(c, s, a) && Frames.OfGrant(a) && !a.TakeRefresh? && !a.TakeCode?
    ensures Stage(s, a)
    ensures Apply(c, s, a) == Respond(c, s.With(Worked(s, s.store, a, read).0), a, Worked(s, s.store, a, read).1, Finds(s.store, s, a))
  {
  }

  lemma OtherIsAnswered(c: Config, s: State, a: Action, read: real)
    requires c.backend == Redis && Enabled(c, s, a) && !Frames.OfLogin(a) && !Frames.OfGrant(a) && !a.Tick?
    ensures Stage(s, a)
    ensures Apply(c, s, a) == Respond(c, s.With(Worked(s, s.store, a, read).0), a, Worked(s, s.store, a, read).1, Finds(s.store, s, a))
  {
  }

  lemma StepIsAnswered(c: Config, s: State, a: Action, read: real)
    requires c.backend == Redis && Enabled(c, s, a) && !a.Tick?
    ensures Stage(s, a)
    ensures Apply(c, s, a) == Respond(c, s.With(Worked(s, s.store, a, read).0), a, Worked(s, s.store, a, read).1, Finds(s.store, s, a))
  {
    if Frames.OfLogin(a) {
      LoginIsAnswered(c, s, a, read);
    } else if a.TakeRefresh? || a.TakeCode? {
      TakeIsAnswered(c, s, a, read);
    } else if Frames.OfGrant(a) {
      GrantIsAnswered(c, s, a, read);
    } else {
      OtherIsAnswered(c, s, a, read);
    }
  }

  // ---------------------------------------------------------------------------------------
  // Histories of the server.
  // ---------------------------------------------------------------------------------------

  /** A step may be taken: the request is there, and new tokens were never seen. Only a tick asks for more. */
  ghost predicate MayStep(c: Config, s: State, a: Action) {
    Stage(s, a) && if a.Tick? then s.now <= a.now else Enabled(c, s, a)
  }

  /** One step: the clock moves, or a handler is answered by the keyspace. */
  ghost predicate Steps(c: Config, v: R.Vault, x: Server, x': Server, a: Action, read: real, nonce: nat) {
    && MayStep(c, x.s, a) && read <= x.s.now
    && if a.Tick? then x' == Server(x.db, x.s.(now := a.now))
       else match OpOf(x.s, a, read)
         case None => x' == Server(x.db, Respond(c, x.s, a, Done, false))
         case Some(op) =>
           var (db, r) := R.Apply(v, c.clientTtl, x.db, x.s.now, nonce, op);
           x' == Server(db, Respond(c, x.s, a, r, FindsIn(v, x.db, x.s, a)))
  }

  predicate FindsIn(v: R.Vault, db: R.Db, s: State, a: Action)
    requires Stage(s, a)
  {
    a.TakeRefresh? && LiveSession(v, db, RefreshKind, s.flights[a.h].token, s.now).Some?
  }

  ghost predicate StepsTo(c: Config, v: R.Vault, x: Server, x': Server) {
    exists a, read, nonce :: Steps(c, v, x, x', a, read, nonce)
  }

  ghost predicate StepsAt(c: Config, v: R.Vault, xs: seq<Server>, i: int) {
    0 <= i < |xs| - 1 ==> StepsTo(c, v, xs[i], xs[i + 1])
  }

  /** A history of the server, from an empty keyspace. */
  ghost predicate History(c: Config, v: R.Vault, xs: seq<Server>) {
    && c.backend == Redis && R.Lawful(v)
    && xs != [] && xs[0].db == map[] && Init(xs[0].s)
    && forall i :: StepsAt(c, v, xs, i)
  }

  // ---------------------------------------------------------------------------------------
  // The simulation.
  // ---------------------------------------------------------------------------------------

  /** A client's key lives for exactly the client TTL from its registration. */
  ghost predicate ClientsDated(c: Config, db: R.Db, log: seq<Event>) {
    forall id: string :: ClientDated(c, db, log, id)
  }

  ghost predicate ClientDated(c: Config, db: R.Db, log: seq<Event>, id: string) {
    Key(ClientKind, id) in db ==> exists i :: Registers(c, log, i, id, db[Key(ClientKind, id)].deadline)
  }

  predicate Registers(c: Config, log: seq<Event>, i: int, id: string, deadline: Option<real>) {
    && 0 <= i < |log| && log[i].Registered? && log[i].clientId == id
    && deadline == Some(log[i].at + c.clientTtl as real)
  }

  /** The state `y` is what the server stands for: the same requests and history, and a store that holds
      exactly the visible records. */
  ghost predicate Simulates(c: Config, v: R.Vault, x: Server, y: State) {
    && y == x.s.With(y.store)
    && Stands(v, x.db, x.s.now, y.store) && Dated(v, x.db) && ClientsDated(c, x.db, x.s.log)
  }

  /** Time takes a client's record exactly when its TTL is over. */
  lemma ClientTaken(c: Config, v: R.Vault, x: Server, y: State, later: real, id: string)
    requires Simulates(c, v, x, y) && Registration.RegisteredOnce(x.s.log) && id in y.store.clients
    ensures id in Vanished(v, x.db, y.store, later).clients <==> ClientOver(c, x.s.log, id, later)
  {
    assert StandsAt(v, x.db, x.s.now, y.store, id) && ClientDated(c, x.db, x.s.log, id);
    var i :| Registers(c, x.s.log, i, id, x.db[Key(ClientKind, id)].deadline);
    Registration.ClientOverMeans(c, x.s.log, i, later);
  }

  lemma TickIsSimulated(c: Config, v: R.Vault, x: Server, y: State, later: Instant)
    requires c.backend == Redis && Simulates(c, v, x, y) && Registration.RegisteredOnce(x.s.log) && x.s.now <= later
    ensures var gone := Vanished(v, x.db, y.store, later);
            && Enabled(c, y, Tick(later, gone))
            && Simulates(c, v, Server(x.db, x.s.(now := later)), Apply(c, y, Tick(later, gone)))
  {
    var gone := Vanished(v, x.db, y.store, later);
    TimeTakes(v, x.db, y.store, x.s.now, later);
    VanishedIsLate(v, x.db, y.store, x.s.now, later);
    forall id | id in y.store.clients ensures id in gone.clients <==> ClientOver(c, y.log, id, later) {
      ClientTaken(c, v, x, y, later, id);
    }
  }

  lemma LongerDates(c: Config, db: R.Db, db': R.Db, log: seq<Event>, log': seq<Event>, id: string)
    requires ClientDated(c, db, log, id) && log <= log' && R.SameCell(db', db, Key(ClientKind, id))
    ensures ClientDated(c, db', log', id)
  {
    if Key(ClientKind, id) in db {
      var i :| Registers(c, log, i, id, db[Key(ClientKind, id)].deadline);
      assert Registers(c, log', i, id, db[Key(ClientKind, id)].deadline);
    }
  }

  /** Only a registration writes a client's key, and it is logged. */
  lemma OperationDatesClients(c: Config, v: R.Vault, x: Server, a: Action, read: real, nonce: nat, op: Op, log': seq<Event>)
    requires ClientsDated(c, x.db, x.s.log) && Stage(x.s, a) && OpOf(x.s, a, read) == Some(op) && x.s.log <= log'
    requires a.RegisterStore? ==>
               |log'| > |x.s.log| && log'[|x.s.log|].Registered? && log'[|x.s.log|].clientId == op.clientId && log'[|x.s.log|].at == x.s.now
    ensures ClientsDated(c, R.Apply(v, c.clientTtl, x.db, x.s.now, nonce, op).0, log')
  {
    var db' := R.Apply(v, c.clientTtl, x.db, x.s.now, nonce, op).0;
    forall id: string ensures ClientDated(c, db', log', id) {
      assert ClientDated(c, x.db, x.s.log, id);
      if R.Target(op) == Some((ClientKind, id)) {
        assert a.RegisterStore?;
        assert Registers(c, log', |x.s.log|, id, db'[Key(ClientKind, id)].deadline);
      } else {
        R.OnlyTargetChanges(v, c.clientTtl, x.db, x.s.now, nonce, op, ClientKind, id);
        LongerDates(c, x.db, db', x.s.log, log', id);
      }
    }
  }

  /** A registration is logged at the instant its record is written, and every reading lies in the past. */
  lemma StepLogs(c: Config, y: State, a: Action, read: real)
    requires Enabled(c, y, a) && !a.Tick? && Frames.ReadingsPast(y) && read <= y.now
    ensures y.log <= Apply(c, y, a).log && Apply(c, y, a).now == y.now
    ensures OpOf(y, a, read).Some? ==> ReadsBefore(OpOf(y, a, read).value, y.now)
    ensures a.RegisterStore? ==>
              var log' := Apply(c, y, a).log;
              |log'| > |y.log| && log'[|y.log|].Registered? && log'[|y.log|].clientId == y.flights[a.h].clientId && log'[|y.log|].at == y.now
  {
    Frames.StepFrame(c, y, a);
    if a.RegisterStore? {
      assert Apply(c, y, a) == DoRegisterStore(y, a.h);
    }
  }

  /** The keyspace answers a handler as the store it stands for does. */
  lemma AnswersAgree(c: Config, v: R.Vault, x: Server, y: State, a: Action, read: real, nonce: nat)
    requires R.Lawful(v) && Simulates(c, v, x, y) && Stage(x.s, a)
    ensures Finds(y.store, y, a) == FindsIn(v, x.db, x.s, a)
    ensures OpOf(y, a, read) == OpOf(x.s, a, read)
    ensures OpOf(x.s, a, read).Some? ==>
              var op := OpOf(x.s, a, read).value;
              && R.Apply(v, c.clientTtl, x.db, x.s.now, nonce, op).1 == OnRedis(y.store, x.s.now, op).1
              && Stands(v, R.Apply(v, c.clientTtl, x.db, x.s.now, nonce, op).0, x.s.now, OnRedis(y.store, x.s.now, op).0)
  {
    if a.TakeRefresh? {
      assert StandsAt(v, x.db, x.s.now, y.store, x.s.flights[a.h].token);
    }
    if OpOf(x.s, a, read).Some? {
      OperationStands(v, c.clientTtl, x.db, y.store, x.s.now, nonce, OpOf(x.s, a, read).value);
    }
  }

  /** A handler's step on the keyspace is the same handler's step on that store. */
  lemma HandlersAgree(c: Config, v: R.Vault, x: Server, x': Server, y: State, a: Action, read: real, nonce: nat)
    requires c.backend == Redis && R.Lawful(v) && Simulates(c, v, x, y)
    requires Steps(c, v, x, x', a, read, nonce) && !a.Tick?
    ensures Enabled(c, y, a)
    ensures Apply(c, y, a) == x'.s.With(Worked(x.s, y.store, a, read).0)
  {
    var w := Worked(y, y.store, a, read);
    AnswersAgree(c, v, x, y, a, read, nonce);
    StepIsAnswered(c, y, a, read);
    RespondIgnoresStore(c, x.s, w.0, a, w.1, Finds(y.store, y, a));
  }

  lemma HandlerIsSimulated(c: Config, v: R.Vault, x: Server, x': Server, y: State, a: Action, read: real, nonce: nat)
    requires c.backend == Redis && R.Lawful(v) && Simulates(c, v, x, y) && Frames.ReadingsPast(y)
    requires Steps(c, v, x, x', a, read, nonce) && !a.Tick?
    ensures Enabled(c, y, a) && Simulates(c, v, x', Apply(c, y, a))
  {
    HandlersAgree(c, v, x, x', y, a, read, nonce);
    AnswersAgree(c, v, x, y, a, read, nonce);
    StepLogs(c, y, a, read);
    match OpOf(x.s, a, read)
    case None => LogExtends(c, v, x, x'.s.log);
    case Some(op) =>
      OperationDates(v, c.clientTtl, x.db, x.s.now, nonce, op);
      OperationDatesClients(c, v, x, a, read, nonce, op, x'.s.log);
  }

  lemma LogExtends(c: Config, v: R.Vault, x: Server, log': seq<Event>)
    requires ClientsDated(c, x.db, x.s.log) && x.s.log <= log'
    ensures ClientsDated(c, x.db, log')
  {
    forall id: string ensures ClientDated(c, x.db, log', id) {
      assert ClientDated(c, x.db, x.s.log, id);
      LongerDates(c, x.db, x.db, x.s.log, log', id);
    }
  }

  ghost predicate AllSimulate(c: Config, v: R.Vault, xs: seq<Server>, run: seq<State>) {
    |run| == |xs| && forall i :: 0 <= i < |xs| ==> Simulates(c, v, xs[i], run[i])
  }

  lemma OneMoreSimulates(c: Config, v: R.Vault, xs: seq<Server>, run: seq<State>, next: State)
    requires xs != [] && AllSimulate(c, v, xs[..|xs| - 1], run) && Simulates(c, v, xs[|xs| - 1], next)
    ensures AllSimulate(c, v, xs, run + [next])
  {
    forall i | 0 <= i < |xs| ensures Simulates(c, v, xs[i], (run + [next])[i]) {
      if i < |xs| - 1 {
        assert xs[..|xs| - 1][i] == xs[i];
      }
    }
  }

  /** Every history of the server on Redis is a run of the grant steps with the same requests, answers and
      log: what is proved of all runs, with Redis losing nothing early, holds of it. */
  lemma {:induction false} HistoryIsRun(c: Config, v: R.Vault, xs: seq<Server>) returns (run: seq<State>)
    requires History(c, v, xs)
    ensures Run(c, run) && AllSimulate(c, v, xs, run)
    decreases |xs|
  {
    var n := |xs| - 1;
    if n == 0 {
      run := FirstOfRun(c, v, xs);
    } else {
      HistoryPrefix(c, v, xs);
      run := HistoryIsRun(c, v, xs[..n]);
      assert Simulates(c, v, xs[..n][n - 1], run[n - 1]);
      var next := LastOfRun(c, v, xs, run);
      OneMoreSimulates(c, v, xs, run, next);
      run := run + [next];
    }
  }

  lemma FirstOfRun(c: Config, v: R.Vault, xs: seq<Server>) returns (run: seq<State>)
    requires History(c, v, xs) && |xs| == 1
    ensures Run(c, run) && AllSimulate(c, v, xs, run)
  {
    run := [xs[0].s];
    EmptyStands(v, xs[0].s.now);
    EmptyDated(v);
  }

  lemma LastOfRun(c: Config, v: R.Vault, xs: seq<Server>, run: seq<State>) returns (next: State)
    requires History(c, v, xs) && |xs| > 1 && Run(c, run) && |run| == |xs| - 1
    requires Simulates(c, v, xs[|xs| - 2], run[|run| - 1])
    ensures Run(c, run + [next]) && Simulates(c, v, xs[|xs| - 1], next)
  {
    var n := |xs| - 1;
    assert StepsAt(c, v, xs, n - 1);
    assert StepsTo(c, v, xs[n - 1], xs[n - 1 + 1]);
    var a, read, nonce :| Steps(c, v, xs[n - 1], xs[n - 1 + 1], a, read, nonce);
    next := NextOfRun(c, v, xs[n - 1], xs[n], run, a, read, nonce);
  }

  lemma HistoryPrefix(c: Config, v: R.Vault, xs: seq<Server>)
    requires History(c, v, xs) && |xs| > 1
    ensures History(c, v, xs[..|xs| - 1])
  {
    var init := xs[..|xs| - 1];
    forall i: int ensures StepsAt(c, v, init, i) {
      assert StepsAt(c, v, xs, i);
    }
  }

  lemma NextOfRun(c: Config, v: R.Vault, x: Server, x': Server, run: seq<State>, a: Action, read: real, nonce: nat) returns (next: State)
    requires c.backend == Redis && R.Lawful(v) && Run(c, run) && Simulates(c, v, x, run[|run| - 1])
    requires Steps(c, v, x, x', a, read, nonce)
    ensures Run(c, run + [next]) && Simulates(c, v, x', next)
  {
    var y := run[|run| - 1];
    Registration.RunRecordsKept(c, run, |run| - 1);
    Frames.RunReadingsPast(c, run, |run| - 1);
    if a.Tick? {
      var b := Tick(a.now, Vanished(v, x.db, y.store, a.now));
      TickIsSimulated(c, v, x, y, a.now);
      next := Apply(c, y, b);
      RunExtends(c, run, b);
    } else {
      HandlerIsSimulated(c, v, x, x', y, a, read, nonce);
      next := Apply(c, y, a);
      RunExtends(c, run, a);
    }
  }
}
