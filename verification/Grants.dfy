/** auth/routes.py as interleaved steps: every request is a coroutine, and each action below is one of
    the stretches that run between two of its `await` points. Any request may move next.
    Sessions are values here; OAuthServer.dfy runs the same steps on objects. */
module Grants {
  import opened Prelude
  import opened Sessions
  import opened TokenStore
  import opened RedisKeys
  import opened Pkce
  import opened RateLimiter

  type Positive = n: nat | 0 < n witness 1

  /** Redis drops records on its own; the in-memory store drops them when it purges. */
  datatype Backend = Memory | Redis

  /** The lower-cased scheme and host of a parsed URL. */
  datatype Url = Url(scheme: string, host: string)

  datatype Config = Config(
    backend: Backend,
    codeTtl: nat, accessTtl: nat, refreshTtl: nat, clientTtl: Positive,
    loginPerMinute: nat, loginPerHour: nat, tokenPerMinute: nat, registerPerMinute: nat,
    allowedRedirects: seq<string>,
    parse: string -> Option<Url>,
    sha256: seq<Byte> -> seq<Byte>)

  /** The fields of a login form that the flow uses. */
  datatype LoginForm = LoginForm(redirectUri: string, clientId: string, challenge: string, challengeMethod: string)

  datatype TokenRequest = TokenRequest(grantType: string, code: Option<string>, redirectUri: Option<string>,
                                       clientId: Option<string>, verifier: Option<string>,
                                       refreshToken: Option<string>)

  /** How a request is answered: an issued pair, a redirect carrying a code, a new client, an empty
      200, or a status with an error code. */
  datatype Reply =
    | Pair(access: string, refresh: string, expiresIn: nat)
    | RedirectWithCode(uri: string, code: string)
    | ClientCreated(clientId: string)
    | Accomplished
    | Error(status: int, error: string)

  const TOO_MANY := Error(429, "too_many_requests")
  const LOGIN_FORM := Error(400, "login_form")
  const INVALID_GRANT := Error(400, "invalid_grant")
  const INVALID_REQUEST := Error(400, "invalid_request")
  const SERVER_ERROR := Error(500, "server_error")

  /** Where a request stands and what its coroutine holds. `purgeAt` is the reading its purge takes
      before the lock. */
  datatype Flight<+S> =
    | LoginStarted(ip: string, form: LoginForm)
    | LoginAdmitted(form: LoginForm)
    | LoginAllowed(form: LoginForm)
    | LoginValidated(form: LoginForm, session: S, purgeAt: Instant)
    | LoginPurged(form: LoginForm, session: S)
    | LoginMinted(code: string, entry: CodeEntry<S>)
    | CodeRequested(code: string, asked: TokenRequest)
    | RefreshRequested(token: string)
    | CodeTaken(code: string, entry: CodeEntry<S>, asked: TokenRequest)
    | Authorized(source: string, session: S)
    | PairMinted(access: string, session: S, refresh: string, next: S)
    | AccessStored(access: string, refresh: string, next: S)
    | RevokePurging(purgeAt: Instant)
    | RegisterAdmitted
    | RegisterMinted(clientId: string, client: Client)

  /** The history of a run. `at` is the clock reading that decided the step. */
  datatype Event =
    | Checked(hit: Hit, limit: nat)
    | RedirectAllowed(at: real, request: nat, uri: string, clientId: string)
    | Purged(at: real, request: nat, readAt: real)
    | LoggedIn(at: real, request: nat, code: string, form: LoginForm, who: Identity)
    | CodeStored(at: real, request: nat, code: string)
    | Popped(at: real, request: nat, cred: string)
    | Redeemed(at: real, request: nat, code: string, asked: TokenRequest)
    | Issued(at: real, request: nat, source: string, access: string, refresh: string, who: Identity)
    | Accepted(at: real, token: string, session: Session)
    | Revoked(at: real, token: string)
    | Registered(at: real, request: nat, clientId: string, uris: seq<string>)

  datatype State = State(
    now: Instant,
    store: Store,
    flights: map<nat, Flight<Session>>,
    nextId: nat,
    replies: map<nat, Reply>,
    minted: set<string>,
    log: seq<Event>)
  {
    function Move(h: nat, f: Flight<Session>): State { this.(flights := flights[h := f]) }

    function Finish(h: nat, r: Reply): State { this.(flights := flights - {h}, replies := replies[h := r]) }

    function Record(e: Event): State { this.(log := log + [e]) }

    function With(st: Store): State { this.(store := st) }

    function Mint(tokens: set<string>): State { this.(minted := minted + tokens) }

    /** A new request takes the next number. */
    function Open(f: Flight<Session>): State { this.(flights := flights[nextId := f], nextId := nextId + 1) }

    function Refuse(r: Reply): State { this.(replies := replies[nextId := r], nextId := nextId + 1) }

    predicate At(h: nat) { h in flights }

    predicate Unseen(token: string) { token !in minted && token != "" }
  }

  ghost predicate Init(s: State) {
    && s.store == EMPTY && s.flights == map[] && s.replies == map[] && s.minted == {} && s.log == []
  }

  // ---------------------------------------------------------------------------------------
  // The pure tests.
  // ---------------------------------------------------------------------------------------

  datatype Decision = Yes | No | Crash

  const LOOPBACK_HOSTS := {"127.0.0.1", "localhost", "::1", "[::1]"}

  predicate WebScheme(u: Url) {
    u.scheme == "https" || u.scheme == "http"
  }

  /** `_redirect_uri_is_allowed`: loopback, then the client's registration, then the allowlist. */
  function RedirectDecision(c: Config, client: Option<Client>, uri: string, clientId: string): Decision {
    if uri == "" then No
    else match c.parse(uri)
      case None => Crash
      case Some(u) =>
        if !WebScheme(u) then No
        else if u.scheme == "http" && u.host in LOOPBACK_HOSTS then Yes
        else if clientId != "" && client.Some? && uri in client.value.redirectUris then Yes
        else if uri in c.allowedRedirects then Yes
        else No
  }

  /** The checks a redemption makes in order; `None` means that a pair may be issued. */
  function CodeOutcome(c: Config, entry: Option<CodeEntry<Session>>, asked: TokenRequest, now: real): Option<Reply> {
    match entry
    case None => Some(INVALID_GRANT)
    case Some(e) =>
      if CodeExpired(e, now) then Some(INVALID_GRANT)
      else if OrEmpty(asked.redirectUri) != e.redirectUri then Some(INVALID_GRANT)
      else if e.clientId != "" && OrEmpty(asked.clientId) != e.clientId then Some(INVALID_GRANT)
      else if e.challenge == "" then Some(INVALID_GRANT)
      else if OrEmpty(asked.verifier) == "" then Some(INVALID_REQUEST)
      else match VerifyS256(c.sha256, e.challenge, asked.verifier.value)
        case Raises => Some(SERVER_ERROR)
        case Mismatch => Some(INVALID_GRANT)
        case Match => None
  }

  /** What a redemption must have presented. */
  predicate Honoured(c: Config, redirectUri: string, clientId: string, challenge: string, asked: TokenRequest) {
    && OrEmpty(asked.redirectUri) == redirectUri
    && (clientId != "" ==> OrEmpty(asked.clientId) == clientId)
    && asked.verifier.Some?
    && VerifyS256(c.sha256, challenge, asked.verifier.value) == Match
  }

  /** A pair may be issued iff the code was there, within its bound, and presented with everything
      it was bound to; sections 4.1.3 of RFC 6749 and 4.6 of RFC 7636. What `Honoured` asks for is spelled
      out in `Redemption.HonouredMeans`. */
  lemma OutcomeMeansHonoured(c: Config, entry: Option<CodeEntry<Session>>, asked: TokenRequest, now: real)
    ensures CodeOutcome(c, entry, asked, now) == None
            <==> (&& entry.Some? && now <= entry.value.expiresAt
                  && entry.value.challenge != "" && OrEmpty(asked.verifier) != ""
                  && Honoured(c, entry.value.redirectUri, entry.value.clientId, entry.value.challenge, asked))
  {
  }

  /** Which error a refused redemption gets: a missing verifier is an invalid request, text outside
      ASCII a server error, and everything else an invalid grant. */
  lemma RefusalCodes(c: Config, entry: Option<CodeEntry<Session>>, asked: TokenRequest, now: real)
    ensures var r := CodeOutcome(c, entry, asked, now);
            var matches := && entry.Some? && now <= entry.value.expiresAt && entry.value.challenge != ""
                           && OrEmpty(asked.redirectUri) == entry.value.redirectUri
                           && (entry.value.clientId != "" ==> OrEmpty(asked.clientId) == entry.value.clientId);
            var verifier := OrEmpty(asked.verifier);
            && (r == Some(INVALID_REQUEST) <==> matches && verifier == "")
            && (r == Some(SERVER_ERROR) <==> matches && verifier != "" && !(IsAscii(verifier) && IsAscii(entry.value.challenge)))
            && (r == None || r == Some(INVALID_REQUEST) || r == Some(SERVER_ERROR) || r == Some(INVALID_GRANT))
  {
  }

  /** A purge cannot be noticed in the status or error code of a redemption: an entry that was
      purged and one that is found expired get the same answer. */
  lemma PurgeKeepsOutcome(c: Config, ops: seq<Timed>, code: string, asked: TokenRequest, t: real, check: real)
    requires Clocked(ops, t) && t <= check
    ensures CodeOutcome(c, Answer(ops, t, Op.PopCode(code)).entry, asked, check)
            == CodeOutcome(c, Answer(WithoutPurges(ops), t, Op.PopCode(code)).entry, asked, check)
  {
    PurgingIsInvisible(ops, code, t, check);
    OutcomeOfRedeemable(c, Answer(ops, t, Op.PopCode(code)), asked, check);
    OutcomeOfRedeemable(c, Answer(WithoutPurges(ops), t, Op.PopCode(code)), asked, check);
  }

  lemma OutcomeOfRedeemable(c: Config, r: Result, asked: TokenRequest, check: real)
    requires r.Taken?
    ensures CodeOutcome(c, r.entry, asked, check) == CodeOutcome(c, Redeemable(r, check), asked, check)
  {
  }

  // ---------------------------------------------------------------------------------------
  // The steps.
  // ---------------------------------------------------------------------------------------

  /** Records that vanish from Redis as time passes. */
  datatype Gone = Gone(sessions: set<string>, codes: set<string>, clients: set<string>, refresh: set<string>)

  const NOTHING_GONE := Gone({}, {}, {}, {})

  function Drop(st: Store, g: Gone): Store {
    st.(sessions := st.sessions - g.sessions, codes := st.codes - g.codes,
        clients := st.clients - g.clients, refresh := st.refresh - g.refresh)
  }

  /** What Redis drops of sessions, codes and refresh tokens is less than a second from its own bound. */
  ghost predicate OnlyLate(st: Store, gone: Gone, now: real) {
    && (forall t :: t in gone.sessions && t in st.sessions ==> st.sessions[t].expiresAt - 1.0 < now)
    && (forall k :: k in gone.codes && k in st.codes ==> st.codes[k].expiresAt - 1.0 < now)
    && (forall t :: t in gone.refresh && t in st.refresh ==> st.refresh[t].expiresAt - 1.0 < now)
  }

  /** What time may take. Memory loses nothing by itself. Redis keeps every record until less than a
      second before its own bound, and every client for exactly the client TTL. */
  ghost predicate MayGo(c: Config, s: State, now: real, gone: Gone) {
    match c.backend
    case Memory => gone == NOTHING_GONE
    case Redis =>
      && OnlyLate(s.store, gone, now)
      && forall id :: id in s.store.clients ==> (id in gone.clients <==> ClientOver(c, s.log, id, now))
  }

  /** The client's TTL, counted from its registration, is over. */
  ghost predicate ClientOver(c: Config, log: seq<Event>, id: string, now: real) {
    exists i :: 0 <= i < |log| && log[i].Registered? && log[i].clientId == id && log[i].at + c.clientTtl as real <= now
  }

  datatype Action =
    | Tick(now: real, gone: Gone)
    | StartLogin(ip: string, form: LoginForm)
    | LoginHour(h: nat, csrfOk: bool)
    | LoginRedirect(h: nat)
    | LoginValidate(h: nat, found: Option<Identity>)
    | LoginPurge(h: nat)
    | LoginMint(h: nat, code: string)
    | LoginStore(h: nat)
    | StartToken(ip: string, asked: TokenRequest)
    | TakeCode(h: nat)
    | CheckCode(h: nat)
    | TakeRefresh(h: nat)
    | MintPair(h: nat, access: string, refresh: string)
    | StoreAccess(h: nat)
    | StoreRefresh(h: nat)
    | Lookup(token: string)
    | Revoke(token: string)
    | RevokePurge(h: nat)
    | StartRegister(ip: string)
    | RegisterMint(h: nat, uris: Option<seq<string>>, clientId: string)
    | RegisterStore(h: nat)

  /** The request that the step moves is where the step finds it; no store is looked at. */
  predicate Stage(s: State, a: Action) {
    match a
    case LoginHour(h, _) => s.At(h) && s.flights[h].LoginStarted?
    case LoginRedirect(h) => s.At(h) && s.flights[h].LoginAdmitted?
    case LoginValidate(h, _) => s.At(h) && s.flights[h].LoginAllowed?
    case LoginPurge(h) => s.At(h) && s.flights[h].LoginValidated?
    case LoginMint(h, _) => s.At(h) && s.flights[h].LoginPurged?
    case LoginStore(h) => s.At(h) && s.flights[h].LoginMinted?
    case TakeCode(h) => s.At(h) && s.flights[h].CodeRequested?
    case CheckCode(h) => s.At(h) && s.flights[h].CodeTaken?
    case TakeRefresh(h) => s.At(h) && s.flights[h].RefreshRequested?
    case MintPair(h, _, _) => s.At(h) && s.flights[h].Authorized?
    case StoreAccess(h) => s.At(h) && s.flights[h].PairMinted?
    case StoreRefresh(h) => s.At(h) && s.flights[h].AccessStored?
    case RevokePurge(h) => s.At(h) && s.flights[h].RevokePurging?
    case RegisterMint(h, _, _) => s.At(h) && s.flights[h].RegisterAdmitted?
    case RegisterStore(h) => s.At(h) && s.flights[h].RegisterMinted?
    case _ => true
  }

  ghost predicate Enabled(c: Config, s: State, a: Action) {
    && Stage(s, a)
    && match a
       case Tick(now, gone) => s.now <= now && MayGo(c, s, now, gone)
       case LoginMint(_, code) => s.Unseen(code)
       case MintPair(_, access, refresh) => s.Unseen(access) && s.Unseen(refresh) && access != refresh
       case RegisterMint(_, _, clientId) => s.Unseen(clientId)
       case _ => true
  }

  // `On...` is what a handler does with the store's answer; `Do...` is the same on the store in the state.

  /** `_check_rate_limit` with the count it was answered: log the check, and report whether to go on. */
  function Rated(s: State, request: nat, ip: string, name: string, limit: nat, seconds: nat, count: nat): (State, bool) {
    (s.Record(Checked(Hit(s.now, request, RateKey(name, seconds, ip), seconds), limit)), count <= limit)
  }

  function BumpCounter(s: State, ip: string, name: string, seconds: nat): (State, nat) {
    var (st, count) := s.store.IncrRate(RateKey(name, seconds, ip), seconds, s.now);
    (s.With(st), count)
  }

  function RateCheck(s: State, request: nat, ip: string, name: string, limit: nat, seconds: nat): (State, bool) {
    var (s1, count) := BumpCounter(s, ip, name, seconds);
    Rated(s1, request, ip, name, limit, seconds, count)
  }

  function OnStartLogin(c: Config, s: State, ip: string, form: LoginForm, count: nat): State {
    var (s1, ok) := Rated(s, s.nextId, ip, "login", c.loginPerMinute, 60, count);
    if ok then s1.Open(LoginStarted(ip, form)) else s1.Refuse(TOO_MANY)
  }

  function DoStartLogin(c: Config, s: State, ip: string, form: LoginForm): State {
    var (s1, count) := BumpCounter(s, ip, "login", 60);
    OnStartLogin(c, s1, ip, form, count)
  }

  function OnLoginHour(c: Config, s: State, h: nat, csrfOk: bool, count: nat): State
    requires s.At(h) && s.flights[h].LoginStarted?
  {
    var f := s.flights[h];
    var (s1, ok) := Rated(s, h, f.ip, "login", c.loginPerHour, 3600, count);
    if !ok then s1.Finish(h, TOO_MANY)
    else if !csrfOk then s1.Finish(h, LOGIN_FORM)
    else if f.form.challenge == "" then s1.Finish(h, LOGIN_FORM)
    else if f.form.challengeMethod != "" && f.form.challengeMethod != "S256" then s1.Finish(h, LOGIN_FORM)
    else s1.Move(h, LoginAdmitted(f.form))
  }

  function DoLoginHour(c: Config, s: State, h: nat, csrfOk: bool): State
    requires s.At(h) && s.flights[h].LoginStarted?
  {
    var (s1, count) := BumpCounter(s, s.flights[h].ip, "login", 3600);
    OnLoginHour(c, s1, h, csrfOk, count)
  }

  function OnLoginRedirect(c: Config, s: State, h: nat, client: Option<Client>): State
    requires s.At(h) && s.flights[h].LoginAdmitted?
  {
    var form := s.flights[h].form;
    match RedirectDecision(c, client, form.redirectUri, form.clientId)
    case Crash => s.Finish(h, SERVER_ERROR)
    case No => s.Finish(h, LOGIN_FORM)
    case Yes => s.Record(RedirectAllowed(s.now, h, form.redirectUri, form.clientId)).Move(h, LoginAllowed(form))
  }

  function DoLoginRedirect(c: Config, s: State, h: nat): State
    requires s.At(h) && s.flights[h].LoginAdmitted?
  {
    OnLoginRedirect(c, s, h, s.store.GetClient(s.flights[h].form.clientId))
  }

  function DoLoginValidate(s: State, h: nat, found: Option<Identity>): State
    requires s.At(h) && s.flights[h].LoginAllowed?
  {
    match found
    case None => s.Finish(h, LOGIN_FORM)
    case Some(who) => s.Move(h, LoginValidated(s.flights[h].form, Session(who, 0.0), s.now))
  }

  function OnLoginPurge(s: State, h: nat): State
    requires s.At(h) && s.flights[h].LoginValidated?
  {
    var f := s.flights[h];
    s.Record(Purged(s.now, h, f.purgeAt)).Move(h, LoginPurged(f.form, f.session))
  }

  function DoLoginPurge(c: Config, s: State, h: nat): State
    requires s.At(h) && s.flights[h].LoginValidated?
  {
    var st := if c.backend == Memory then s.store.PurgeCodes(s.flights[h].purgeAt).0 else s.store;
    OnLoginPurge(s.With(st), h)
  }

  function DoLoginMint(c: Config, s: State, h: nat, code: string): State
    requires s.At(h) && s.flights[h].LoginPurged?
  {
    var f := s.flights[h];
    var e := CodeEntry(f.session, f.form.redirectUri, f.form.clientId, s.now + c.codeTtl as real, f.form.challenge);
    s.Mint({code}).Record(LoggedIn(s.now, h, code, f.form, f.session.who)).Move(h, LoginMinted(code, e))
  }

  function OnLoginStore(s: State, h: nat): State
    requires s.At(h) && s.flights[h].LoginMinted?
  {
    var f := s.flights[h];
    s.Record(CodeStored(s.now, h, f.code)).Finish(h, RedirectWithCode(f.entry.redirectUri, f.code))
  }

  function DoLoginStore(s: State, h: nat): State
    requires s.At(h) && s.flights[h].LoginMinted?
  {
    OnLoginStore(s.With(s.store.PutCode(s.flights[h].code, s.flights[h].entry)), h)
  }

  function OnStartToken(c: Config, s: State, ip: string, asked: TokenRequest, count: nat): State {
    var (s1, ok) := Rated(s, s.nextId, ip, "token", c.tokenPerMinute, 60, count);
    if !ok then s1.Refuse(TOO_MANY)
    else if asked.grantType == "authorization_code" then
      if OrEmpty(asked.code) == "" then s1.Refuse(INVALID_GRANT) else s1.Open(CodeRequested(asked.code.value, asked))
    else if asked.grantType == "refresh_token" then
      if OrEmpty(asked.refreshToken) == "" then s1.Refuse(INVALID_REQUEST)
      else s1.Open(RefreshRequested(asked.refreshToken.value))
    else s1.Refuse(Error(400, "unsupported_grant_type"))
  }

  function DoStartToken(c: Config, s: State, ip: string, asked: TokenRequest): State {
    var (s1, count) := BumpCounter(s, ip, "token", 60);
    OnStartToken(c, s1, ip, asked, count)
  }

  function OnTakeCode(s: State, h: nat, entry: Option<CodeEntry<Session>>): State
    requires s.At(h) && s.flights[h].CodeRequested?
  {
    var f := s.flights[h];
    match entry
    case None => s.Finish(h, INVALID_GRANT)
    case Some(e) => s.Record(Popped(s.now, h, f.code)).Move(h, CodeTaken(f.code, e, f.asked))
  }

  function DoTakeCode(s: State, h: nat): State
    requires s.At(h) && s.flights[h].CodeRequested?
  {
    var (st, entry) := s.store.PopCode(s.flights[h].code);
    OnTakeCode(s.With(st), h, entry)
  }

  function DoCheckCode(c: Config, s: State, h: nat): State
    requires s.At(h) && s.flights[h].CodeTaken?
  {
    var f := s.flights[h];
    match CodeOutcome(c, Some(f.entry), f.asked, s.now)
    case Some(refusal) => s.Finish(h, refusal)
    case None => s.Record(Redeemed(s.now, h, f.code, f.asked)).Move(h, Authorized(f.code, f.entry.session))
  }

  /** `there` only decides what is logged: an expired token is consumed although nothing is handed out. */
  function OnTakeRefresh(s: State, h: nat, session: Option<Session>, there: bool): State
    requires s.At(h) && s.flights[h].RefreshRequested?
  {
    var token := s.flights[h].token;
    var s1 := if there then s.Record(Popped(s.now, h, token)) else s;
    match session
    case None => s1.Finish(h, INVALID_GRANT)
    case Some(live) => s1.Move(h, Authorized(token, live))
  }

  function DoTakeRefresh(s: State, h: nat): State
    requires s.At(h) && s.flights[h].RefreshRequested?
  {
    var token := s.flights[h].token;
    var (st, session) := s.store.PopRefresh(token, s.now);
    OnTakeRefresh(s.With(st), h, session, token in s.store.refresh)
  }

  /** `_issue_token_pair` up to its first await: one clock reading sets both bounds. */
  function DoMintPair(c: Config, s: State, h: nat, access: string, refresh: string): State
    requires s.At(h) && s.flights[h].Authorized?
  {
    var f := s.flights[h];
    var session := Session(f.session.who, s.now + c.accessTtl as real);
    var next := Session(f.session.who, s.now + c.refreshTtl as real);
    s.Mint({access, refresh}).Record(Issued(s.now, h, f.source, access, refresh, f.session.who))
     .Move(h, PairMinted(access, session, refresh, next))
  }

  function OnStoreAccess(s: State, h: nat): State
    requires s.At(h) && s.flights[h].PairMinted?
  {
    var f := s.flights[h];
    s.Move(h, AccessStored(f.access, f.refresh, f.next))
  }

  function DoStoreAccess(s: State, h: nat): State
    requires s.At(h) && s.flights[h].PairMinted?
  {
    OnStoreAccess(s.With(s.store.PutSession(s.flights[h].access, s.flights[h].session)), h)
  }

  function OnStoreRefresh(c: Config, s: State, h: nat): State
    requires s.At(h) && s.flights[h].AccessStored?
  {
    var f := s.flights[h];
    s.Finish(h, Pair(f.access, f.refresh, c.accessTtl))
  }

  function DoStoreRefresh(c: Config, s: State, h: nat): State
    requires s.At(h) && s.flights[h].AccessStored?
  {
    OnStoreRefresh(c, s.With(s.store.PutRefresh(s.flights[h].refresh, s.flights[h].next)), h)
  }

  function OnLookup(s: State, token: string, session: Option<Session>): State {
    match session
    case None => s
    case Some(live) => s.Record(Accepted(s.now, token, live))
  }

  function DoLookup(s: State, token: string): State {
    var (st, session) := s.store.GetSession(token, s.now);
    OnLookup(s.With(st), token, session)
  }

  function OnRevoke(s: State, token: string): State {
    s.Record(Revoked(s.now, token)).Open(RevokePurging(s.now))
  }

  function DoRevoke(s: State, token: string): State {
    OnRevoke(s.With(s.store.DeleteSession(token)), token)
  }

  function OnRevokePurge(s: State, h: nat): State { s.Finish(h, Accomplished) }

  function DoRevokePurge(c: Config, s: State, h: nat): State
    requires s.At(h) && s.flights[h].RevokePurging?
  {
    var st := if c.backend == Memory then s.store.PurgeSessions(s.flights[h].purgeAt).0 else s.store;
    OnRevokePurge(s.With(st), h)
  }

  function OnStartRegister(c: Config, s: State, ip: string, count: nat): State {
    var (s1, ok) := Rated(s, s.nextId, ip, "register", c.registerPerMinute, 60, count);
    if ok then s1.Open(RegisterAdmitted) else s1.Refuse(TOO_MANY)
  }

  function DoStartRegister(c: Config, s: State, ip: string): State {
    var (s1, count) := BumpCounter(s, ip, "register", 60);
    OnStartRegister(c, s1, ip, count)
  }

  /** The first URI that does not parse, or has another scheme than http and https, decides. */
  function SchemeDecision(c: Config, uris: seq<string>): Decision {
    if uris == [] then Yes
    else match c.parse(uris[0])
      case None => Crash
      case Some(u) => if WebScheme(u) then SchemeDecision(c, uris[1..]) else No
  }

  /** `uris` is `None` when the body holds something else than a list of strings. */
  function DoRegisterMint(c: Config, s: State, h: nat, uris: Option<seq<string>>, clientId: string): State {
    match uris
    case None => s.Finish(h, Error(400, "invalid_redirect_uri"))
    case Some(list) =>
      match SchemeDecision(c, list)
      case Crash => s.Finish(h, SERVER_ERROR)
      case No => s.Finish(h, Error(400, "invalid_redirect_uri"))
      case Yes => s.Mint({clientId}).Move(h, RegisterMinted(clientId, Client(list, s.now.Floor)))
  }

  function OnRegisterStore(s: State, h: nat): State
    requires s.At(h) && s.flights[h].RegisterMinted?
  {
    var f := s.flights[h];
    s.Record(Registered(s.now, h, f.clientId, f.client.redirectUris)).Finish(h, ClientCreated(f.clientId))
  }

  function DoRegisterStore(s: State, h: nat): State
    requires s.At(h) && s.flights[h].RegisterMinted?
  {
    OnRegisterStore(s.With(s.store.PutClient(s.flights[h].clientId, s.flights[h].client)), h)
  }

  function Apply(c: Config, s: State, a: Action): State
    requires Enabled(c, s, a)
  {
    match a
    case Tick(now, gone) => s.(now := now, store := Drop(s.store, gone))
    case StartLogin(ip, form) => DoStartLogin(c, s, ip, form)
    case LoginHour(h, csrfOk) => DoLoginHour(c, s, h, csrfOk)
    case LoginRedirect(h) => DoLoginRedirect(c, s, h)
    case LoginValidate(h, found) => DoLoginValidate(s, h, found)
    case LoginPurge(h) => DoLoginPurge(c, s, h)
    case LoginMint(h, code) => DoLoginMint(c, s, h, code)
    case LoginStore(h) => DoLoginStore(s, h)
    case StartToken(ip, asked) => DoStartToken(c, s, ip, asked)
    case TakeCode(h) => DoTakeCode(s, h)
    case CheckCode(h) => DoCheckCode(c, s, h)
    case TakeRefresh(h) => DoTakeRefresh(s, h)
    case MintPair(h, access, refresh) => DoMintPair(c, s, h, access, refresh)
    case StoreAccess(h) => DoStoreAccess(s, h)
    case StoreRefresh(h) => DoStoreRefresh(c, s, h)
    case Lookup(token) => DoLookup(s, token)
    case Revoke(token) => DoRevoke(s, token)
    case RevokePurge(h) => DoRevokePurge(c, s, h)
    case StartRegister(ip) => DoStartRegister(c, s, ip)
    case RegisterMint(h, uris, clientId) => DoRegisterMint(c, s, h, uris, clientId)
    case RegisterStore(h) => DoRegisterStore(s, h)
  }

  ghost predicate Next(c: Config, s: State, s': State) {
    exists a :: Enabled(c, s, a) && s' == Apply(c, s, a)
  }

  /** The step that leads on from the state at `i`. */
  ghost predicate StepAt(c: Config, run: seq<State>, i: int) {
    0 <= i < |run| - 1 ==> Next(c, run[i], run[i + 1])
  }

  /** A run: any interleaving of any number of requests. */
  ghost predicate Run(c: Config, run: seq<State>) {
    run != [] && Init(run[0]) && forall i :: StepAt(c, run, i)
  }

  /** The action that led to a state of a run. */
  lemma LastAction(c: Config, run: seq<State>, n: nat) returns (a: Action)
    requires Run(c, run) && 0 < n < |run|
    ensures Enabled(c, run[n - 1], a) && run[n] == Apply(c, run[n - 1], a)
  {
    assert StepAt(c, run, n - 1);
    a :| Enabled(c, run[n - 1], a) && run[n] == Apply(c, run[n - 1], a);
  }

  /** One more enabled action makes a longer run. */
  lemma RunExtends(c: Config, run: seq<State>, a: Action)
    requires Run(c, run) && Enabled(c, run[|run| - 1], a)
    ensures Run(c, run + [Apply(c, run[|run| - 1], a)])
  {
    var last := Apply(c, run[|run| - 1], a);
    var run' := run + [last];
    forall i ensures StepAt(c, run', i) {
      if 0 <= i < |run| - 1 {
        assert StepAt(c, run, i);
      } else if i == |run| - 1 {
        assert Next(c, run[|run| - 1], last);
      }
    }
  }

  lemma RunPrefix(c: Config, run: seq<State>, n: nat)
    requires Run(c, run) && 0 < n <= |run|
    ensures Run(c, run[..n])
  {
    forall i ensures StepAt(c, run[..n], i) {
      assert StepAt(c, run, i);
    }
  }
}
