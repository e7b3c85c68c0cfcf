/** Every code and refresh token descends from one login. At every moment of every interleaving a login
    has at most one live descendant, and each credential is spent at most once. */
module Lineage {
  import opened Prelude
  import opened Sessions
  import opened TokenStore
  import opened Grants

  /** The code or refresh token that a request holds or has spent on behalf of a login. */
  function Cred<S>(f: Flight<S>): Option<string> {
    match f
    case LoginMinted(code, _) => Some(code)
    case CodeTaken(code, _, _) => Some(code)
    case Authorized(source, _) => Some(source)
    case PairMinted(_, _, refresh, _) => Some(refresh)
    case AccessStored(_, refresh, _) => Some(refresh)
    case _ => None
  }

  /** A request between its pop and its mint: the credential is spent, the next one does not exist yet. */
  predicate Spending<S>(f: Flight<S>) {
    f.CodeTaken? || f.Authorized?
  }

  /** The places where a login's live credential can be. */
  datatype Slot = InCodes(code: string) | InRefresh(token: string) | InFlight(h: nat)

  function Held(s: State, slot: Slot): Option<string> {
    match slot
    case InCodes(code) => if code in s.store.codes then Some(code) else None
    case InRefresh(token) => if token in s.store.refresh then Some(token) else None
    case InFlight(h) => if h in s.flights then Cred(s.flights[h]) else None
  }

  /** The position in the log of the login that a code or refresh token descends from, or -1. */
  function Root(log: seq<Event>, cred: string): int {
    if log == [] then -1 else
      var last, init := log[|log| - 1], log[..|log| - 1];
      if last.LoggedIn? && last.code == cred then |init|
      else if last.Issued? && last.refresh == cred then Root(init, last.source)
      else Root(init, cred)
  }

  /** How many refreshes lie between the login and the credential. */
  function Generation(log: seq<Event>, cred: string): nat {
    if log == [] then 0 else
      var last, init := log[|log| - 1], log[..|log| - 1];
      if last.LoggedIn? && last.code == cred then 0
      else if last.Issued? && last.refresh == cred then Generation(init, last.source) + 1
      else Generation(init, cred)
  }

  predicate Mints(e: Event, cred: string) {
    (e.LoggedIn? && e.code == cred) || (e.Issued? && e.refresh == cred)
  }

  lemma RootAppend(log: seq<Event>, e: Event, cred: string)
    ensures !Mints(e, cred) ==> Root(log + [e], cred) == Root(log, cred)
    ensures !Mints(e, cred) ==> Generation(log + [e], cred) == Generation(log, cred)
    ensures e.LoggedIn? && e.code == cred ==> Root(log + [e], cred) == |log| && Generation(log + [e], cred) == 0
    ensures e.Issued? && e.refresh == cred ==>
              && Root(log + [e], cred) == Root(log, e.source)
              && Generation(log + [e], cred) == Generation(log, e.source) + 1
  {
    assert (log + [e])[..|log|] == log;
  }

  function Mentions(e: Event): set<string> {
    match e
    case LoggedIn(_, _, code, _, _) => {code}
    case CodeStored(_, _, code) => {code}
    case Popped(_, _, cred) => {cred}
    case Redeemed(_, _, code, _) => {code}
    case Issued(_, _, source, access, refresh, _) => {source, access, refresh}
    case _ => {}
  }

  // ---------------------------------------------------------------------------------------
  // The invariant.
  // ---------------------------------------------------------------------------------------

  function HeldTokens<S>(f: Flight<S>): set<string> {
    match f
    case LoginMinted(code, _) => {code}
    case CodeTaken(code, _, _) => {code}
    case Authorized(source, _) => {source}
    case PairMinted(access, _, refresh, _) => {access, refresh}
    case AccessStored(access, refresh, _) => {access, refresh}
    case RegisterMinted(clientId, _) => {clientId}
    case _ => {}
  }

  /** Everything stored, held or logged was minted; requests are numbered in order. */
  ghost predicate Named(s: State) {
    && s.store.codes.Keys <= s.minted && s.store.refresh.Keys <= s.minted
    && s.store.sessions.Keys <= s.minted && s.store.clients.Keys <= s.minted
    && (forall h :: h in s.flights ==> h < s.nextId && HeldTokens(s.flights[h]) <= s.minted)
    && (forall i :: 0 <= i < |s.log| ==> Mentions(s.log[i]) <= s.minted)
  }

  /** One login, at most one live credential. */
  ghost predicate Linear(s: State) {
    && (forall a :: Held(s, a).Some? ==>
          var r := Root(s.log, Held(s, a).value);
          0 <= r < |s.log| && s.log[r].LoggedIn?)
    && (forall a, b :: Held(s, a).Some? && Held(s, b).Some?
                       && Root(s.log, Held(s, a).value) == Root(s.log, Held(s, b).value)
          ==> a == b)
  }

  ghost predicate WasPopped(log: seq<Event>, cred: string) {
    exists i :: 0 <= i < |log| && log[i].Popped? && log[i].cred == cred
  }

  ghost predicate WasPoppedBy(log: seq<Event>, cred: string, h: nat) {
    exists i :: 0 <= i < |log| && log[i].Popped? && log[i].cred == cred && log[i].request == h
  }

  ghost predicate WasIssuedFor(log: seq<Event>, cred: string) {
    exists i :: 0 <= i < |log| && log[i].Issued? && log[i].source == cred
  }

  /** What is live has not been popped; what a request is spending it popped itself, and nothing has
      been issued for it. */
  ghost predicate Unspent(s: State) {
    && (forall a :: Held(s, a).Some? && !(a.InFlight? && Spending(s.flights[a.h])) ==> !WasPopped(s.log, Held(s, a).value))
    && (forall h :: h in s.flights && Spending(s.flights[h]) ==>
          && WasPoppedBy(s.log, Cred(s.flights[h]).value, h)
          && !WasIssuedFor(s.log, Cred(s.flights[h]).value))
  }

  /** No credential is popped twice or pays for two pairs, and only the request that popped it is paid. */
  ghost predicate SpentOnce(log: seq<Event>) {
    && (forall i, j :: 0 <= i < j < |log| && log[i].Popped? && log[j].Popped? ==> log[i].cred != log[j].cred)
    && (forall i, j :: 0 <= i < j < |log| && log[i].Issued? && log[j].Issued? ==> log[i].source != log[j].source)
    && (forall j :: 0 <= j < |log| && log[j].Issued? ==> WasPoppedBy(log[..j], log[j].source, log[j].request))
  }

  /** A credential is minted before anything else mentions it, and only once. */
  ghost predicate MintedOnce(log: seq<Event>) {
    forall i, j, cred :: 0 <= i < j < |log| && Mints(log[j], cred) ==> cred !in Mentions(log[i])
  }

  ghost predicate Inv(s: State) {
    Named(s) && Linear(s) && Unspent(s) && SpentOnce(s.log) && MintedOnce(s.log)
  }

  /** A step appends at most one event. */
  ghost predicate Grows(s: State, s': State) {
    && s.log <= s'.log && |s'.log| <= |s.log| + 1
    && s.minted <= s'.minted && s.nextId <= s'.nextId && s.now <= s'.now
  }

  predicate Plain(e: Event) {
    e.Checked? || e.RedirectAllowed? || e.Purged? || e.Accepted? || e.Revoked? || e.Registered?
  }

  /** Sessions, codes and refresh tokens may have gone, but none is new or different. */
  ghost predicate Shrinks(st: Store, st': Store) {
    Submap(st'.codes, st.codes) && Submap(st'.refresh, st.refresh) && Submap(st'.sessions, st.sessions)
  }

  /** A step that touches no credential except perhaps by letting one vanish. */
  ghost predicate Quiet(s: State, s': State) {
    && Grows(s, s')
    && (|s'.log| > |s.log| ==> Plain(s'.log[|s.log|]))
    && (forall a :: Held(s', a).Some? ==> Held(s', a) == Held(s, a) && (a.InFlight? ==> s'.flights[a.h] == s.flights[a.h]))
    && Shrinks(s.store, s'.store)
    && (Named(s) ==> Named(s'))
  }

  // ---------------------------------------------------------------------------------------
  // The steps that touch no credential.
  // ---------------------------------------------------------------------------------------

  lemma RateCheckQuiet(s: State, request: nat, ip: string, name: string, limit: nat, seconds: nat)
    ensures Quiet(s, RateCheck(s, request, ip, name, limit, seconds).0)
  {
    var s1 := RateCheck(s, request, ip, name, limit, seconds).0;
    assert forall i :: 0 <= i < |s1.log| ==> Mentions(s1.log[i]) == if i < |s.log| then Mentions(s.log[i]) else {};
  }

  lemma OpenQuiet(s: State, s1: State, f: Flight<Session>)
    requires Named(s1) && Quiet(s, s1) && Cred(f).None? && HeldTokens(f) == {}
    ensures Quiet(s, s1.Open(f))
  {
    assert forall a :: Held(s1.Open(f), a).Some? ==> Held(s1.Open(f), a) == Held(s1, a) && a != InFlight(s1.nextId);
  }

  lemma RefuseQuiet(s: State, s1: State, r: Reply)
    requires Quiet(s, s1)
    ensures Quiet(s, s1.Refuse(r))
  {
    assert forall a :: Held(s1.Refuse(r), a) == Held(s1, a);
  }

  lemma FinishQuiet(s: State, s1: State, h: nat, r: Reply)
    requires Quiet(s, s1)
    ensures Quiet(s, s1.Finish(h, r))
  {
    assert forall a :: Held(s1.Finish(h, r), a).Some? ==> Held(s1.Finish(h, r), a) == Held(s1, a) && a != InFlight(h);
  }

  lemma MoveQuiet(s: State, s1: State, h: nat, f: Flight<Session>)
    requires Quiet(s, s1) && h in s1.flights && Cred(f).None? && HeldTokens(f) <= s1.minted
    ensures Quiet(s, s1.Move(h, f))
  {
    assert forall a :: Held(s1.Move(h, f), a).Some? ==> Held(s1.Move(h, f), a) == Held(s1, a) && a != InFlight(h);
  }

  /** Recording a plain event, or dropping records. */
  lemma RecordQuiet(s: State, s1: State, e: Event)
    requires Quiet(s, s1) && s1.log == s.log && Plain(e)
    ensures Quiet(s, s1.Record(e))
  {
    var s2 := s1.Record(e);
    assert forall a :: Held(s2, a) == Held(s1, a);
    assert forall i :: 0 <= i < |s2.log| ==> Mentions(s2.log[i]) == if i < |s1.log| then Mentions(s1.log[i]) else {};
  }

  lemma ShrinkQuiet(s: State, st: Store)
    requires Shrinks(s.store, st) && Submap(st.clients, s.store.clients)
    ensures Quiet(s, s.With(st))
  {
    assert forall a :: Held(s.With(st), a).Some? ==> Held(s.With(st), a) == Held(s, a);
  }

  lemma TickQuiet(s: State, now: real, gone: Gone)
    requires s.now <= now
    ensures Quiet(s, s.(now := now, store := Drop(s.store, gone)))
  {
    var s1 := s.(now := now, store := Drop(s.store, gone));
    assert forall a :: Held(s1, a).Some? ==> Held(s1, a) == Held(s, a);
  }

  predicate IsQuiet(a: Action) {
    || a.Tick? || a.StartLogin? || a.LoginHour? || a.LoginRedirect? || a.LoginValidate? || a.LoginPurge?
    || a.StartToken? || a.Lookup? || a.Revoke? || a.RevokePurge? || a.StartRegister? || a.RegisterMint? || a.RegisterStore?
  }

  lemma QuietLogin(c: Config, s: State, a: Action)
    requires Enabled(c, s, a) && Named(s)
    requires a.StartLogin? || a.LoginHour? || a.LoginRedirect? || a.LoginValidate? || a.LoginPurge?
    ensures Quiet(s, Apply(c, s, a))
  {
    match a
    case StartLogin(ip, form) =>
      RateCheckQuiet(s, s.nextId, ip, "login", c.loginPerMinute, 60);
      var s1 := RateCheck(s, s.nextId, ip, "login", c.loginPerMinute, 60).0;
      OpenQuiet(s, s1, LoginStarted(ip, form));
      RefuseQuiet(s, s1, TOO_MANY);
    case LoginHour(h, csrfOk) =>
      var f := s.flights[h];
      RateCheckQuiet(s, h, f.ip, "login", c.loginPerHour, 3600);
      var s1 := RateCheck(s, h, f.ip, "login", c.loginPerHour, 3600).0;
      FinishQuiet(s, s1, h, TOO_MANY);
      FinishQuiet(s, s1, h, LOGIN_FORM);
      MoveQuiet(s, s1, h, LoginAdmitted(f.form));
    case LoginRedirect(h) =>
      var form := s.flights[h].form;
      ShrinkQuiet(s, s.store);
      var s1 := s.Record(RedirectAllowed(s.now, h, form.redirectUri, form.clientId));
      RecordQuiet(s, s, RedirectAllowed(s.now, h, form.redirectUri, form.clientId));
      FinishQuiet(s, s, h, SERVER_ERROR);
      FinishQuiet(s, s, h, LOGIN_FORM);
      MoveQuiet(s, s1, h, LoginAllowed(form));
    case LoginValidate(h, found) =>
      ShrinkQuiet(s, s.store);
      FinishQuiet(s, s, h, LOGIN_FORM);
      if found.Some? {
        MoveQuiet(s, s, h, LoginValidated(s.flights[h].form, Session(found.value, 0.0), s.now));
      }
    case LoginPurge(h) =>
      var f := s.flights[h];
      var st := if c.backend == Memory then s.store.PurgeCodes(f.purgeAt).0 else s.store;
      ShrinkQuiet(s, st);
      RecordQuiet(s, s.With(st), Purged(s.now, h, f.purgeAt));
      MoveQuiet(s, s.With(st).Record(Purged(s.now, h, f.purgeAt)), h, LoginPurged(f.form, f.session));
  }

  lemma QuietToken(c: Config, s: State, ip: string, asked: TokenRequest)
    requires Named(s)
    ensures Quiet(s, DoStartToken(c, s, ip, asked))
  {
    RateCheckQuiet(s, s.nextId, ip, "token", c.tokenPerMinute, 60);
    var s1 := RateCheck(s, s.nextId, ip, "token", c.tokenPerMinute, 60).0;
    RefuseQuiet(s, s1, TOO_MANY);
    RefuseQuiet(s, s1, INVALID_GRANT);
    RefuseQuiet(s, s1, INVALID_REQUEST);
    RefuseQuiet(s, s1, Error(400, "unsupported_grant_type"));
    if asked.code.Some? {
      OpenQuiet(s, s1, CodeRequested(asked.code.value, asked));
    }
    if asked.refreshToken.Some? {
      OpenQuiet(s, s1, RefreshRequested(asked.refreshToken.value));
    }
  }

  lemma QuietSession(c: Config, s: State, a: Action)
    requires Enabled(c, s, a) && Named(s)
    requires a.Lookup? || a.Revoke? || a.RevokePurge?
    ensures Quiet(s, Apply(c, s, a))
  {
    match a
    case Lookup(token) =>
      var (st, session) := s.store.GetSession(token, s.now);
      ShrinkQuiet(s, st);
      if session.Some? {
        RecordQuiet(s, s.With(st), Accepted(s.now, token, session.value));
      }
    case Revoke(token) =>
      var st := s.store.DeleteSession(token);
      ShrinkQuiet(s, st);
      RecordQuiet(s, s.With(st), Revoked(s.now, token));
      OpenQuiet(s, s.With(st).Record(Revoked(s.now, token)), RevokePurging(s.now));
    case RevokePurge(h) =>
      var st := if c.backend == Memory then s.store.PurgeSessions(s.flights[h].purgeAt).0 else s.store;
      ShrinkQuiet(s, st);
      FinishQuiet(s, s.With(st), h, Accomplished);
  }

  lemma MintQuiet(s: State, tokens: set<string>)
    ensures Quiet(s, s.Mint(tokens))
  {
    assert forall a :: Held(s.Mint(tokens), a) == Held(s, a);
  }

  lemma QuietRegister(c: Config, s: State, a: Action)
    requires Enabled(c, s, a) && Named(s)
    requires a.StartRegister? || a.RegisterMint? || a.RegisterStore?
    ensures Quiet(s, Apply(c, s, a))
  {
    match a
    case StartRegister(ip) =>
      RateCheckQuiet(s, s.nextId, ip, "register", c.registerPerMinute, 60);
      var s1 := RateCheck(s, s.nextId, ip, "register", c.registerPerMinute, 60).0;
      OpenQuiet(s, s1, RegisterAdmitted);
      RefuseQuiet(s, s1, TOO_MANY);
    case RegisterMint(h, uris, clientId) =>
      ShrinkQuiet(s, s.store);
      FinishQuiet(s, s, h, SERVER_ERROR);
      FinishQuiet(s, s, h, Error(400, "invalid_redirect_uri"));
      MintQuiet(s, {clientId});
      if uris.Some? {
        MoveQuiet(s, s.Mint({clientId}), h, RegisterMinted(clientId, Client(uris.value, s.now.Floor)));
      }
    case RegisterStore(h) =>
      StoreClientQuiet(s, h);
  }

  lemma StoreClientQuiet(s: State, h: nat)
    requires s.At(h) && s.flights[h].RegisterMinted? && Named(s)
    ensures Quiet(s, DoRegisterStore(s, h))
  {
    var f := s.flights[h];
    var s1 := s.With(s.store.PutClient(f.clientId, f.client));
    assert f.clientId in HeldTokens(f);
    assert forall a :: Held(s1, a) == Held(s, a);
    RecordQuiet(s, s1, Registered(s.now, h, f.clientId, f.client.redirectUris));
    FinishQuiet(s, s1.Record(Registered(s.now, h, f.clientId, f.client.redirectUris)), h, ClientCreated(f.clientId));
  }

  lemma QuietSteps(c: Config, s: State, a: Action)
    requires Enabled(c, s, a) && Named(s) && IsQuiet(a)
    ensures Quiet(s, Apply(c, s, a))
  {
    match a
    case Tick(now, gone) => TickQuiet(s, now, gone);
    case StartToken(ip, asked) => QuietToken(c, s, ip, asked);
    case StartLogin(_, _) => QuietLogin(c, s, a);
    case LoginHour(_, _) => QuietLogin(c, s, a);
    case LoginRedirect(_) => QuietLogin(c, s, a);
    case LoginValidate(_, _) => QuietLogin(c, s, a);
    case LoginPurge(_) => QuietLogin(c, s, a);
    case Lookup(_) => QuietSession(c, s, a);
    case Revoke(_) => QuietSession(c, s, a);
    case RevokePurge(_) => QuietSession(c, s, a);
    case StartRegister(_) => QuietRegister(c, s, a);
    case RegisterMint(_, _, _) => QuietRegister(c, s, a);
    case RegisterStore(_) => QuietRegister(c, s, a);
  }
}
