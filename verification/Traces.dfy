/** Runs together with the steps that made them: what was submitted, and what Redmine and the token generator
    answered, behind everything that is under way or logged. */
module Traces {
  import opened Prelude
  import opened Sessions
  import opened TokenStore
  import opened Grants
  import opened Frames
  import opened Handlers
  import Lineage
  import LI = LineageInvariant

  /** Step `acts[i]` leads from `states[i]` to `states[i + 1]`. */
  datatype Trace = Trace(states: seq<State>, acts: seq<Action>)

  ghost predicate Leads(c: Config, t: Trace, i: int) {
    0 <= i < |t.acts| < |t.states| ==>
      Enabled(c, t.states[i], t.acts[i]) && t.states[i + 1] == Apply(c, t.states[i], t.acts[i])
  }

  ghost predicate Recorded(c: Config, t: Trace) {
    |t.states| == |t.acts| + 1 && Init(t.states[0]) && forall i :: Leads(c, t, i)
  }

  lemma RecordedIsRun(c: Config, t: Trace)
    requires Recorded(c, t)
    ensures Run(c, t.states)
  {
    forall i ensures StepAt(c, t.states, i) {
      assert Leads(c, t, i);
    }
  }

  /** Every run can be recorded, so what holds of every trace holds of every run. */
  lemma {:induction false} RunIsRecorded(c: Config, run: seq<State>) returns (t: Trace)
    requires Run(c, run)
    ensures Recorded(c, t) && t.states == run
  {
    var last := |run| - 1;
    if last == 0 {
      t := Trace(run, []);
    } else {
      RunPrefix(c, run, last);
      var t0 := RunIsRecorded(c, run[..last]);
      var a := LastAction(c, run, last);
      t := Trace(run, t0.acts + [a]);
      forall i ensures Leads(c, t, i) {
        assert Leads(c, t0, i);
      }
    }
  }

  /** What is known of each step. */
  lemma TheStep(c: Config, t: Trace, n: nat)
    requires Recorded(c, t) && n < |t.acts|
    ensures Enabled(c, t.states[n], t.acts[n]) && t.states[n + 1] == Apply(c, t.states[n], t.acts[n])
    ensures Framed(t.states[n], t.acts[n], t.states[n + 1])
  {
    assert Leads(c, t, n);
    StepFrame(c, t.states[n], t.acts[n]);
  }

  // ---------------------------------------------------------------------------------------
  // How a request gets where it is. Each predicate `...Via(c, t, n, ...)` says that a step before state `n`
  // did this, after all that had to come first.
  // ---------------------------------------------------------------------------------------

  /** Step `k` opened request `h` by submitting this form from this address, within the minute limit. */
  ghost predicate Begins(c: Config, t: Trace, k: nat, h: nat, ip: string, form: LoginForm) {
    && k < |t.acts| && k < |t.states|
    && t.acts[k] == StartLogin(ip, form) && t.states[k].nextId == h
    && Within(t.states[k], "login", 60, ip, c.loginPerMinute)
  }

  ghost predicate BegunVia(c: Config, t: Trace, n: nat, h: nat, ip: string, form: LoginForm) {
    exists k: nat :: k < n && Begins(c, t, k, h, ip, form)
  }

  /** Step `k` passed the hour limit, with a good CSRF token and a form in order. */
  ghost predicate Admits(c: Config, t: Trace, k: nat, h: nat, ip: string, form: LoginForm) {
    && k < |t.acts| && k < |t.states|
    && t.acts[k] == LoginHour(h, true) && FormInOrder(form)
    && Within(t.states[k], "login", 3600, ip, c.loginPerHour)
    && BegunVia(c, t, k, h, ip, form)
  }

  ghost predicate AdmittedVia(c: Config, t: Trace, n: nat, h: nat, form: LoginForm) {
    exists k: nat, ip :: k < n && Admits(c, t, k, h, ip, form)
  }

  /** Step `k` found the redirect URI allowed to the client as it was registered then. */
  ghost predicate Allows(c: Config, t: Trace, k: nat, h: nat, form: LoginForm) {
    && k < |t.acts| && k < |t.states|
    && t.acts[k] == LoginRedirect(h)
    && RedirectDecision(c, t.states[k].store.GetClient(form.clientId), form.redirectUri, form.clientId) == Yes
    && AdmittedVia(c, t, k, h, form)
  }

  ghost predicate AllowedVia(c: Config, t: Trace, n: nat, h: nat, form: LoginForm) {
    exists k: nat :: k < n && Allows(c, t, k, h, form)
  }

  /** Redmine confirmed `who` in step `k`. */
  ghost predicate Validates(c: Config, t: Trace, k: nat, h: nat, form: LoginForm, who: Identity) {
    k < |t.acts| && t.acts[k] == LoginValidate(h, Some(who)) && AllowedVia(c, t, k, h, form)
  }

  ghost predicate ValidatedVia(c: Config, t: Trace, n: nat, h: nat, form: LoginForm, who: Identity) {
    exists k: nat :: k < n && Validates(c, t, k, h, form, who)
  }

  ghost predicate Purges(c: Config, t: Trace, k: nat, h: nat, form: LoginForm, who: Identity) {
    k < |t.acts| && t.acts[k] == LoginPurge(h) && ValidatedVia(c, t, k, h, form, who)
  }

  ghost predicate PurgedVia(c: Config, t: Trace, n: nat, h: nat, form: LoginForm, who: Identity) {
    exists k: nat :: k < n && Purges(c, t, k, h, form, who)
  }

  ghost predicate Mints(c: Config, t: Trace, k: nat, at: real, h: nat, code: string, form: LoginForm, who: Identity) {
    && k < |t.acts| && k < |t.states|
    && t.acts[k] == LoginMint(h, code) && t.states[k].now == at && PurgedVia(c, t, k, h, form, who)
  }

  ghost predicate MintedVia(c: Config, t: Trace, n: nat, at: real, h: nat, code: string, form: LoginForm, who: Identity) {
    exists k: nat :: k < n && Mints(c, t, k, at, h, code, form, who)
  }

  /** Step `k` opened request `h` by presenting this code. */
  predicate AsksByCode(t: Trace, k: nat, h: nat, code: string, asked: TokenRequest) {
    && k < |t.acts| && k < |t.states|
    && t.acts[k].StartToken? && t.acts[k].asked == asked && t.states[k].nextId == h
    && asked.grantType == "authorization_code" && asked.code == Some(code)
  }

  predicate AsksByRefresh(t: Trace, k: nat, h: nat, token: string) {
    && k < |t.acts| && k < |t.states|
    && t.acts[k].StartToken? && t.states[k].nextId == h
    && t.acts[k].asked.grantType == "refresh_token" && t.acts[k].asked.refreshToken == Some(token)
  }

  predicate Asks(t: Trace, k: nat, h: nat, cred: string) {
    AsksByRefresh(t, k, h, cred) || (k < |t.acts| && t.acts[k].StartToken? && AsksByCode(t, k, h, cred, t.acts[k].asked))
  }

  ghost predicate AskedByCodeVia(t: Trace, n: nat, h: nat, code: string, asked: TokenRequest) {
    exists k: nat :: k < n && AsksByCode(t, k, h, code, asked)
  }

  ghost predicate AskedByRefreshVia(t: Trace, n: nat, h: nat, token: string) {
    exists k: nat :: k < n && AsksByRefresh(t, k, h, token)
  }

  ghost predicate AskedVia(t: Trace, n: nat, h: nat, cred: string) {
    exists k: nat :: k < n && Asks(t, k, h, cred)
  }

  /** Step `k` opened a registration, within its limit. */
  predicate Applies(c: Config, t: Trace, k: nat, h: nat) {
    && k < |t.acts| && k < |t.states|
    && t.acts[k].StartRegister? && t.states[k].nextId == h
    && Within(t.states[k], "register", 60, t.acts[k].ip, c.registerPerMinute)
  }

  ghost predicate AppliedVia(c: Config, t: Trace, n: nat, h: nat) {
    exists k: nat :: k < n && Applies(c, t, k, h)
  }

  /** Step `k` submitted exactly this list of web URIs, and drew this client id. */
  ghost predicate Submits(c: Config, t: Trace, k: nat, h: nat, uris: seq<string>, clientId: string) {
    && k < |t.acts|
    && t.acts[k] == RegisterMint(h, Some(uris), clientId) && (forall u :: u in uris ==> Registration.IsWebUri(c, u))
    && AppliedVia(c, t, k, h)
  }

  ghost predicate SubmittedVia(c: Config, t: Trace, n: nat, h: nat, uris: seq<string>, clientId: string) {
    exists k: nat :: k < n && Submits(c, t, k, h, uris, clientId)
  }

  /** Step `k` was a lookup that found this session, not yet at its bound. */
  predicate LooksUp(t: Trace, k: nat, at: real, token: string, session: Session) {
    && k < |t.acts| && k < |t.states|
    && t.acts[k] == Lookup(token) && t.states[k].now == at < session.expiresAt
    && token in t.states[k].store.sessions && t.states[k].store.sessions[token] == session
  }

  ghost predicate LookedUpVia(t: Trace, n: nat, at: real, token: string, session: Session) {
    exists k: nat :: k < n && LooksUp(t, k, at, token, session)
  }

  predicate Withdraws(t: Trace, k: nat, at: real, token: string) {
    k < |t.acts| && k < |t.states| && t.acts[k] == Revoke(token) && t.states[k].now == at
  }

  ghost predicate WithdrawnVia(t: Trace, n: nat, at: real, token: string) {
    exists k: nat :: k < n && Withdraws(t, k, at, token)
  }

  /** What must have come before a request is where it is. */
  ghost predicate Pedigree(c: Config, t: Trace, n: nat, h: nat, f: Flight<Session>) {
    match f
    case LoginStarted(ip, form) => BegunVia(c, t, n, h, ip, form)
    case LoginAdmitted(form) => AdmittedVia(c, t, n, h, form)
    case LoginAllowed(form) => AllowedVia(c, t, n, h, form)
    case LoginValidated(form, session, _) => ValidatedVia(c, t, n, h, form, session.who)
    case LoginPurged(form, session) => PurgedVia(c, t, n, h, form, session.who)
    case CodeRequested(code, asked) => AskedByCodeVia(t, n, h, code, asked)
    case CodeTaken(code, _, asked) => AskedByCodeVia(t, n, h, code, asked)
    case RefreshRequested(token) => AskedByRefreshVia(t, n, h, token)
    case Authorized(source, _) => AskedVia(t, n, h, source)
    case RegisterAdmitted => AppliedVia(c, t, n, h)
    case RegisterMinted(clientId, client) => SubmittedVia(c, t, n, h, client.redirectUris, clientId)
    case _ => true
  }

  /** What must have come before an event is logged. */
  ghost predicate Earned(c: Config, t: Trace, n: nat, e: Event) {
    match e
    case LoggedIn(at, h, code, form, who) => MintedVia(c, t, n, at, h, code, form, who)
    case Popped(_, h, cred) => AskedVia(t, n, h, cred)
    case Redeemed(_, h, code, asked) => AskedByCodeVia(t, n, h, code, asked)
    case Issued(_, h, source, _, _, _) => AskedVia(t, n, h, source)
    case Registered(_, h, clientId, uris) => SubmittedVia(c, t, n, h, uris, clientId)
    case Accepted(at, token, session) => LookedUpVia(t, n, at, token, session)
    case Revoked(at, token) => WithdrawnVia(t, n, at, token)
    case _ => true
  }

  ghost predicate WellFounded(c: Config, t: Trace, n: nat)
    requires n < |t.states|
  {
    && (forall h :: h in t.states[n].flights ==> Pedigree(c, t, n, h, t.states[n].flights[h]))
    && (forall i :: 0 <= i < |t.states[n].log| ==> Earned(c, t, n, t.states[n].log[i]))
  }

  lemma PedigreeLasts(c: Config, t: Trace, n: nat, m: nat, h: nat, f: Flight<Session>)
    requires n <= m && Pedigree(c, t, n, h, f)
    ensures Pedigree(c, t, m, h, f)
  {
  }

  lemma EarnedLasts(c: Config, t: Trace, n: nat, m: nat, e: Event)
    requires n <= m && Earned(c, t, n, e)
    ensures Earned(c, t, m, e)
  {
  }

  // --- the steps ------------------------------------------------------------------------------------

  /** The state before a step, whose request, if it has one, has its pedigree. */
  ghost predicate Ready(c: Config, t: Trace, n: nat) {
    && n < |t.acts| < |t.states|
    && Enabled(c, t.states[n], t.acts[n]) && t.states[n + 1] == Apply(c, t.states[n], t.acts[n])
    && forall h :: h in t.states[n].flights ==> Pedigree(c, t, n, h, t.states[n].flights[h])
  }

  /** The request that step `n` moves has its pedigree afterwards. */
  ghost predicate MovesWell(c: Config, t: Trace, n: nat)
    requires n < |t.acts| < |t.states|
  {
    var h := Mover(t.states[n], t.acts[n]);
    h in t.states[n + 1].flights && (h !in t.states[n].flights || t.states[n + 1].flights[h] != t.states[n].flights[h]) ==>
      Pedigree(c, t, n + 1, h, t.states[n + 1].flights[h])
  }

  lemma StartMovesWell(c: Config, t: Trace, n: nat)
    requires Ready(c, t, n) && t.acts[n].StartLogin?
    ensures MovesWell(c, t, n)
  {
    var s, a := t.states[n], t.acts[n];
    StartLoginMeans(c, s, a.ip, a.form);
    assert Within(s, "login", 60, a.ip, c.loginPerMinute) ==> Begins(c, t, n, s.nextId, a.ip, a.form);
  }

  lemma HourMovesWell(c: Config, t: Trace, n: nat)
    requires Ready(c, t, n) && t.acts[n].LoginHour?
    ensures MovesWell(c, t, n)
  {
    var s, h := t.states[n], t.acts[n].h;
    var f := s.flights[h];
    LoginHourMeans(c, s, h, t.acts[n].csrfOk);
    assert Pedigree(c, t, n, h, f);
    if h in t.states[n + 1].flights {
      assert Admits(c, t, n, h, f.ip, f.form);
    }
  }

  lemma RedirectMovesWell(c: Config, t: Trace, n: nat)
    requires Ready(c, t, n) && t.acts[n].LoginRedirect?
    ensures MovesWell(c, t, n)
  {
    var s, h := t.states[n], t.acts[n].h;
    var form := s.flights[h].form;
    assert Pedigree(c, t, n, h, s.flights[h]);
    assert t.states[n + 1] == DoLoginRedirect(c, s, h);
    if h in t.states[n + 1].flights {
      assert Allows(c, t, n, h, form);
    }
  }

  lemma ValidateMovesWell(c: Config, t: Trace, n: nat)
    requires Ready(c, t, n) && t.acts[n].LoginValidate?
    ensures MovesWell(c, t, n)
  {
    var s, h := t.states[n], t.acts[n].h;
    LoginValidateMeans(c, s, h, t.acts[n].found);
    assert Pedigree(c, t, n, h, s.flights[h]);
    if h in t.states[n + 1].flights {
      assert Validates(c, t, n, h, s.flights[h].form, t.acts[n].found.value);
    }
  }

  lemma PurgeMovesWell(c: Config, t: Trace, n: nat)
    requires Ready(c, t, n) && t.acts[n].LoginPurge?
    ensures MovesWell(c, t, n)
  {
    var s, h := t.states[n], t.acts[n].h;
    LoginPurgeMeans(c, s, h);
    assert Pedigree(c, t, n, h, s.flights[h]);
    assert Purges(c, t, n, h, s.flights[h].form, s.flights[h].session.who);
  }

  lemma TokenMovesWell(c: Config, t: Trace, n: nat)
    requires Ready(c, t, n) && t.acts[n].StartToken?
    ensures MovesWell(c, t, n)
  {
    var s, a := t.states[n], t.acts[n];
    StartTokenMeans(c, s, a.ip, a.asked);
    if s.nextId in t.states[n + 1].flights {
      var f := t.states[n + 1].flights[s.nextId];
      assert f.CodeRequested? && f.asked == a.asked ==> AsksByCode(t, n, s.nextId, f.code, f.asked);
      assert f.RefreshRequested? && !(s.nextId in s.flights && s.flights[s.nextId] == f) ==> AsksByRefresh(t, n, s.nextId, f.token);
    }
  }

  lemma ByCodeIsAsked(t: Trace, n: nat, h: nat, code: string, asked: TokenRequest)
    requires AskedByCodeVia(t, n, h, code, asked)
    ensures AskedVia(t, n, h, code)
  {
    var k: nat :| k < n && AsksByCode(t, k, h, code, asked);
    assert Asks(t, k, h, code);
  }

  lemma ByRefreshIsAsked(t: Trace, n: nat, h: nat, token: string)
    requires AskedByRefreshVia(t, n, h, token)
    ensures AskedVia(t, n, h, token)
  {
    var k: nat :| k < n && AsksByRefresh(t, k, h, token);
    assert Asks(t, k, h, token);
  }

  lemma TakeCodeMovesWell(c: Config, t: Trace, n: nat)
    requires Ready(c, t, n) && t.acts[n].TakeCode?
    ensures MovesWell(c, t, n)
  {
    var s, h := t.states[n], t.acts[n].h;
    TakeCodeMeans(c, s, h);
    assert Pedigree(c, t, n, h, s.flights[h]);
    PedigreeLasts(c, t, n, n + 1, h, s.flights[h]);
  }

  lemma CheckMovesWell(c: Config, t: Trace, n: nat)
    requires Ready(c, t, n) && t.acts[n].CheckCode?
    ensures MovesWell(c, t, n)
  {
    var s, h := t.states[n], t.acts[n].h;
    var f := s.flights[h];
    assert t.states[n + 1] == DoCheckCode(c, s, h);
    assert Pedigree(c, t, n, h, f);
    ByCodeIsAsked(t, n, h, f.code, f.asked);
  }

  lemma TakeRefreshMovesWell(c: Config, t: Trace, n: nat)
    requires Ready(c, t, n) && t.acts[n].TakeRefresh?
    ensures MovesWell(c, t, n)
  {
    var s, h := t.states[n], t.acts[n].h;
    TakeRefreshMeans(c, s, h);
    assert Pedigree(c, t, n, h, s.flights[h]);
    ByRefreshIsAsked(t, n, h, s.flights[h].token);
  }

  lemma RegisterMovesWell(c: Config, t: Trace, n: nat)
    requires Ready(c, t, n) && t.acts[n].StartRegister?
    ensures MovesWell(c, t, n)
  {
    var s, a := t.states[n], t.acts[n];
    StartRegisterMeans(c, s, a.ip);
    assert Within(s, "register", 60, a.ip, c.registerPerMinute) ==> Applies(c, t, n, s.nextId);
  }

  lemma MintMovesWell(c: Config, t: Trace, n: nat)
    requires Ready(c, t, n) && t.acts[n].RegisterMint?
    ensures MovesWell(c, t, n)
  {
    var s, a := t.states[n], t.acts[n];
    assert t.states[n + 1] == DoRegisterMint(c, s, a.h, a.uris, a.clientId);
    assert Pedigree(c, t, n, a.h, s.flights[a.h]);
    if a.h in t.states[n + 1].flights {
      Registration.SchemesOfAll(c, a.uris.value);
      assert Submits(c, t, n, a.h, a.uris.value, a.clientId);
    }
  }

  predicate PlainMove(a: Action) {
    || a.Tick? || a.LoginMint? || a.LoginStore? || a.MintPair? || a.StoreAccess? || a.StoreRefresh? || a.Lookup?
    || a.Revoke? || a.RevokePurge? || a.RegisterStore?
  }

  lemma PlainMovesWell(c: Config, t: Trace, n: nat)
    requires Ready(c, t, n) && PlainMove(t.acts[n]) && Framed(t.states[n], t.acts[n], t.states[n + 1])
    ensures MovesWell(c, t, n)
  {
  }

  lemma EveryStepMovesWell(c: Config, t: Trace, n: nat)
    requires Ready(c, t, n) && Framed(t.states[n], t.acts[n], t.states[n + 1])
    ensures MovesWell(c, t, n)
  {
    if t.acts[n].StartLogin? { StartMovesWell(c, t, n); }
    if t.acts[n].LoginHour? { HourMovesWell(c, t, n); }
    if t.acts[n].LoginRedirect? { RedirectMovesWell(c, t, n); }
    if t.acts[n].LoginValidate? { ValidateMovesWell(c, t, n); }
    if t.acts[n].LoginPurge? { PurgeMovesWell(c, t, n); }
    if t.acts[n].StartToken? { TokenMovesWell(c, t, n); }
    if t.acts[n].TakeCode? { TakeCodeMovesWell(c, t, n); }
    if t.acts[n].CheckCode? { CheckMovesWell(c, t, n); }
    if t.acts[n].TakeRefresh? { TakeRefreshMovesWell(c, t, n); }
    if t.acts[n].StartRegister? { RegisterMovesWell(c, t, n); }
    if t.acts[n].RegisterMint? { MintMovesWell(c, t, n); }
    if PlainMove(t.acts[n]) { PlainMovesWell(c, t, n); }
  }

  /** What step `n` logs, if anything, is earned. */
  ghost predicate LogsWell(c: Config, t: Trace, n: nat)
    requires n < |t.acts| < |t.states|
  {
    |t.states[n + 1].log| > |t.states[n].log| ==> Earned(c, t, n + 1, t.states[n + 1].log[|t.states[n].log|])
  }

  lemma LoginMintLogsWell(c: Config, t: Trace, n: nat)
    requires Ready(c, t, n) && t.acts[n].LoginMint?
    ensures LogsWell(c, t, n)
  {
    var s, a := t.states[n], t.acts[n];
    var f := s.flights[a.h];
    assert t.states[n + 1] == DoLoginMint(c, s, a.h, a.code);
    assert Pedigree(c, t, n, a.h, f);
    assert Mints(c, t, n, s.now, a.h, a.code, f.form, f.session.who);
  }

  lemma TakeCodeLogsWell(c: Config, t: Trace, n: nat)
    requires Ready(c, t, n) && t.acts[n].TakeCode?
    ensures LogsWell(c, t, n)
  {
    var s, h := t.states[n], t.acts[n].h;
    assert t.states[n + 1] == DoTakeCode(s, h);
    assert Pedigree(c, t, n, h, s.flights[h]);
    ByCodeIsAsked(t, n, h, s.flights[h].code, s.flights[h].asked);
  }

  lemma TakeRefreshLogsWell(c: Config, t: Trace, n: nat)
    requires Ready(c, t, n) && t.acts[n].TakeRefresh?
    ensures LogsWell(c, t, n)
  {
    var s, h := t.states[n], t.acts[n].h;
    assert t.states[n + 1] == DoTakeRefresh(s, h);
    assert Pedigree(c, t, n, h, s.flights[h]);
    ByRefreshIsAsked(t, n, h, s.flights[h].token);
  }

  lemma CheckLogsWell(c: Config, t: Trace, n: nat)
    requires Ready(c, t, n) && t.acts[n].CheckCode?
    ensures LogsWell(c, t, n)
  {
    var s, h := t.states[n], t.acts[n].h;
    assert t.states[n + 1] == DoCheckCode(c, s, h);
    assert Pedigree(c, t, n, h, s.flights[h]);
    EarnedLasts(c, t, n, n + 1, Redeemed(s.now, h, s.flights[h].code, s.flights[h].asked));
  }

  lemma MintPairLogsWell(c: Config, t: Trace, n: nat)
    requires Ready(c, t, n) && t.acts[n].MintPair?
    ensures LogsWell(c, t, n)
  {
    var s, a := t.states[n], t.acts[n];
    var f := s.flights[a.h];
    assert t.states[n + 1] == DoMintPair(c, s, a.h, a.access, a.refresh);
    assert Pedigree(c, t, n, a.h, f);
    PedigreeLasts(c, t, n, n + 1, a.h, f);
  }

  lemma RegisterStoreLogsWell(c: Config, t: Trace, n: nat)
    requires Ready(c, t, n) && t.acts[n].RegisterStore?
    ensures LogsWell(c, t, n)
  {
    var s, h := t.states[n], t.acts[n].h;
    assert t.states[n + 1] == DoRegisterStore(s, h);
    assert Pedigree(c, t, n, h, s.flights[h]);
    PedigreeLasts(c, t, n, n + 1, h, s.flights[h]);
  }

  lemma LookupLogsWell(c: Config, t: Trace, n: nat)
    requires Ready(c, t, n) && t.acts[n].Lookup?
    ensures LogsWell(c, t, n)
  {
    var s, token := t.states[n], t.acts[n].token;
    LookupMeans(c, s, token);
    if |t.states[n + 1].log| > |s.log| {
      assert LooksUp(t, n, s.now, token, s.store.sessions[token]);
    }
  }

  lemma RevokeLogsWell(c: Config, t: Trace, n: nat)
    requires Ready(c, t, n) && t.acts[n].Revoke?
    ensures LogsWell(c, t, n)
  {
    RevokeMeans(c, t.states[n], t.acts[n].token);
    assert Withdraws(t, n, t.states[n].now, t.acts[n].token);
  }

  lemma EveryStepLogsWell(c: Config, t: Trace, n: nat)
    requires Ready(c, t, n) && Framed(t.states[n], t.acts[n], t.states[n + 1])
    ensures LogsWell(c, t, n)
  {
    match t.acts[n]
    case LoginMint(_, _) => LoginMintLogsWell(c, t, n);
    case TakeCode(_) => TakeCodeLogsWell(c, t, n);
    case TakeRefresh(_) => TakeRefreshLogsWell(c, t, n);
    case CheckCode(_) => CheckLogsWell(c, t, n);
    case MintPair(_, _, _) => MintPairLogsWell(c, t, n);
    case RegisterStore(_) => RegisterStoreLogsWell(c, t, n);
    case Lookup(_) => LookupLogsWell(c, t, n);
    case Revoke(_) => RevokeLogsWell(c, t, n);
    case _ =>
  }

  lemma FrameKeepsWellFounded(c: Config, t: Trace, n: nat)
    requires n < |t.acts| < |t.states| && WellFounded(c, t, n) && Framed(t.states[n], t.acts[n], t.states[n + 1])
    requires MovesWell(c, t, n) && LogsWell(c, t, n)
    ensures WellFounded(c, t, n + 1)
  {
    var s, s' := t.states[n], t.states[n + 1];
    forall h | h in s'.flights ensures Pedigree(c, t, n + 1, h, s'.flights[h]) {
      if h in s.flights && s'.flights[h] == s.flights[h] {
        PedigreeLasts(c, t, n, n + 1, h, s.flights[h]);
      }
    }
    forall i | 0 <= i < |s'.log| ensures Earned(c, t, n + 1, s'.log[i]) {
      if i < |s.log| {
        EarnedLasts(c, t, n, n + 1, s.log[i]);
      }
    }
  }

  /** In every state of every trace, whatever is under way or logged has come about as it had to. */
  lemma {:induction false} TraceWellFounded(c: Config, t: Trace, n: nat)
    requires Recorded(c, t) && n < |t.states|
    ensures WellFounded(c, t, n)
  {
    if n > 0 {
      TraceWellFounded(c, t, n - 1);
      TheStep(c, t, n - 1);
      EveryStepMovesWell(c, t, n - 1);
      EveryStepLogsWell(c, t, n - 1);
      FrameKeepsWellFounded(c, t, n - 1);
    }
  }

  // --- every request is opened by one step --------------------------------------------------------------

  predicate OpensRequest(a: Action) {
    a.StartLogin? || a.StartToken? || a.StartRegister? || a.Revoke?
  }

  lemma OpeningTakesNumber(c: Config, s: State, a: Action)
    requires Enabled(c, s, a) && OpensRequest(a)
    ensures Apply(c, s, a).nextId == s.nextId + 1
  {
    match a
    case StartLogin(ip, form) => StartLoginMeans(c, s, ip, form);
    case StartToken(ip, asked) => StartTokenMeans(c, s, ip, asked);
    case StartRegister(ip) => StartRegisterMeans(c, s, ip);
    case Revoke(token) => RevokeMeans(c, s, token);
  }

  lemma {:induction false} NumbersRise(c: Config, t: Trace, k: nat, n: nat)
    requires Recorded(c, t) && k < n < |t.states|
    ensures t.states[k].nextId <= t.states[n].nextId
    ensures OpensRequest(t.acts[k]) ==> t.states[k].nextId < t.states[n].nextId
  {
    TheStep(c, t, n - 1);
    if k < n - 1 {
      NumbersRise(c, t, k, n - 1);
    } else if OpensRequest(t.acts[k]) {
      OpeningTakesNumber(c, t.states[k], t.acts[k]);
    }
  }

  /** A request number is given out once. */
  lemma OpenedOnce(c: Config, t: Trace, j: nat, k: nat)
    requires Recorded(c, t) && j < |t.acts| && k < |t.acts| && OpensRequest(t.acts[j]) && OpensRequest(t.acts[k])
    requires t.states[j].nextId == t.states[k].nextId
    ensures j == k
  {
    if j < k {
      NumbersRise(c, t, j, k);
    } else if k < j {
      NumbersRise(c, t, k, j);
    }
  }

  /** A login under way is about the form, and comes from the address, that its first step submitted. */
  lemma LoginIsAboutItsForm(c: Config, t: Trace, start: nat, n: nat)
    requires Recorded(c, t) && start < |t.acts| && t.acts[start].StartLogin? && n < |t.states|
    requires t.states[start].nextId in t.states[n].flights
    ensures var f := t.states[n].flights[t.states[start].nextId];
            && start < n
            && (f.LoginStarted? ==> f == LoginStarted(t.acts[start].ip, t.acts[start].form))
            && (f.LoginAdmitted? || f.LoginAllowed? ==> f.form == t.acts[start].form)
  {
    var h := t.states[start].nextId;
    var f := t.states[n].flights[h];
    TraceWellFounded(c, t, n);
    RecordedIsRun(c, t);
    LI.RunInv(c, t.states, n);
    if n < start {
      NumbersRise(c, t, n, start);
    }
    assert Pedigree(c, t, n, h, f);
    if f.LoginStarted? {
      BegunHere(c, t, start, n, h, f.ip, f.form);
    } else if f.LoginAdmitted? {
      AdmittedHere(c, t, start, n, h, f.form);
    } else if f.LoginAllowed? {
      var k: nat :| k < n && Allows(c, t, k, h, f.form);
      AdmittedHere(c, t, start, k, h, f.form);
    }
  }

  lemma BegunHere(c: Config, t: Trace, start: nat, n: nat, h: nat, ip: string, form: LoginForm)
    requires Recorded(c, t) && start < |t.acts| && t.acts[start].StartLogin? && t.states[start].nextId == h
    requires BegunVia(c, t, n, h, ip, form)
    ensures t.acts[start] == StartLogin(ip, form)
  {
    var k: nat :| k < n && Begins(c, t, k, h, ip, form);
    OpenedOnce(c, t, start, k);
  }

  lemma AdmittedHere(c: Config, t: Trace, start: nat, n: nat, h: nat, form: LoginForm)
    requires Recorded(c, t) && start < |t.acts| && t.acts[start].StartLogin? && t.states[start].nextId == h
    requires AdmittedVia(c, t, n, h, form)
    ensures t.acts[start].form == form
  {
    var k: nat, ip :| k < n && Admits(c, t, k, h, ip, form);
    BegunHere(c, t, start, k, h, ip, form);
  }

  /** A token request under way is about what its first step asked for. */
  lemma TokenIsAboutItsRequest(c: Config, t: Trace, start: nat, n: nat)
    requires Recorded(c, t) && start < |t.acts| && t.acts[start].StartToken? && n < |t.states|
    requires t.states[start].nextId in t.states[n].flights
    ensures var f, asked := t.states[n].flights[t.states[start].nextId], t.acts[start].asked;
            && (f.CodeRequested? || f.CodeTaken? ==>
                  f.asked == asked && asked.grantType == "authorization_code" && asked.code == Some(f.code))
            && (f.RefreshRequested? ==> asked.grantType == "refresh_token" && asked.refreshToken == Some(f.token))
  {
    var h := t.states[start].nextId;
    var f := t.states[n].flights[h];
    TraceWellFounded(c, t, n);
    assert Pedigree(c, t, n, h, f);
    if f.CodeRequested? || f.CodeTaken? {
      var k: nat :| k < n && AsksByCode(t, k, h, f.code, f.asked);
      OpenedOnce(c, t, start, k);
    } else if f.RefreshRequested? {
      var k: nat :| k < n && AsksByRefresh(t, k, h, f.token);
      OpenedOnce(c, t, start, k);
    }
  }
}
