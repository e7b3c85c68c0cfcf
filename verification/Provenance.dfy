/** Where accepted tokens come from: every one is the end of a chain of logged events that starts with a
    login, and each link of the chain was honoured within its time. */
module Provenance {
  import opened Prelude
  import opened Sessions
  import opened TokenStore
  import opened Grants
  import opened Lineage
  import opened Frames
  import LI = LineageInvariant

  /** What entitled a request to a pair: the redemption of a code (the positions in the log of the
      redirect check, the login and the redemption), or the refresh token of an earlier pair. */
  datatype Title = ByCode(allowed: nat, login: nat, redeem: nat) | ByRefresh(prev: Path, pop: nat)

  /** A chain of pairs, by the position of the last one in the log. */
  datatype Path = Path(title: Title, issue: nat)

  function LastOf(t: Title): nat {
    match t case ByCode(_, _, redeem) => redeem case ByRefresh(_, pop) => pop
  }

  /** The login at the start of a chain, and the number of refreshes since. */
  function LoginOf(p: Path): nat {
    match p.title case ByCode(_, login, _) => login case ByRefresh(prev, _) => LoginOf(prev)
  }

  function Refreshes(p: Path): nat {
    match p.title case ByCode(_, _, _) => 0 case ByRefresh(prev, _) => Refreshes(prev) + 1
  }

  function TimeOf(e: Event): real {
    if e.Checked? then e.hit.at else e.at
  }

  /** The record of a code is what its login wrote, for a redirect URI allowed at that login. */
  ghost predicate Founded(c: Config, log: seq<Event>, allowed: nat, login: nat, code: string, e: CodeEntry<Session>) {
    && allowed < login < |log|
    && log[login].LoggedIn? && log[login].code == code
    && AllowedFor(log[allowed], log[login].request, log[login].form)
    && e == CodeEntry(Session(log[login].who, 0.0), log[login].form.redirectUri, log[login].form.clientId,
                      log[login].at + c.codeTtl as real, log[login].form.challenge)
  }

  predicate AllowedFor(e: Event, request: nat, form: LoginForm) {
    e.RedirectAllowed? && e.request == request && e.uri == form.redirectUri && e.clientId == form.clientId
  }

  /** Request `h` may have a pair for `who` in exchange for `source`. A code is honoured up to and
      including its bound, a refresh token strictly before its own. */
  ghost predicate Entitled(c: Config, log: seq<Event>, h: nat, source: string, who: Identity, t: Title)
    decreases t
  {
    match t
    case ByCode(allowed, login, redeem) =>
      && allowed < login < redeem < |log|
      && log[login].LoggedIn? && log[login].code == source && log[login].who == who
      && AllowedFor(log[allowed], log[login].request, log[login].form)
      && log[redeem].Redeemed? && log[redeem].code == source && log[redeem].request == h
      && Honoured(c, log[login].form.redirectUri, log[login].form.clientId, log[login].form.challenge, log[redeem].asked)
      && log[login].at <= log[redeem].at <= log[login].at + c.codeTtl as real
    case ByRefresh(prev, pop) =>
      && Sound(c, log, prev)
      && prev.issue < pop < |log|
      && log[prev.issue].refresh == source && log[prev.issue].who == who
      && log[pop].Popped? && log[pop].cred == source && log[pop].request == h
      && log[prev.issue].at <= log[pop].at < log[prev.issue].at + c.refreshTtl as real
  }

  /** The chain really is in the log, in this order, and every link was honoured. */
  ghost predicate Sound(c: Config, log: seq<Event>, p: Path)
    decreases p
  {
    && LastOf(p.title) < p.issue < |log|
    && log[p.issue].Issued?
    && Entitled(c, log, log[p.issue].request, log[p.issue].source, log[p.issue].who, p.title)
    && TimeOf(log[LastOf(p.title)]) <= log[p.issue].at
  }

  /** The identity a chain stands for is the one its login validated. */
  lemma {:induction false} WhoIsTheLogins(c: Config, log: seq<Event>, p: Path)
    requires Sound(c, log, p)
    ensures LoginOf(p) < p.issue && log[LoginOf(p)].LoggedIn? && log[p.issue].who == log[LoginOf(p)].who
  {
    if p.title.ByRefresh? {
      WhoIsTheLogins(c, log, p.title.prev);
    }
  }

  // --- what the invariant says of each stored or held record ---------------------------------

  ghost predicate CodeTraced(c: Config, log: seq<Event>, now: real, code: string, e: CodeEntry<Session>) {
    exists allowed: nat, login: nat :: Founded(c, log, allowed, login, code, e) && log[login].at <= now
  }

  ghost predicate SourceTraced(c: Config, log: seq<Event>, now: real, h: nat, source: string, who: Identity) {
    exists t :: Entitled(c, log, h, source, who, t) && LastOf(t) < |log| && TimeOf(log[LastOf(t)]) <= now
  }

  ghost predicate IsAccess(c: Config, log: seq<Event>, p: Path, token: string, session: Session) {
    && Sound(c, log, p) && log[p.issue].access == token
    && session == Session(log[p.issue].who, log[p.issue].at + c.accessTtl as real)
  }

  ghost predicate IsRefresh(c: Config, log: seq<Event>, p: Path, token: string, session: Session) {
    && Sound(c, log, p) && log[p.issue].refresh == token
    && session == Session(log[p.issue].who, log[p.issue].at + c.refreshTtl as real)
  }

  ghost predicate AccessTraced(c: Config, log: seq<Event>, now: real, token: string, session: Session) {
    exists p :: IsAccess(c, log, p, token, session) && log[p.issue].at <= now
  }

  ghost predicate RefreshTraced(c: Config, log: seq<Event>, now: real, token: string, session: Session) {
    exists p :: IsRefresh(c, log, p, token, session) && log[p.issue].at <= now
  }

  ghost predicate FlightTraced(c: Config, log: seq<Event>, now: real, h: nat, f: Flight<Session>) {
    match f
    case LoginMinted(code, e) => CodeTraced(c, log, now, code, e)
    case CodeTaken(code, e, _) => CodeTraced(c, log, now, code, e)
    case Authorized(source, session) => SourceTraced(c, log, now, h, source, session.who)
    case PairMinted(access, session, refresh, next) =>
      AccessTraced(c, log, now, access, session) && RefreshTraced(c, log, now, refresh, next)
    case AccessStored(_, refresh, next) => RefreshTraced(c, log, now, refresh, next)
    case _ => true
  }

  ghost predicate Traced(c: Config, s: State) {
    && (forall k :: k in s.store.codes ==> CodeTraced(c, s.log, s.now, k, s.store.codes[k]))
    && (forall k :: k in s.store.sessions ==> AccessTraced(c, s.log, s.now, k, s.store.sessions[k]))
    && (forall k :: k in s.store.refresh ==> RefreshTraced(c, s.log, s.now, k, s.store.refresh[k]))
    && (forall h :: h in s.flights ==> FlightTraced(c, s.log, s.now, h, s.flights[h]))
  }

  // --- a longer log keeps what a shorter one proved ------------------------------------------

  lemma {:induction false} SoundMono(c: Config, log: seq<Event>, log': seq<Event>, p: Path)
    requires Sound(c, log, p) && log <= log'
    ensures Sound(c, log', p) && log'[p.issue] == log[p.issue]
    decreases p
  {
    EntitledMono(c, log, log', log[p.issue].request, log[p.issue].source, log[p.issue].who, p.title);
  }

  lemma {:induction false} EntitledMono(c: Config, log: seq<Event>, log': seq<Event>, h: nat, source: string, who: Identity, t: Title)
    requires Entitled(c, log, h, source, who, t) && log <= log'
    ensures Entitled(c, log', h, source, who, t)
    decreases t
  {
    if t.ByRefresh? {
      SoundMono(c, log, log', t.prev);
    }
  }

  lemma CodeTracedMono(c: Config, log: seq<Event>, now: real, log': seq<Event>, now': real, code: string, e: CodeEntry<Session>)
    requires log <= log' && now <= now' && CodeTraced(c, log, now, code, e)
    ensures CodeTraced(c, log', now', code, e)
  {
    var a: nat, l: nat :| Founded(c, log, a, l, code, e) && log[l].at <= now;
    assert Founded(c, log', a, l, code, e);
  }

  lemma AccessTracedMono(c: Config, log: seq<Event>, now: real, log': seq<Event>, now': real, token: string, session: Session)
    requires log <= log' && now <= now' && AccessTraced(c, log, now, token, session)
    ensures AccessTraced(c, log', now', token, session)
  {
    var p :| IsAccess(c, log, p, token, session) && log[p.issue].at <= now;
    SoundMono(c, log, log', p);
    assert IsAccess(c, log', p, token, session);
  }

  lemma RefreshTracedMono(c: Config, log: seq<Event>, now: real, log': seq<Event>, now': real, token: string, session: Session)
    requires log <= log' && now <= now' && RefreshTraced(c, log, now, token, session)
    ensures RefreshTraced(c, log', now', token, session)
  {
    var p :| IsRefresh(c, log, p, token, session) && log[p.issue].at <= now;
    SoundMono(c, log, log', p);
    assert IsRefresh(c, log', p, token, session);
  }

  lemma FlightTracedMono(c: Config, log: seq<Event>, now: real, log': seq<Event>, now': real, h: nat, f: Flight<Session>)
    requires log <= log' && now <= now' && FlightTraced(c, log, now, h, f)
    ensures FlightTraced(c, log', now', h, f)
  {
    match f
    case LoginMinted(code, e) => CodeTracedMono(c, log, now, log', now', code, e);
    case CodeTaken(code, e, _) => CodeTracedMono(c, log, now, log', now', code, e);
    case Authorized(source, session) =>
      var t :| Entitled(c, log, h, source, session.who, t) && LastOf(t) < |log| && TimeOf(log[LastOf(t)]) <= now;
      EntitledMono(c, log, log', h, source, session.who, t);
    case PairMinted(access, session, refresh, next) =>
      AccessTracedMono(c, log, now, log', now', access, session);
      RefreshTracedMono(c, log, now, log', now', refresh, next);
    case AccessStored(_, refresh, next) => RefreshTracedMono(c, log, now, log', now', refresh, next);
    case _ =>
  }

  /** Everything that a step leaves in place stays traced; what it put in place must be traced. */
  lemma Retrace(c: Config, s: State, s': State)
    requires Traced(c, s) && s.log <= s'.log && s.now <= s'.now
    requires forall k :: k in s'.store.codes ==>
               (k in s.store.codes && s.store.codes[k] == s'.store.codes[k]) || CodeTraced(c, s'.log, s'.now, k, s'.store.codes[k])
    requires forall k :: k in s'.store.sessions ==>
               (k in s.store.sessions && s.store.sessions[k] == s'.store.sessions[k]) || AccessTraced(c, s'.log, s'.now, k, s'.store.sessions[k])
    requires forall k :: k in s'.store.refresh ==>
               (k in s.store.refresh && s.store.refresh[k] == s'.store.refresh[k]) || RefreshTraced(c, s'.log, s'.now, k, s'.store.refresh[k])
    requires forall h :: h in s'.flights ==>
               (h in s.flights && s.flights[h] == s'.flights[h]) || FlightTraced(c, s'.log, s'.now, h, s'.flights[h])
    ensures Traced(c, s')
  {
    forall k | k in s'.store.codes ensures CodeTraced(c, s'.log, s'.now, k, s'.store.codes[k]) {
      if k in s.store.codes && s.store.codes[k] == s'.store.codes[k] {
        CodeTracedMono(c, s.log, s.now, s'.log, s'.now, k, s.store.codes[k]);
      }
    }
    forall k | k in s'.store.sessions ensures AccessTraced(c, s'.log, s'.now, k, s'.store.sessions[k]) {
      if k in s.store.sessions && s.store.sessions[k] == s'.store.sessions[k] {
        AccessTracedMono(c, s.log, s.now, s'.log, s'.now, k, s.store.sessions[k]);
      }
    }
    forall k | k in s'.store.refresh ensures RefreshTraced(c, s'.log, s'.now, k, s'.store.refresh[k]) {
      if k in s.store.refresh && s.store.refresh[k] == s'.store.refresh[k] {
        RefreshTracedMono(c, s.log, s.now, s'.log, s'.now, k, s.store.refresh[k]);
      }
    }
    forall h | h in s'.flights ensures FlightTraced(c, s'.log, s'.now, h, s'.flights[h]) {
      if h in s.flights && s.flights[h] == s'.flights[h] {
        FlightTracedMono(c, s.log, s.now, s'.log, s'.now, h, s.flights[h]);
      }
    }
  }

  /** A step that only takes records out of the store and moves one request. */
  lemma RetraceFlight(c: Config, s: State, s': State, h: nat)
    requires Traced(c, s) && s.log <= s'.log && s.now <= s'.now && Shrinks(s.store, s'.store)
    requires forall k :: k in s'.flights && k != h ==> k in s.flights && s'.flights[k] == s.flights[k]
    requires h in s'.flights ==> FlightTraced(c, s'.log, s'.now, h, s'.flights[h])
    ensures Traced(c, s')
  {
    Retrace(c, s, s');
  }

  lemma QuietKeepsTraced(c: Config, s: State, s': State)
    requires Traced(c, s) && Quiet(s, s')
    ensures Traced(c, s')
  {
    forall h | h in s'.flights
      ensures (h in s.flights && s.flights[h] == s'.flights[h]) || FlightTraced(c, s'.log, s'.now, h, s'.flights[h])
    {
      if Cred(s'.flights[h]).Some? {
        assert Held(s', InFlight(h)).Some?;
      }
    }
    Retrace(c, s, s');
  }

  // --- logins in progress --------------------------------------------------------------------

  /** The form of a login whose redirect URI has been allowed but whose code is not minted yet. */
  function AllowedForm<S>(f: Flight<S>): Option<LoginForm> {
    match f
    case LoginAllowed(form) => Some(form)
    case LoginValidated(form, _, _) => Some(form)
    case LoginPurged(form, _) => Some(form)
    case _ => None
  }

  ghost predicate WasAllowed(log: seq<Event>, h: nat, form: LoginForm) {
    exists i :: 0 <= i < |log| && AllowedFor(log[i], h, form)
  }

  ghost predicate LoginsAllowed(s: State) {
    forall h :: h in s.flights ==>
      && (AllowedForm(s.flights[h]).Some? ==> WasAllowed(s.log, h, AllowedForm(s.flights[h]).value))
      && (s.flights[h].LoginValidated? || s.flights[h].LoginPurged? ==> s.flights[h].session.expiresAt == 0.0)
  }

  /** The steps that have a form allowed, or carry an allowed one on. */
  lemma MoverStaysAllowed(c: Config, s: State, a: Action)
    requires LoginsAllowed(s) && Enabled(c, s, a) && (a.LoginRedirect? || a.LoginValidate? || a.LoginPurge?)
    ensures var s' := Apply(c, s, a);
            a.h in s'.flights && AllowedForm(s'.flights[a.h]).Some? ==>
              && (|| AllowedForm(s'.flights[a.h]) == AllowedForm(s.flights[a.h])
                  || WasAllowed(s'.log, a.h, AllowedForm(s'.flights[a.h]).value))
              && (s'.flights[a.h].LoginValidated? || s'.flights[a.h].LoginPurged? ==> s'.flights[a.h].session.expiresAt == 0.0)
  {
    var s' := Apply(c, s, a);
    if a.LoginRedirect? && s'.log != s.log {
      assert AllowedFor(s'.log[|s.log|], a.h, s.flights[a.h].form);
    }
  }

  lemma StepKeepsAllowed(c: Config, s: State, a: Action)
    requires LoginsAllowed(s) && Enabled(c, s, a)
    ensures LoginsAllowed(Apply(c, s, a))
  {
    var s' := Apply(c, s, a);
    StepFrame(c, s, a);
    if a.LoginRedirect? || a.LoginValidate? || a.LoginPurge? {
      MoverStaysAllowed(c, s, a);
    }
    forall k, form | WasAllowed(s.log, k, form)
      ensures WasAllowed(s'.log, k, form)
    {
      var i :| 0 <= i < |s.log| && AllowedFor(s.log[i], k, form);
      assert s'.log[i] == s.log[i];
    }
    FrameKeepsAllowed(s, a, s');
  }

  lemma FrameKeepsAllowed(s: State, a: Action, s': State)
    requires LoginsAllowed(s) && Framed(s, a, s')
    requires forall k, form :: WasAllowed(s.log, k, form) ==> WasAllowed(s'.log, k, form)
    requires a.LoginRedirect? || a.LoginValidate? || a.LoginPurge? ==>
               (a.h in s'.flights && AllowedForm(s'.flights[a.h]).Some? ==>
                  && (|| (a.h in s.flights && AllowedForm(s'.flights[a.h]) == AllowedForm(s.flights[a.h]))
                      || WasAllowed(s'.log, a.h, AllowedForm(s'.flights[a.h]).value))
                  && (s'.flights[a.h].LoginValidated? || s'.flights[a.h].LoginPurged? ==> s'.flights[a.h].session.expiresAt == 0.0))
    ensures LoginsAllowed(s')
  {
  }

  // --- the steps that create or move records --------------------------------------------------

  lemma LoginMintTraced(c: Config, s: State, h: nat, code: string)
    requires Traced(c, s) && LoginsAllowed(s) && Enabled(c, s, LoginMint(h, code))
    ensures Traced(c, DoLoginMint(c, s, h, code))
  {
    var s' := DoLoginMint(c, s, h, code);
    var f := s.flights[h];
    var a :| 0 <= a < |s.log| && AllowedFor(s.log[a], h, f.form);
    assert s'.log[a] == s.log[a];
    assert Founded(c, s'.log, a, |s.log|, code, s'.flights[h].entry);
    RetraceFlight(c, s, s', h);
  }

  lemma LoginStoreTraced(c: Config, s: State, h: nat)
    requires Traced(c, s) && Enabled(c, s, LoginStore(h))
    ensures Traced(c, DoLoginStore(s, h))
  {
    var s' := DoLoginStore(s, h);
    var f := s.flights[h];
    assert FlightTraced(c, s.log, s.now, h, f);
    CodeTracedMono(c, s.log, s.now, s'.log, s'.now, f.code, f.entry);
    Retrace(c, s, s');
  }

  lemma TakeCodeTraced(c: Config, s: State, h: nat)
    requires Traced(c, s) && Enabled(c, s, TakeCode(h))
    ensures Traced(c, DoTakeCode(s, h))
  {
    var s' := DoTakeCode(s, h);
    var code := s.flights[h].code;
    if code in s.store.codes {
      CodeTracedMono(c, s.log, s.now, s'.log, s'.now, code, s.store.codes[code]);
    }
    RetraceFlight(c, s, s', h);
  }

  lemma CheckCodeTraced(c: Config, s: State, h: nat)
    requires Traced(c, s) && Enabled(c, s, CheckCode(h))
    ensures Traced(c, DoCheckCode(c, s, h))
  {
    var f := s.flights[h];
    if CodeOutcome(c, Some(f.entry), f.asked, s.now) == None {
      assert FlightTraced(c, s.log, s.now, h, f);
      CodeEntitles(c, s, h, f.code, f.entry, f.asked);
    }
    RetraceFlight(c, s, DoCheckCode(c, s, h), h);
  }

  lemma CodeEntitles(c: Config, s: State, h: nat, code: string, e: CodeEntry<Session>, asked: TokenRequest)
    requires CodeTraced(c, s.log, s.now, code, e) && CodeOutcome(c, Some(e), asked, s.now) == None
    ensures SourceTraced(c, s.log + [Redeemed(s.now, h, code, asked)], s.now, h, code, e.session.who)
  {
    var log' := s.log + [Redeemed(s.now, h, code, asked)];
    var a: nat, l: nat :| Founded(c, s.log, a, l, code, e) && s.log[l].at <= s.now;
    OutcomeMeansHonoured(c, Some(e), asked, s.now);
    assert log'[a] == s.log[a] && log'[l] == s.log[l];
    assert Entitled(c, log', h, code, e.session.who, ByCode(a, l, |s.log|));
  }

  lemma TakeRefreshTraced(c: Config, s: State, h: nat)
    requires Traced(c, s) && Enabled(c, s, TakeRefresh(h))
    ensures Traced(c, DoTakeRefresh(s, h))
  {
    var s' := DoTakeRefresh(s, h);
    var token := s.flights[h].token;
    if token in s.store.refresh && !Expired(s.store.refresh[token], s.now) {
      RefreshEntitles(c, s, h, token);
    }
    RetraceFlight(c, s, s', h);
  }

  lemma RefreshEntitles(c: Config, s: State, h: nat, token: string)
    requires Traced(c, s) && token in s.store.refresh && !Expired(s.store.refresh[token], s.now)
    ensures SourceTraced(c, s.log + [Popped(s.now, h, token)], s.now, h, token, s.store.refresh[token].who)
  {
    var session := s.store.refresh[token];
    var log' := s.log + [Popped(s.now, h, token)];
    var p :| IsRefresh(c, s.log, p, token, session) && s.log[p.issue].at <= s.now;
    SoundMono(c, s.log, log', p);
    assert Entitled(c, log', h, token, session.who, ByRefresh(p, |s.log|));
  }

  lemma MintPairTraced(c: Config, s: State, h: nat, access: string, refresh: string)
    requires Traced(c, s) && Enabled(c, s, MintPair(h, access, refresh))
    ensures Traced(c, DoMintPair(c, s, h, access, refresh))
  {
    var s' := DoMintPair(c, s, h, access, refresh);
    var f := s.flights[h];
    assert FlightTraced(c, s.log, s.now, h, f);
    var t :| Entitled(c, s.log, h, f.source, f.session.who, t) && LastOf(t) < |s.log| && TimeOf(s.log[LastOf(t)]) <= s.now;
    EntitledMono(c, s.log, s'.log, h, f.source, f.session.who, t);
    var p := Path(t, |s.log|);
    assert Sound(c, s'.log, p);
    assert IsAccess(c, s'.log, p, access, s'.flights[h].session);
    assert IsRefresh(c, s'.log, p, refresh, s'.flights[h].next);
    RetraceFlight(c, s, s', h);
  }

  lemma StoreTraced(c: Config, s: State, a: Action)
    requires Traced(c, s) && Enabled(c, s, a) && (a.StoreAccess? || a.StoreRefresh?)
    ensures Traced(c, Apply(c, s, a))
  {
    assert FlightTraced(c, s.log, s.now, a.h, s.flights[a.h]);
    Retrace(c, s, Apply(c, s, a));
  }

  lemma CredentialStepTraced(c: Config, s: State, a: Action)
    requires Traced(c, s) && LoginsAllowed(s) && Enabled(c, s, a) && !IsQuiet(a)
    ensures Traced(c, Apply(c, s, a))
  {
    match a
    case LoginMint(h, code) => LoginMintTraced(c, s, h, code);
    case LoginStore(h) => LoginStoreTraced(c, s, h);
    case TakeCode(h) => TakeCodeTraced(c, s, h);
    case CheckCode(h) => CheckCodeTraced(c, s, h);
    case TakeRefresh(h) => TakeRefreshTraced(c, s, h);
    case MintPair(h, access, refresh) => MintPairTraced(c, s, h, access, refresh);
    case StoreAccess(_) => StoreTraced(c, s, a);
    case StoreRefresh(_) => StoreTraced(c, s, a);
  }

  lemma StepKeepsTraced(c: Config, s: State, a: Action)
    requires Named(s) && Traced(c, s) && LoginsAllowed(s) && Enabled(c, s, a)
    ensures Traced(c, Apply(c, s, a)) && LoginsAllowed(Apply(c, s, a))
  {
    StepKeepsAllowed(c, s, a);
    if IsQuiet(a) {
      QuietSteps(c, s, a);
      QuietKeepsTraced(c, s, Apply(c, s, a));
    } else {
      CredentialStepTraced(c, s, a);
    }
  }

  lemma {:induction false} RunTraced(c: Config, run: seq<State>, n: nat)
    requires Run(c, run) && n < |run|
    ensures Traced(c, run[n]) && LoginsAllowed(run[n])
  {
    if n > 0 {
      RunTraced(c, run, n - 1);
      LI.RunInv(c, run, n - 1);
      var a := LastAction(c, run, n);
      StepKeepsTraced(c, run[n - 1], a);
    }
  }

  // --- accepted tokens ------------------------------------------------------------------------

  /** Every answer of a lookup so far was the end of a chain that was already in the log. */
  ghost predicate Accounted(c: Config, log: seq<Event>) {
    forall i :: 0 <= i < |log| && log[i].Accepted? ==> AcceptedTraced(c, log[..i], log[i].at, log[i].token, log[i].session)
  }

  ghost predicate AcceptedTraced(c: Config, log: seq<Event>, at: real, token: string, session: Session) {
    AccessTraced(c, log, at, token, session) && at < session.expiresAt
  }

  lemma AppendAccounted(c: Config, log: seq<Event>, e: Event)
    requires Accounted(c, log)
    requires e.Accepted? ==> AcceptedTraced(c, log, e.at, e.token, e.session)
    ensures Accounted(c, log + [e])
  {
    var log' := log + [e];
    forall i | 0 <= i < |log'| && log'[i].Accepted?
      ensures AcceptedTraced(c, log'[..i], log'[i].at, log'[i].token, log'[i].session)
    {
      assert log'[..i] == log[..i];
      if i == |log| {
        assert log[..i] == log;
      }
    }
  }

  lemma StepKeepsAccounted(c: Config, s: State, a: Action)
    requires Inv(s) && Traced(c, s) && Accounted(c, s.log) && Enabled(c, s, a)
    ensures Accounted(c, Apply(c, s, a).log)
  {
    var s' := Apply(c, s, a);
    StepGrows(c, s, a);
    if s'.log != s.log {
      OneMore(s.log, s'.log);
      AppendAccounted(c, s.log, s'.log[|s.log|]);
    }
  }

  lemma OneMore(log: seq<Event>, log': seq<Event>)
    requires log <= log' && |log'| <= |log| + 1
    ensures log' != log ==> |log'| == |log| + 1 && log' == log + [log'[|log|]]
  {
  }

  /** An acceptance is logged only if the store holds that session alive. */
  lemma StepGrows(c: Config, s: State, a: Action)
    requires Enabled(c, s, a)
    ensures var s' := Apply(c, s, a);
            && s.log <= s'.log && |s'.log| <= |s.log| + 1
            && (|s'.log| > |s.log| && s'.log[|s.log|].Accepted? ==>
                  var e := s'.log[|s.log|];
                  && e.at == s.now && e.token in s.store.sessions && s.store.sessions[e.token] == e.session
                  && s.now < e.session.expiresAt)
  {
    StepFrame(c, s, a);
    if a.Lookup? {
      assert Apply(c, s, a) == DoLookup(s, a.token);
    }
  }

  lemma {:induction false} RunAccounted(c: Config, run: seq<State>, n: nat)
    requires Run(c, run) && n < |run|
    ensures Accounted(c, run[n].log)
  {
    if n > 0 {
      RunAccounted(c, run, n - 1);
      LI.RunInv(c, run, n - 1);
      RunTraced(c, run, n - 1);
      var a := LastAction(c, run, n);
      StepKeepsAccounted(c, run[n - 1], a);
    }
  }

  /** Whenever a lookup accepts a token, the log before it holds, in order: a login that validated
      exactly this identity and whose redirect URI had been allowed; a redemption of its code with all
      that the code was bound to; and a chain of refreshes, each within its time, that ends in this token. */
  lemma AcceptedTokensHaveProvenance(c: Config, run: seq<State>, n: nat, i: nat) returns (p: Path)
    requires Run(c, run) && n < |run| && i < |run[n].log| && run[n].log[i].Accepted?
    ensures var log, e := run[n].log, run[n].log[i];
            && Sound(c, log, p) && LoginOf(p) < p.issue < i
            && log[p.issue].access == e.token
            && log[LoginOf(p)].LoggedIn? && e.session.who == log[LoginOf(p)].who
            && e.session.expiresAt == log[p.issue].at + c.accessTtl as real
            && log[p.issue].at <= e.at < e.session.expiresAt
  {
    var log := run[n].log;
    RunAccounted(c, run, n);
    assert AcceptedTraced(c, log[..i], log[i].at, log[i].token, log[i].session);
    p :| IsAccess(c, log[..i], p, log[i].token, log[i].session) && log[..i][p.issue].at <= log[i].at;
    SoundMono(c, log[..i], log, p);
    WhoIsTheLogins(c, log, p);
  }
}
