/** auth/routes.py on the in-memory store, on the heap: requests hold session objects, hand them over,
    and `_issue_token_pair` overwrites `expires_at` in place. Each method is one step of Grants.dfy. */
module OAuthServer {
  import opened Prelude
  import opened Sessions
  import opened TokenStore
  import opened RedisKeys
  import opened RateLimiter
  import opened Pkce
  import opened Grants
  import opened Ownership
  import opened Frames
  import Memory = InMemoryTokenStore

  class Server {
    const c: Config
    const store: Memory.InMemoryTokenStore
    var now: Instant
    var flights: map<nat, Flight<UserSession>>
    var nextId: nat
    var replies: map<nat, Reply>
    ghost var minted: set<string>
    ghost var log: seq<Event>
    /** What the session objects hold; `Valid` keeps it true of the heap. */
    ghost var at: Snapshot

    constructor (c: Config, now: Instant)
      requires c.backend == Backend.Memory
      ensures this.c == c && fresh(store)
      ensures Valid() && Init(View())
    {
      this.c, this.now, flights, nextId, replies, minted, log := c, now, map[], 0, map[], {}, [];
      at := map[];
      store := new Memory.InMemoryTokenStore();
    }

    ghost function Held(): Graph
      reads this, store
    {
      Graph(store.sessions, store.codes, store.refresh, flights)
    }

    ghost predicate Valid()
      reads this, store, at.Keys
    {
      && c.backend == Backend.Memory
      && (forall s :: s in at ==> s.Value() == at[s])
      && Sole(Held(), at)
    }

    /** The state this server stands for. */
    ghost function View(): State
      reads this, store
    {
      State(now,
            Store(SessionValues(store.sessions, at), CodeValues(store.codes, at), store.clients,
                  SessionValues(store.refresh, at), store.rate),
            FlightValues(flights, at), nextId, replies, minted, log)
    }

    /** `_check_rate_limit`. */
    method CheckRateLimit(request: nat, ip: string, name: string, limit: nat, seconds: nat) returns (ok: bool)
      requires Valid()
      modifies this`log, store`rate
      ensures Valid() && Held() == old(Held())
      ensures View() == RateCheck(old(View()), request, ip, name, limit, seconds).0
      ensures ok == RateCheck(old(View()), request, ip, name, limit, seconds).1
    {
      var key := RateKey(name, seconds, ip);
      var count := store.IncrRate(key, seconds, now);
      log := log + [Checked(Hit(now, request, key, seconds), limit)];
      ok := count <= limit;
    }

    /** Every request takes the next number, whether it goes on or is answered at once. */
    method Open(f: Flight<UserSession>)
      requires Valid() && InHand(f) == None && InSecondHand(f) == None
      modifies this`flights, this`nextId
      ensures Valid() && View() == old(View()).Open(FlightIn(f, at))
    {
      FlightsMove(flights, nextId, f, at);
      AdvanceKeepsSole(Held(), nextId, f, at);
      flights := flights[nextId := f];
      nextId := nextId + 1;
    }

    method Refuse(r: Reply)
      requires Valid()
      modifies this`replies, this`nextId
      ensures Valid() && View() == old(View()).Refuse(r)
    {
      replies := replies[nextId := r];
      nextId := nextId + 1;
    }

    method Move(h: nat, f: Flight<UserSession>)
      requires Valid()
      requires InHand(f) == None || InHand(f) == Held().At(Hand(h))
      requires InSecondHand(f) == None || InSecondHand(f) == Held().At(SecondHand(h))
      modifies this`flights
      ensures Valid() && View() == old(View()).Move(h, FlightIn(f, at)) && flights == old(flights)[h := f]
    {
      FlightsMove(flights, h, f, at);
      AdvanceKeepsSole(Held(), h, f, at);
      flights := flights[h := f];
    }

    method Finish(h: nat, r: Reply)
      requires Valid() && h in flights
      modifies this`flights, this`replies
      ensures Valid() && View() == old(View()).Finish(h, r)
    {
      FlightsMove(flights, h, flights[h], at);
      DroppingKeepsSole(Held(), Held().(flights := flights - {h}), at);
      flights := flights - {h};
      replies := replies[h := r];
    }

    method Tick(later: Instant)
      requires Valid() && now <= later
      modifies this`now
      ensures Valid() && View() == old(View()).(now := later)
    {
      now := later;
    }

    method StartLogin(ip: string, form: LoginForm)
      requires Valid()
      modifies this, store`rate
      ensures Valid() && View() == DoStartLogin(c, old(View()), ip, form)
    {
      var ok := CheckRateLimit(nextId, ip, "login", c.loginPerMinute, 60);
      if ok {
        Open(LoginStarted(ip, form));
      } else {
        Refuse(TOO_MANY);
      }
    }

    method LoginHour(h: nat, csrfOk: bool)
      requires Valid() && h in flights && flights[h].LoginStarted?
      modifies this, store`rate
      ensures Valid() && View() == DoLoginHour(c, old(View()), h, csrfOk)
    {
      var LoginStarted(ip, form) := flights[h];
      var ok := CheckRateLimit(h, ip, "login", c.loginPerHour, 3600);
      if !ok {
        Finish(h, TOO_MANY);
        return;
      }
      if !csrfOk {
        Finish(h, LOGIN_FORM);
        return;
      }
      if form.challenge == "" {
        Finish(h, LOGIN_FORM);
        return;
      }
      if form.challengeMethod != "" && form.challengeMethod != "S256" {
        Finish(h, LOGIN_FORM);
        return;
      }
      Move(h, LoginAdmitted(form));
    }

    method LoginRedirect(h: nat)
      requires Valid() && h in flights && flights[h].LoginAdmitted?
      modifies this
      ensures Valid() && View() == DoLoginRedirect(c, old(View()), h)
    {
      var form := flights[h].form;
      var client := store.GetClient(form.clientId);
      match RedirectDecision(c, client, form.redirectUri, form.clientId) {
        case Crash => Finish(h, SERVER_ERROR);
        case No => Finish(h, LOGIN_FORM);
        case Yes =>
          log := log + [RedirectAllowed(now, h, form.redirectUri, form.clientId)];
          Move(h, LoginAllowed(form));
      }
    }

    /** The oracle's answer becomes a new session object, with no bound yet. */
    method LoginValidate(h: nat, found: Option<Identity>)
      requires Valid() && h in flights && flights[h].LoginAllowed?
      modifies this
      ensures Valid() && View() == DoLoginValidate(old(View()), h, found)
    {
      match found {
        case None => Finish(h, LOGIN_FORM);
        case Some(who) =>
          var session := new UserSession(who, 0.0);
          var f := LoginValidated(flights[h].form, session, now);
          ghost var at' := at[session := session.Value()];
          OverwriteIsLocal(Held(), h, session, session.Value(), at);
          FlightsReplace(flights, h, f, at, at');
          AdoptionKeepsSole(Held(), Held().(flights := flights[h := f]), Hand(h), session, at, at');
          flights := flights[h := f];
          at := at';
      }
    }

    method LoginPurge(h: nat)
      requires Valid() && h in flights && flights[h].LoginValidated?
      modifies this, store`codes
      ensures Valid() && View() == DoLoginPurge(c, old(View()), h)
    {
      var f := flights[h];
      ghost var dead := Memory.DeadCodes(store.codes, f.purgeAt);
      assert dead == View().store.ExpiredCodes(f.purgeAt);
      CodesDrop(store.codes, dead, at);
      DroppingKeepsSole(Held(), Held().(codes := store.codes - dead), at);
      var purged := store.PurgeExpiredCodes(f.purgeAt);
      log := log + [Purged(now, h, f.purgeAt)];
      Move(h, LoginPurged(f.form, f.session));
    }

    method LoginMint(h: nat, code: string)
      requires Valid() && h in flights && flights[h].LoginPurged?
      modifies this
      ensures Valid() && View() == DoLoginMint(c, old(View()), h, code)
    {
      var LoginPurged(form, session) := flights[h];
      var e := CodeEntry(session, form.redirectUri, form.clientId, now + c.codeTtl as real, form.challenge);
      minted := minted + {code};
      log := log + [LoggedIn(now, h, code, form, session.who)];
      Move(h, LoginMinted(code, e));
    }

    /** The request hands its session object to the code record. */
    method LoginStore(h: nat)
      requires Valid() && h in flights && flights[h].LoginMinted?
      modifies this, store`codes
      ensures Valid() && View() == DoLoginStore(old(View()), h)
    {
      var LoginMinted(code, e) := flights[h];
      CodesMove(store.codes, code, e, at);
      FlightsMove(flights, h, flights[h], at);
      MoveKeepsSole(Held(), Held().(codes := store.codes[code := e], flights := flights - {h}), Hand(h), CodeEntryOf(code), at);
      store.PutCode(code, e);
      log := log + [CodeStored(now, h, code)];
      flights, replies := flights - {h}, replies[h := RedirectWithCode(e.redirectUri, code)];
    }

    method StartToken(ip: string, asked: TokenRequest)
      requires Valid()
      modifies this, store`rate
      ensures Valid() && View() == DoStartToken(c, old(View()), ip, asked)
    {
      var ok := CheckRateLimit(nextId, ip, "token", c.tokenPerMinute, 60);
      if !ok {
        Refuse(TOO_MANY);
      } else if asked.grantType == "authorization_code" {
        if OrEmpty(asked.code) == "" {
          Refuse(INVALID_GRANT);
        } else {
          Open(CodeRequested(asked.code.value, asked));
        }
      } else if asked.grantType == "refresh_token" {
        if OrEmpty(asked.refreshToken) == "" {
          Refuse(INVALID_REQUEST);
        } else {
          Open(RefreshRequested(asked.refreshToken.value));
        }
      } else {
        Refuse(Error(400, "unsupported_grant_type"));
      }
    }

    /** The code record, and with it the session object, passes into the hands of the request. */
    method TakeCode(h: nat)
      requires Valid() && h in flights && flights[h].CodeRequested?
      modifies this, store`codes
      ensures Valid() && View() == DoTakeCode(old(View()), h)
    {
      var CodeRequested(code, asked) := flights[h];
      TakeCodeHandsOver(Held(), at, View(), h);
      var entry := store.PopCode(code);
      match entry {
        case None =>
          flights, replies := flights - {h}, replies[h := INVALID_GRANT];
        case Some(e) =>
          log := log + [Popped(now, h, code)];
          flights := flights[h := CodeTaken(code, e, asked)];
      }
    }

    /** The tests a redemption makes, in the order it makes them. */
    method Refusal(e: CodeEntry<UserSession>, asked: TokenRequest) returns (r: Option<Reply>)
      ensures r == CodeOutcome(c, Some(EntryIn(e, at)), asked, now)
    {
      if now > e.expiresAt {
        return Some(INVALID_GRANT);
      }
      if OrEmpty(asked.redirectUri) != e.redirectUri {
        return Some(INVALID_GRANT);
      }
      if e.clientId != "" && OrEmpty(asked.clientId) != e.clientId {
        return Some(INVALID_GRANT);
      }
      if e.challenge == "" {
        return Some(INVALID_GRANT);
      }
      if OrEmpty(asked.verifier) == "" {
        return Some(INVALID_REQUEST);
      }
      match VerifyS256(c.sha256, e.challenge, asked.verifier.value) {
        case Raises => return Some(SERVER_ERROR);
        case Mismatch => return Some(INVALID_GRANT);
        case Match => return None;
      }
    }

    method CheckCode(h: nat)
      requires Valid() && h in flights && flights[h].CodeTaken?
      modifies this
      ensures Valid() && View() == DoCheckCode(c, old(View()), h)
    {
      var CodeTaken(code, e, asked) := flights[h];
      var refusal := Refusal(e, asked);
      match refusal {
        case Some(r) => Finish(h, r);
        case None =>
          log := log + [Redeemed(now, h, code, asked)];
          Move(h, Authorized(code, e.session));
      }
    }

    method TakeRefresh(h: nat)
      requires Valid() && h in flights && flights[h].RefreshRequested?
      modifies this, store`refresh
      ensures Valid() && View() == DoTakeRefresh(old(View()), h)
    {
      var token := flights[h].token;
      ghost var g', live := TakeRefreshHandsOver(Held(), at, View(), h);
      log := if token in store.refresh then log + [Popped(now, h, token)] else log;
      var s := store.PopRefresh(token, now);
      if s == None {
        flights := flights - {h};
        replies := replies[h := INVALID_GRANT];
      } else {
        flights := flights[h := Authorized(token, s.value)];
      }
      assert Held() == g';
    }

    /** `_issue_token_pair` overwrites the bound of the session object it was given, in place. */
    method MintPair(h: nat, access: string, refresh: string)
      requires Valid() && h in flights && flights[h].Authorized?
      modifies this, flights[h].session
      ensures Valid() && View() == DoMintPair(c, old(View()), h, access, refresh)
    {
      ghost var g, s := Held(), View();
      var Authorized(source, session) := flights[h];
      session.expiresAt := now + c.accessTtl as real;
      var next := new UserSession(session.who, now + c.refreshTtl as real);
      var f := PairMinted(access, session, refresh, next);
      ghost var at', log' := MintPairOverwrites(c, g, at, s, h, f);
      Resume(h, f, {access, refresh}, log', at');
      assert Held() == g.(flights := g.flights[h := f]);
    }

    /** The request goes on with a new pair; only the requests and the history change. */
    method Resume(h: nat, f: Flight<UserSession>, ghost tokens: set<string>, ghost log': seq<Event>, ghost at': Snapshot)
      modifies this`flights, this`minted, this`log, this`at
      ensures flights == old(flights)[h := f] && minted == old(minted) + tokens && log == log' && at == at'
    {
      minted, log, flights, at := minted + tokens, log', flights[h := f], at';
    }

    method StoreAccess(h: nat)
      requires Valid() && h in flights && flights[h].PairMinted?
      modifies this, store`sessions
      ensures Valid() && View() == DoStoreAccess(old(View()), h)
    {
      var PairMinted(access, session, refresh, next) := flights[h];
      var f := AccessStored(access, refresh, next);
      SessionsMove(store.sessions, access, session, at);
      FlightsMove(flights, h, f, at);
      MoveKeepsSole(Held(), Held().(sessions := store.sessions[access := session], flights := flights[h := f]),
                    Hand(h), SessionEntry(access), at);
      store.PutSession(access, session);
      flights := flights[h := f];
    }

    method StoreRefresh(h: nat)
      requires Valid() && h in flights && flights[h].AccessStored?
      modifies this, store`refresh
      ensures Valid() && View() == DoStoreRefresh(c, old(View()), h)
    {
      var AccessStored(access, refresh, next) := flights[h];
      SessionsMove(store.refresh, refresh, next, at);
      FlightsMove(flights, h, flights[h], at);
      MoveKeepsSole(Held(), Held().(refresh := store.refresh[refresh := next], flights := flights - {h}),
                    SecondHand(h), RefreshEntry(refresh), at);
      store.PutRefresh(refresh, next);
      flights, replies := flights - {h}, replies[h := Pair(access, refresh, c.accessTtl)];
    }

    /** A lookup lends its caller the object it keeps; the callers only read it. */
    method Lookup(token: string) returns (s: Option<UserSession>)
      requires Valid()
      modifies this, store`sessions
      ensures Valid() && View() == DoLookup(old(View()), token)
      ensures old(View()).store.GetSession(token, now).1 == if s.Some? then Some(s.value.Value()) else None
    {
      LookupLends(Held(), at, View(), token);
      s := store.GetSession(token, now);
      if s.Some? {
        log := log + [Accepted(now, token, s.value.Value())];
      }
    }

    method Revoke(token: string)
      requires Valid()
      modifies this, store`sessions
      ensures Valid() && View() == DoRevoke(old(View()), token)
    {
      SessionsDrop(store.sessions, {token}, at);
      DroppingKeepsSole(Held(), Held().(sessions := store.sessions - {token}), at);
      store.DeleteSession(token);
      log := log + [Revoked(now, token)];
      Open(RevokePurging(now));
    }

    method RevokePurge(h: nat)
      requires Valid() && h in flights && flights[h].RevokePurging?
      modifies this, store`sessions
      ensures Valid() && View() == DoRevokePurge(c, old(View()), h)
    {
      RevokePurgeDrops(c, Held(), at, View(), h);
      var purged := store.PurgeExpiredSessions(flights[h].purgeAt, now);
      flights, replies := flights - {h}, replies[h := Accomplished];
    }

    method StartRegister(ip: string)
      requires Valid()
      modifies this, store`rate
      ensures Valid() && View() == DoStartRegister(c, old(View()), ip)
    {
      var ok := CheckRateLimit(nextId, ip, "register", c.registerPerMinute, 60);
      if ok {
        Open(RegisterAdmitted);
      } else {
        Refuse(TOO_MANY);
      }
    }

    /** The loop over a registration's URIs. */
    method CheckSchemes(uris: seq<string>) returns (d: Decision)
      ensures d == SchemeDecision(c, uris)
    {
      for i := 0 to |uris|
        invariant SchemeDecision(c, uris[i..]) == SchemeDecision(c, uris)
      {
        match c.parse(uris[i]) {
          case None => return Crash;
          case Some(u) =>
            if !WebScheme(u) {
              return No;
            }
        }
      }
      return Yes;
    }

    method RegisterMint(h: nat, uris: Option<seq<string>>, clientId: string)
      requires Valid() && h in flights && flights[h].RegisterAdmitted?
      modifies this
      ensures Valid() && View() == DoRegisterMint(c, old(View()), h, uris, clientId)
    {
      if uris == None {
        Finish(h, Error(400, "invalid_redirect_uri"));
        return;
      }
      var d := CheckSchemes(uris.value);
      match d {
        case Crash => Finish(h, SERVER_ERROR);
        case No => Finish(h, Error(400, "invalid_redirect_uri"));
        case Yes =>
          minted := minted + {clientId};
          Move(h, RegisterMinted(clientId, Client(uris.value, now.Floor)));
      }
    }

    method RegisterStore(h: nat)
      requires Valid() && h in flights && flights[h].RegisterMinted?
      modifies this, store`clients
      ensures Valid() && View() == DoRegisterStore(old(View()), h)
    {
      var RegisterMinted(clientId, client) := flights[h];
      store.PutClient(clientId, client);
      log := log + [Registered(now, h, clientId, client.redirectUris)];
      Finish(h, ClientCreated(clientId));
    }

    /** What the requests and the store hold for real is what the state says. */
    lemma ViewIsReal()
      requires Valid()
      ensures View().store == store.View()
    {
      var g := Held();
      forall t | t in store.sessions ensures store.sessions[t] in at { assert g.At(SessionEntry(t)) == Some(g.sessions[t]); }
      forall t | t in store.codes ensures store.codes[t].session in at { assert g.At(CodeEntryOf(t)) == Some(g.codes[t].session); }
      forall t | t in store.refresh ensures store.refresh[t] in at { assert g.At(RefreshEntry(t)) == Some(g.refresh[t]); }
    }

    method LoginStep(a: Action)
      requires Valid() && Enabled(c, View(), a)
      requires OfLogin(a)
      modifies this, store
      ensures Valid() && View() == Apply(c, old(View()), a)
    {
      match a {
        case StartLogin(ip, form) => StartLogin(ip, form);
        case LoginHour(h, csrfOk) => LoginHour(h, csrfOk);
        case LoginRedirect(h) => LoginRedirect(h);
        case LoginValidate(h, found) => LoginValidate(h, found);
        case LoginPurge(h) => LoginPurge(h);
        case LoginMint(h, code) => LoginMint(h, code);
        case LoginStore(h) => LoginStore(h);
      }
    }

    method GrantStep(a: Action)
      requires Valid() && Enabled(c, View(), a)
      requires OfGrant(a)
      modifies this, store, at.Keys
      ensures Valid() && View() == Apply(c, old(View()), a)
    {
      match a {
        case StartToken(ip, asked) => StartToken(ip, asked);
        case TakeCode(h) => TakeCode(h);
        case CheckCode(h) => CheckCode(h);
        case TakeRefresh(h) => TakeRefresh(h);
        case MintPair(h, access, refresh) =>
          assert Held().At(Hand(h)) == Some(flights[h].session);
          MintPair(h, access, refresh);
        case StoreAccess(h) => StoreAccess(h);
        case StoreRefresh(h) => StoreRefresh(h);
      }
    }

    method RegistrationStep(a: Action)
      requires Valid() && Enabled(c, View(), a)
      requires OfRegistration(a)
      modifies this, store
      ensures Valid() && View() == Apply(c, old(View()), a)
    {
      match a {
        case StartRegister(ip) => StartRegister(ip);
        case RegisterMint(h, uris, clientId) => RegisterMint(h, uris, clientId);
        case RegisterStore(h) => RegisterStore(h);
      }
    }

    method OtherStep(a: Action)
      requires Valid() && Enabled(c, View(), a)
      requires !OfLogin(a) && !OfGrant(a) && !OfRegistration(a)
      modifies this, store
      ensures Valid() && View() == Apply(c, old(View()), a)
    {
      match a {
        case Tick(later, gone) =>
          assert Drop(View().store, NOTHING_GONE) == View().store;
          Tick(later);
        case Lookup(token) => var found := Lookup(token);
        case Revoke(token) => Revoke(token);
        case RevokePurge(h) => RevokePurge(h);
      }
    }

    /** Every history of this object is a run: whatever is proved of all runs holds of it. */
    method Step(a: Action, ghost run: seq<State>) returns (ghost run': seq<State>)
      requires Valid() && Run(c, run) && run[|run| - 1] == View()
      requires Enabled(c, View(), a)
      modifies this, store, at.Keys
      ensures Valid() && Run(c, run') && run' == run + [View()]
      ensures View() == Apply(c, old(View()), a)
    {
      if OfLogin(a) {
        LoginStep(a);
      } else if OfGrant(a) {
        GrantStep(a);
      } else if OfRegistration(a) {
        RegistrationStep(a);
      } else {
        OtherStep(a);
      }
      RunExtends(c, run, a);
      run' := run + [View()];
    }
  }
}
