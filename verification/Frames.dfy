/** What each step may touch: one request, at most one event, and the parts of the store it works on. */
module Frames {
  import opened Prelude
  import opened Sessions
  import opened TokenStore
  import opened Grants

  /** The request that a step moves; a step that opens a request moves the next number. */
  function Mover(s: State, a: Action): nat {
    match a
    case LoginHour(h, _) => h
    case LoginRedirect(h) => h
    case LoginValidate(h, _) => h
    case LoginPurge(h) => h
    case LoginMint(h, _) => h
    case LoginStore(h) => h
    case TakeCode(h) => h
    case CheckCode(h) => h
    case TakeRefresh(h) => h
    case MintPair(h, _, _) => h
    case StoreAccess(h) => h
    case StoreRefresh(h) => h
    case RevokePurge(h) => h
    case RegisterMint(h, _, _) => h
    case RegisterStore(h) => h
    case _ => s.nextId
  }

  predicate ChecksRate(a: Action) {
    a.StartLogin? || a.LoginHour? || a.StartToken? || a.StartRegister?
  }

  /** The kind of event a step may log. */
  predicate Logs(a: Action, e: Event) {
    match e
    case Checked(_, _) => ChecksRate(a)
    case RedirectAllowed(_, _, _, _) => a.LoginRedirect?
    case Purged(_, _, _) => a.LoginPurge?
    case LoggedIn(_, _, _, _, _) => a.LoginMint?
    case CodeStored(_, _, _) => a.LoginStore?
    case Popped(_, _, _) => a.TakeCode? || a.TakeRefresh?
    case Redeemed(_, _, _, _) => a.CheckCode?
    case Issued(_, _, _, _, _, _) => a.MintPair?
    case Accepted(_, _, _) => a.Lookup?
    case Revoked(_, _) => a.Revoke?
    case Registered(_, _, _, _) => a.RegisterStore?
  }

  /** Where a step may leave the request it moves. */
  predicate Enters<S>(a: Action, f: Flight<S>) {
    match f
    case LoginStarted(_, _) => a.StartLogin?
    case LoginAdmitted(_) => a.LoginHour?
    case LoginAllowed(_) => a.LoginRedirect?
    case LoginValidated(_, _, _) => a.LoginValidate?
    case LoginPurged(_, _) => a.LoginPurge?
    case LoginMinted(_, _) => a.LoginMint?
    case CodeRequested(_, _) => a.StartToken?
    case RefreshRequested(_) => a.StartToken?
    case CodeTaken(_, _, _) => a.TakeCode?
    case Authorized(_, _) => a.CheckCode? || a.TakeRefresh?
    case PairMinted(_, _, _, _) => a.MintPair?
    case AccessStored(_, _, _) => a.StoreAccess?
    case RevokePurging(_) => a.Revoke?
    case RegisterAdmitted => a.StartRegister?
    case RegisterMinted(_, _) => a.RegisterMint?
  }

  /** Requests other than `h` stay where they are. */
  ghost predicate OthersStay(s: State, s': State, h: nat) {
    && (forall k :: k in s'.flights && k != h ==> k in s.flights && s'.flights[k] == s.flights[k])
    && (forall k :: k in s.flights && k != h ==> k in s'.flights)
    && (forall k :: k in s'.replies && k != h ==> k in s.replies && s'.replies[k] == s.replies[k])
    && (forall k :: k in s.replies ==> k in s'.replies)
  }

  /** The moved request is either under way or answered, and it was there before or is the one opened. */
  ghost predicate MoverMoves(s: State, a: Action, s': State, h: nat) {
    && (h in s'.flights ==> Enters(a, s'.flights[h]) || (h in s.flights && s'.flights[h] == s.flights[h]))
    && (h !in s.replies && (h !in s.flights || h != s.nextId) ==> !(h in s'.flights && h in s'.replies))
    && (h in s'.flights || h in s'.replies ==> h in s.flights || h in s.replies || h < s'.nextId)
  }

  ghost predicate Framed(s: State, a: Action, s': State) {
    && s.log <= s'.log && |s'.log| <= |s.log| + 1
    && (|s'.log| > |s.log| ==> Logs(a, s'.log[|s.log|]))
    && s.now <= s'.now && (!a.Tick? ==> s'.now == s.now)
    && s.nextId <= s'.nextId && s.minted <= s'.minted
    && OthersStay(s, s', Mover(s, a))
    && MoverMoves(s, a, s', Mover(s, a))
    && (!a.Tick? && !a.RegisterStore? ==> s'.store.clients == s.store.clients)
    && (!ChecksRate(a) ==> s'.store.rate == s.store.rate)
    && (!a.LoginStore? ==> Submap(s'.store.codes, s.store.codes))
    && (!a.StoreAccess? ==> Submap(s'.store.sessions, s.store.sessions))
    && (!a.LoginStore? && !a.LoginPurge? && !a.TakeCode? && !a.Tick? ==> s'.store.codes == s.store.codes)
    && (!a.StoreAccess? && !a.Lookup? && !a.Revoke? && !a.RevokePurge? && !a.Tick? ==> s'.store.sessions == s.store.sessions)
    && (!a.TakeRefresh? && !a.StoreRefresh? && !a.Tick? ==> s'.store.refresh == s.store.refresh)
  }

  lemma FrameOfLoginHour(c: Config, s: State, h: nat, csrfOk: bool)
    requires s.At(h) && s.flights[h].LoginStarted?
    ensures Framed(s, LoginHour(h, csrfOk), DoLoginHour(c, s, h, csrfOk))
  {
  }

  lemma FrameOfLoginRedirect(c: Config, s: State, h: nat)
    requires s.At(h) && s.flights[h].LoginAdmitted?
    ensures Framed(s, LoginRedirect(h), DoLoginRedirect(c, s, h))
  {
  }

  lemma FrameOfLoginValidate(s: State, h: nat, found: Option<Identity>)
    requires s.At(h) && s.flights[h].LoginAllowed?
    ensures Framed(s, LoginValidate(h, found), DoLoginValidate(s, h, found))
  {
  }

  lemma FrameOfLoginPurge(c: Config, s: State, h: nat)
    requires s.At(h) && s.flights[h].LoginValidated?
    ensures Framed(s, LoginPurge(h), DoLoginPurge(c, s, h))
  {
  }

  lemma FrameOfLoginMint(c: Config, s: State, h: nat, code: string)
    requires s.At(h) && s.flights[h].LoginPurged?
    ensures Framed(s, LoginMint(h, code), DoLoginMint(c, s, h, code))
  {
  }

  lemma FrameOfLoginStore(s: State, h: nat)
    requires s.At(h) && s.flights[h].LoginMinted?
    ensures Framed(s, LoginStore(h), DoLoginStore(s, h))
  {
  }

  lemma FrameOfStartLogin(c: Config, s: State, ip: string, form: LoginForm)
    ensures Framed(s, StartLogin(ip, form), DoStartLogin(c, s, ip, form))
  {
  }

  lemma FrameOfStartRegister(c: Config, s: State, ip: string)
    ensures Framed(s, StartRegister(ip), DoStartRegister(c, s, ip))
  {
  }

  /** The rate check of a token request, and then any way of opening or refusing it. */
  lemma FrameOfOpening(c: Config, s: State, ip: string, asked: TokenRequest, f: Flight<Session>)
    requires Enters(StartToken(ip, asked), f)
    ensures Framed(s, StartToken(ip, asked), RateCheck(s, s.nextId, ip, "token", c.tokenPerMinute, 60).0.Open(f))
  {
  }

  lemma FrameOfRefusal(c: Config, s: State, ip: string, asked: TokenRequest, r: Reply)
    ensures Framed(s, StartToken(ip, asked), RateCheck(s, s.nextId, ip, "token", c.tokenPerMinute, 60).0.Refuse(r))
  {
  }

  lemma FrameOfStartToken(c: Config, s: State, ip: string, asked: TokenRequest)
    ensures Framed(s, StartToken(ip, asked), DoStartToken(c, s, ip, asked))
  {
    if !RateCheck(s, s.nextId, ip, "token", c.tokenPerMinute, 60).1 {
      FrameOfRefusal(c, s, ip, asked, TOO_MANY);
    } else if asked.grantType == "authorization_code" {
      if OrEmpty(asked.code) == "" {
        FrameOfRefusal(c, s, ip, asked, INVALID_GRANT);
      } else {
        FrameOfOpening(c, s, ip, asked, CodeRequested(asked.code.value, asked));
      }
    } else if asked.grantType == "refresh_token" {
      if OrEmpty(asked.refreshToken) == "" {
        FrameOfRefusal(c, s, ip, asked, INVALID_REQUEST);
      } else {
        FrameOfOpening(c, s, ip, asked, RefreshRequested(asked.refreshToken.value));
      }
    } else {
      FrameOfRefusal(c, s, ip, asked, Error(400, "unsupported_grant_type"));
    }
  }

  lemma FrameOfTakeCode(s: State, h: nat)
    requires s.At(h) && s.flights[h].CodeRequested?
    ensures Framed(s, TakeCode(h), DoTakeCode(s, h))
  {
  }

  lemma FrameOfCheckCode(c: Config, s: State, h: nat)
    requires s.At(h) && s.flights[h].CodeTaken?
    ensures Framed(s, CheckCode(h), DoCheckCode(c, s, h))
  {
  }

  lemma FrameOfTakeRefresh(s: State, h: nat)
    requires s.At(h) && s.flights[h].RefreshRequested?
    ensures Framed(s, TakeRefresh(h), DoTakeRefresh(s, h))
  {
  }

  lemma FrameOfMintPair(c: Config, s: State, h: nat, access: string, refresh: string)
    requires s.At(h) && s.flights[h].Authorized?
    ensures Framed(s, MintPair(h, access, refresh), DoMintPair(c, s, h, access, refresh))
  {
  }

  lemma FrameOfStoreAccess(s: State, h: nat)
    requires s.At(h) && s.flights[h].PairMinted?
    ensures Framed(s, StoreAccess(h), DoStoreAccess(s, h))
  {
  }

  lemma FrameOfStoreRefresh(c: Config, s: State, h: nat)
    requires s.At(h) && s.flights[h].AccessStored?
    ensures Framed(s, StoreRefresh(h), DoStoreRefresh(c, s, h))
  {
  }

  lemma FrameOfRevokePurge(c: Config, s: State, h: nat)
    requires s.At(h) && s.flights[h].RevokePurging?
    ensures Framed(s, RevokePurge(h), DoRevokePurge(c, s, h))
  {
  }

  lemma FrameOfRegisterMint(c: Config, s: State, h: nat, uris: Option<seq<string>>, clientId: string)
    requires s.At(h) && s.flights[h].RegisterAdmitted?
    ensures Framed(s, RegisterMint(h, uris, clientId), DoRegisterMint(c, s, h, uris, clientId))
  {
  }

  lemma FrameOfRegisterStore(s: State, h: nat)
    requires s.At(h) && s.flights[h].RegisterMinted?
    ensures Framed(s, RegisterStore(h), DoRegisterStore(s, h))
  {
  }

  lemma FrameOfTick(s: State, now: Instant, gone: Gone)
    requires s.now <= now
    ensures Framed(s, Tick(now, gone), s.(now := now, store := Drop(s.store, gone)))
  {
  }

  lemma FrameOfLookup(s: State, token: string)
    ensures Framed(s, Lookup(token), DoLookup(s, token))
  {
  }

  lemma FrameOfRevoke(s: State, token: string)
    ensures Framed(s, Revoke(token), DoRevoke(s, token))
  {
  }

  predicate OfLogin(a: Action) {
    a.StartLogin? || a.LoginHour? || a.LoginRedirect? || a.LoginValidate? || a.LoginPurge? || a.LoginMint? || a.LoginStore?
  }

  predicate OfGrant(a: Action) {
    a.StartToken? || a.TakeCode? || a.CheckCode? || a.TakeRefresh? || a.MintPair? || a.StoreAccess? || a.StoreRefresh?
  }

  predicate OfRegistration(a: Action) {
    a.StartRegister? || a.RegisterMint? || a.RegisterStore?
  }

  lemma LoginStepFrame(c: Config, s: State, a: Action)
    requires Enabled(c, s, a) && OfLogin(a)
    ensures Framed(s, a, Apply(c, s, a))
  {
    match a
    case StartLogin(ip, form) => FrameOfStartLogin(c, s, ip, form);
    case LoginHour(h, csrfOk) => FrameOfLoginHour(c, s, h, csrfOk);
    case LoginRedirect(h) => FrameOfLoginRedirect(c, s, h);
    case LoginValidate(h, found) => FrameOfLoginValidate(s, h, found);
    case LoginPurge(h) => FrameOfLoginPurge(c, s, h);
    case LoginMint(h, code) => FrameOfLoginMint(c, s, h, code);
    case LoginStore(h) => FrameOfLoginStore(s, h);
  }

  lemma GrantStepFrame(c: Config, s: State, a: Action)
    requires Enabled(c, s, a) && OfGrant(a)
    ensures Framed(s, a, Apply(c, s, a))
  {
    match a
    case StartToken(ip, asked) => FrameOfStartToken(c, s, ip, asked);
    case TakeCode(h) => FrameOfTakeCode(s, h);
    case CheckCode(h) => FrameOfCheckCode(c, s, h);
    case TakeRefresh(h) => FrameOfTakeRefresh(s, h);
    case MintPair(h, access, refresh) => FrameOfMintPair(c, s, h, access, refresh);
    case StoreAccess(h) => FrameOfStoreAccess(s, h);
    case StoreRefresh(h) => FrameOfStoreRefresh(c, s, h);
  }

  lemma OtherStepFrame(c: Config, s: State, a: Action)
    requires Enabled(c, s, a) && !OfLogin(a) && !OfGrant(a)
    ensures Framed(s, a, Apply(c, s, a))
  {
    match a
    case Tick(now, gone) => FrameOfTick(s, now, gone);
    case Lookup(token) => FrameOfLookup(s, token);
    case Revoke(token) => FrameOfRevoke(s, token);
    case RevokePurge(h) => FrameOfRevokePurge(c, s, h);
    case StartRegister(ip) => FrameOfStartRegister(c, s, ip);
    case RegisterMint(h, uris, clientId) => FrameOfRegisterMint(c, s, h, uris, clientId);
    case RegisterStore(h) => FrameOfRegisterStore(s, h);
  }

  lemma StepFrame(c: Config, s: State, a: Action)
    requires Enabled(c, s, a)
    ensures Framed(s, a, Apply(c, s, a))
  {
    if OfLogin(a) {
      LoginStepFrame(c, s, a);
    } else if OfGrant(a) {
      GrantStepFrame(c, s, a);
    } else {
      OtherStepFrame(c, s, a);
    }
  }

  lemma LogGrowsByOne(c: Config, s: State, a: Action)
    requires Enabled(c, s, a)
    ensures s.log <= Apply(c, s, a).log && |Apply(c, s, a).log| <= |s.log| + 1
  {
    StepFrame(c, s, a);
  }

  /** Along a run the log only grows, by one event at most. */
  lemma LogGrows(c: Config, run: seq<State>, n: nat)
    requires Run(c, run) && 0 < n < |run|
    ensures run[n - 1].log <= run[n].log && |run[n].log| <= |run[n - 1].log| + 1
  {
    var a := LastAction(c, run, n);
    StepFrame(c, run[n - 1], a);
  }

  /** The action that logged the last event. */
  lemma ActionThatLogged(c: Config, run: seq<State>, n: nat) returns (a: Action)
    requires Run(c, run) && 0 < n < |run| && |run[n].log| > |run[n - 1].log|
    ensures Enabled(c, run[n - 1], a) && run[n] == Apply(c, run[n - 1], a)
    ensures Logs(a, run[n].log[|run[n - 1].log|])
  {
    a := LastAction(c, run, n);
    StepFrame(c, run[n - 1], a);
  }

  /** The reading that a request took for its purge lies in the past. */
  ghost predicate ReadingsPast(s: State) {
    forall h :: h in s.flights && (s.flights[h].LoginValidated? || s.flights[h].RevokePurging?) ==> s.flights[h].purgeAt <= s.now
  }

  lemma FrameKeepsReadings(s: State, a: Action, s': State)
    requires ReadingsPast(s) && Framed(s, a, s') && !a.LoginValidate? && !a.Revoke?
    ensures ReadingsPast(s')
  {
  }

  lemma StepKeepsReadings(c: Config, s: State, a: Action)
    requires ReadingsPast(s) && Enabled(c, s, a)
    ensures ReadingsPast(Apply(c, s, a))
  {
    if a.LoginValidate? {
      assert Apply(c, s, a) == DoLoginValidate(s, a.h, a.found);
    } else if a.Revoke? {
      assert Apply(c, s, a) == DoRevoke(s, a.token);
    } else {
      StepFrame(c, s, a);
      FrameKeepsReadings(s, a, Apply(c, s, a));
    }
  }

  lemma {:induction false} RunReadingsPast(c: Config, run: seq<State>, n: nat)
    requires Run(c, run) && n < |run|
    ensures ReadingsPast(run[n])
  {
    if n > 0 {
      RunReadingsPast(c, run, n - 1);
      var a := LastAction(c, run, n);
      StepKeepsReadings(c, run[n - 1], a);
    }
  }
}
