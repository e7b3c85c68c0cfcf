/** auth/routes.py:283-288 in whole runs: the counters in the store are the ones RateLimiter.dfy reasons
    about, so its bounds hold for logins under every interleaving with every other request. */
module LoginLimit {
  import opened Prelude
  import opened TokenStore
  import opened RedisKeys
  import opened Grants
  import opened Frames
  import opened RateLimiter
  import Lineage
  import LI = LineageInvariant

  /** The rate checks of a run, in order. */
  function Hits(log: seq<Event>): seq<Hit> {
    if log == [] then [] else
      var init := Hits(log[..|log| - 1]);
      if log[|log| - 1].Checked? then init + [log[|log| - 1].hit] else init
  }

  lemma HitsAppend(log: seq<Event>, e: Event)
    ensures Hits(log + [e]) == if e.Checked? then Hits(log) + [e.hit] else Hits(log)
    ensures e.Checked? ==>
              After(Hits(log + [e])) == After(Hits(log))[e.hit.key := Bump(RateAt(After(Hits(log)), e.hit.key), e.hit.seconds, e.hit.at)]
  {
    assert (log + [e])[..|log|] == log;
    if e.Checked? {
      assert (Hits(log) + [e.hit])[..|Hits(log)|] == Hits(log);
    }
  }

  function LimitFor(c: Config, name: string, seconds: nat): nat {
    if name == "login" then (if seconds == 60 then c.loginPerMinute else c.loginPerHour)
    else if name == "token" then c.tokenPerMinute
    else c.registerPerMinute
  }

  /** A check uses a key made of a colon-free endpoint name, and the limit of that endpoint. */
  ghost predicate Shaped(c: Config, hit: Hit, limit: nat) {
    exists name, ip :: ':' !in name && hit.key == RateKey(name, hit.seconds, ip) && limit == LimitFor(c, name, hit.seconds)
  }

  ghost predicate ChecksOk(c: Config, log: seq<Event>, now: real) {
    && (forall i :: 0 <= i < |log| && log[i].Checked? ==> 0.0 < log[i].hit.at <= now && Shaped(c, log[i].hit, log[i].limit))
    && (forall i, j :: 0 <= i < j < |log| && log[i].Checked? && log[j].Checked? ==> log[i].hit.at <= log[j].hit.at)
  }

  predicate RefusedAt(log: seq<Event>, i: nat)
    requires i < |log| && log[i].Checked?
  {
    RateAt(After(Hits(log[..i + 1])), log[i].hit.key).count > log[i].limit
  }

  /** The counters are those of the logged checks. */
  ghost predicate Counted(c: Config, s: State) {
    0.0 < s.now && s.store.rate == After(Hits(s.log)) && ChecksOk(c, s.log, s.now)
  }

  /** A refused request is over: it has not logged in and will not. */
  ghost predicate RefusedAreOver(s: State) {
    && (forall i :: 0 <= i < |s.log| && s.log[i].Checked? && RefusedAt(s.log, i) ==> Over(s, s.log[i].hit.request))
    && (forall j :: 0 <= j < |s.log| && s.log[j].LoggedIn? ==> MintedOrDone(s, s.log[j].request))
  }

  ghost predicate Over(s: State, h: nat) {
    h !in s.flights && h < s.nextId && !HasLoggedIn(s.log, h)
  }

  ghost predicate HasLoggedIn(log: seq<Event>, h: nat) {
    exists j :: 0 <= j < |log| && log[j].LoggedIn? && log[j].request == h
  }

  ghost predicate MintedOrDone(s: State, h: nat) {
    h < s.nextId && (h in s.flights ==> s.flights[h].LoginMinted?)
  }

  /** The check that a step makes. */
  function CheckOf(c: Config, s: State, a: Action): Event
    requires ChecksRate(a) && (a.LoginHour? ==> s.At(a.h) && s.flights[a.h].LoginStarted?)
  {
    match a
    case StartLogin(ip, _) => Checked(Hit(s.now, s.nextId, RateKey("login", 60, ip), 60), c.loginPerMinute)
    case LoginHour(h, _) => Checked(Hit(s.now, h, RateKey("login", 3600, s.flights[h].ip), 3600), c.loginPerHour)
    case StartToken(ip, _) => Checked(Hit(s.now, s.nextId, RateKey("token", 60, ip), 60), c.tokenPerMinute)
    case StartRegister(ip) => Checked(Hit(s.now, s.nextId, RateKey("register", 60, ip), 60), c.registerPerMinute)
  }

  lemma CheckIsShaped(c: Config, s: State, a: Action)
    requires ChecksRate(a) && Enabled(c, s, a)
    ensures Shaped(c, CheckOf(c, s, a).hit, CheckOf(c, s, a).limit)
  {
    match a
    case StartLogin(ip, _) => assert LimitFor(c, "login", 60) == c.loginPerMinute && ':' !in "login";
    case LoginHour(h, _) => assert LimitFor(c, "login", 3600) == c.loginPerHour && ':' !in "login";
    case StartToken(ip, _) => assert LimitFor(c, "token", 60) == c.tokenPerMinute && ':' !in "token";
    case StartRegister(ip) => assert LimitFor(c, "register", 60) == c.registerPerMinute && ':' !in "register";
  }

  /** A checking step bumps its counter, logs the check, and ends the request if the count is too high. */
  predicate MakesCheck(s: State, e: Event, h: nat, s': State) {
    && e.Checked? && e.hit.request == h && e.hit.at == s.now
    && s'.log == s.log + [e]
    && s'.store.rate == s.store.rate[e.hit.key := Bump(RateAt(s.store.rate, e.hit.key), e.hit.seconds, s.now)]
    && (s'.store.rate[e.hit.key].count > e.limit ==>
          && (h in s'.flights ==> h == s.nextId && h in s.flights)
          && (h in s.flights || h < s'.nextId))
  }

  lemma StartLoginChecks(c: Config, s: State, ip: string, form: LoginForm)
    ensures MakesCheck(s, CheckOf(c, s, StartLogin(ip, form)), s.nextId, DoStartLogin(c, s, ip, form))
  {
  }

  lemma LoginHourChecks(c: Config, s: State, h: nat, csrfOk: bool)
    requires Enabled(c, s, LoginHour(h, csrfOk))
    ensures MakesCheck(s, CheckOf(c, s, LoginHour(h, csrfOk)), h, DoLoginHour(c, s, h, csrfOk))
  {
  }

  lemma StartTokenChecks(c: Config, s: State, ip: string, asked: TokenRequest)
    ensures MakesCheck(s, CheckOf(c, s, StartToken(ip, asked)), s.nextId, DoStartToken(c, s, ip, asked))
  {
  }

  lemma StartRegisterChecks(c: Config, s: State, ip: string)
    ensures MakesCheck(s, CheckOf(c, s, StartRegister(ip)), s.nextId, DoStartRegister(c, s, ip))
  {
  }

  lemma StepChecks(c: Config, s: State, a: Action)
    requires ChecksRate(a) && Enabled(c, s, a)
    ensures MakesCheck(s, CheckOf(c, s, a), Mover(s, a), Apply(c, s, a))
  {
    match a
    case StartLogin(ip, form) => StartLoginChecks(c, s, ip, form);
    case LoginHour(h, csrfOk) => LoginHourChecks(c, s, h, csrfOk);
    case StartToken(ip, asked) => StartTokenChecks(c, s, ip, asked);
    case StartRegister(ip) => StartRegisterChecks(c, s, ip);
  }

  lemma RefusedAtPrefix(log: seq<Event>, log': seq<Event>, i: nat)
    requires log <= log' && i < |log| && log[i].Checked?
    ensures RefusedAt(log', i) <==> RefusedAt(log, i)
  {
    assert log'[..i + 1] == log[..i + 1];
  }

  lemma CheckingKeepsCounted(c: Config, s: State, a: Action)
    requires Counted(c, s) && Enabled(c, s, a) && ChecksRate(a)
    ensures Counted(c, Apply(c, s, a))
  {
    var e := CheckOf(c, s, a);
    StepChecks(c, s, a);
    StepFrame(c, s, a);
    CheckIsShaped(c, s, a);
    HitsAppend(s.log, e);
  }

  lemma FrameKeepsCounted(c: Config, s: State, s': State)
    requires Counted(c, s) && s'.store.rate == s.store.rate && s.now <= s'.now
    requires s.log <= s'.log && |s'.log| <= |s.log| + 1 && (|s'.log| > |s.log| ==> !s'.log[|s.log|].Checked?)
    ensures Counted(c, s')
  {
    if s'.log != s.log {
      assert s'.log == s.log + [s'.log[|s.log|]];
      HitsAppend(s.log, s'.log[|s.log|]);
    }
  }

  lemma StepKeepsCounted(c: Config, s: State, a: Action)
    requires Counted(c, s) && Enabled(c, s, a)
    ensures Counted(c, Apply(c, s, a))
  {
    if ChecksRate(a) {
      CheckingKeepsCounted(c, s, a);
    } else {
      StepFrame(c, s, a);
      FrameKeepsCounted(c, s, Apply(c, s, a));
    }
  }

  /** Only a minting step logs a login, in the name of the request it moves. */
  lemma LoginMintLogs(c: Config, s: State, a: Action)
    requires Enabled(c, s, a)
    ensures var s' := Apply(c, s, a);
            |s'.log| > |s.log| && s'.log[|s.log|].LoggedIn? ==>
              a.LoginMint? && s'.log[|s.log|].request == a.h && a.h in s'.flights && s'.flights[a.h].LoginMinted?
  {
    StepFrame(c, s, a);
    if a.LoginMint? {
      assert Apply(c, s, a) == DoLoginMint(c, s, a.h, a.code);
    }
  }

  lemma LoggedInStays(c: Config, s: State, a: Action, s': State, h: nat)
    requires Lineage.Named(s) && Enabled(c, s, a) && Framed(s, a, s') && MintedOrDone(s, h)
    ensures MintedOrDone(s', h)
  {
  }

  lemma LoggedInAppend(log: seq<Event>, e: Event, h: nat)
    ensures HasLoggedIn(log + [e], h) <==> HasLoggedIn(log, h) || (e.LoggedIn? && e.request == h)
  {
    var log' := log + [e];
    if HasLoggedIn(log, h) {
      var j :| 0 <= j < |log| && log[j].LoggedIn? && log[j].request == h;
      assert log'[j] == log[j];
    }
    assert log'[|log|] == e;
  }

  lemma OverStays(c: Config, s: State, a: Action, h: nat)
    requires Lineage.Named(s) && Enabled(c, s, a) && Framed(s, a, Apply(c, s, a)) && Over(s, h)
    ensures Over(Apply(c, s, a), h)
  {
    var s' := Apply(c, s, a);
    LoginMintLogs(c, s, a);
    if s'.log != s.log {
      assert s'.log == s.log + [s'.log[|s.log|]];
      LoggedInAppend(s.log, s'.log[|s.log|], h);
    }
  }

  /** A request that makes a check is not one that has logged in. */
  lemma CheckingPrecedesLogin(c: Config, s: State, a: Action)
    requires Lineage.Named(s) && RefusedAreOver(s) && Enabled(c, s, a) && ChecksRate(a)
    ensures !HasLoggedIn(s.log, Mover(s, a))
  {
  }

  /** The request of a refused check is answered at once. */
  lemma NewRefusalIsOver(s: State, e: Event, h: nat, s': State)
    requires Lineage.Named(s) && s.store.rate == After(Hits(s.log)) && MakesCheck(s, e, h, s')
    requires RefusedAt(s'.log, |s.log|) && !HasLoggedIn(s.log, h) && h < s'.nextId
    ensures Over(s', h)
  {
    HitsAppend(s.log, e);
    LoggedInAppend(s.log, e, h);
    assert s'.log[..|s.log| + 1] == s'.log;
  }

  lemma OldRefusalStaysOver(c: Config, s: State, a: Action, i: nat)
    requires Lineage.Named(s) && RefusedAreOver(s) && Enabled(c, s, a) && Framed(s, a, Apply(c, s, a))
    requires i < |s.log| && s.log[i].Checked? && RefusedAt(Apply(c, s, a).log, i)
    ensures Over(Apply(c, s, a), s.log[i].hit.request)
  {
    RefusedAtPrefix(s.log, Apply(c, s, a).log, i);
    OverStays(c, s, a, s.log[i].hit.request);
  }

  lemma FreshRefusalIsOver(c: Config, s: State, a: Action)
    requires Lineage.Named(s) && s.store.rate == After(Hits(s.log)) && RefusedAreOver(s) && Enabled(c, s, a) && ChecksRate(a)
    ensures var s', e := Apply(c, s, a), CheckOf(c, s, a);
            s'.log == s.log + [e] && (RefusedAt(s'.log, |s.log|) ==> Over(s', e.hit.request))
  {
    StepChecks(c, s, a);
    CheckingPrecedesLogin(c, s, a);
    if RefusedAt(Apply(c, s, a).log, |s.log|) {
      NewRefusalIsOver(s, CheckOf(c, s, a), Mover(s, a), Apply(c, s, a));
    }
  }

  lemma StepKeepsRefusedOver(c: Config, s: State, a: Action)
    requires Lineage.Named(s) && s.store.rate == After(Hits(s.log)) && RefusedAreOver(s) && Enabled(c, s, a)
    ensures var s' := Apply(c, s, a);
            forall i :: 0 <= i < |s'.log| && s'.log[i].Checked? && RefusedAt(s'.log, i) ==> Over(s', s'.log[i].hit.request)
  {
    var s' := Apply(c, s, a);
    StepFrame(c, s, a);
    if ChecksRate(a) {
      FreshRefusalIsOver(c, s, a);
    }
    forall i | 0 <= i < |s'.log| && s'.log[i].Checked? && RefusedAt(s'.log, i)
      ensures Over(s', s'.log[i].hit.request)
    {
      if i < |s.log| {
        assert s'.log[i] == s.log[i];
        OldRefusalStaysOver(c, s, a, i);
      }
    }
  }

  lemma StepKeepsRefused(c: Config, s: State, a: Action)
    requires Lineage.Named(s) && Counted(c, s) && RefusedAreOver(s) && Enabled(c, s, a)
    ensures RefusedAreOver(Apply(c, s, a))
  {
    StepKeepsRefusedOver(c, s, a);
    StepKeepsMinted(c, s, a);
  }

  lemma StepKeepsMinted(c: Config, s: State, a: Action)
    requires Lineage.Named(s) && RefusedAreOver(s) && Enabled(c, s, a)
    ensures var s' := Apply(c, s, a);
            forall j :: 0 <= j < |s'.log| && s'.log[j].LoggedIn? ==> MintedOrDone(s', s'.log[j].request)
  {
    StepFrame(c, s, a);
    LoginMintLogs(c, s, a);
    FrameKeepsMinted(c, s, a, Apply(c, s, a));
  }

  lemma FrameKeepsMinted(c: Config, s: State, a: Action, s': State)
    requires Lineage.Named(s) && RefusedAreOver(s) && Enabled(c, s, a) && Framed(s, a, s')
    requires |s'.log| > |s.log| && s'.log[|s.log|].LoggedIn? ==>
               var h := s'.log[|s.log|].request;
               h in s.flights && h in s'.flights && s'.flights[h].LoginMinted?
    ensures forall j :: 0 <= j < |s'.log| && s'.log[j].LoggedIn? ==> MintedOrDone(s', s'.log[j].request)
  {
    forall j | 0 <= j < |s'.log| && s'.log[j].LoggedIn?
      ensures MintedOrDone(s', s'.log[j].request)
    {
      if j < |s.log| {
        assert s'.log[j] == s.log[j];
        LoggedInStays(c, s, a, s', s.log[j].request);
      }
    }
  }

  lemma {:induction false} RunCounted(c: Config, run: seq<State>, n: nat)
    requires Run(c, run) && n < |run|
    ensures Counted(c, run[n]) && RefusedAreOver(run[n])
  {
    if n > 0 {
      RunCounted(c, run, n - 1);
      LI.RunInv(c, run, n - 1);
      var a := LastAction(c, run, n);
      StepKeepsCounted(c, run[n - 1], a);
      StepKeepsRefused(c, run[n - 1], a);
    }
  }

  // --- the bound on logins ---------------------------------------------------------------------

  lemma {:induction false} HitsAreSteady(c: Config, log: seq<Event>, now: real, name: string, seconds: nat, ip: string)
    requires ChecksOk(c, log, now) && ':' !in name
    ensures Steady(Hits(log), RateKey(name, seconds, ip), seconds)
    ensures forall k :: 0 <= k < |Hits(log)| ==> Hits(log)[k].at <= now
  {
    if log != [] {
      var init, last := log[..|log| - 1], log[|log| - 1];
      if last.Checked? {
        HitsAreSteady(c, init, last.hit.at, name, seconds, ip);
        var n, i :| ':' !in n && last.hit.key == RateKey(n, last.hit.seconds, i) && last.limit == LimitFor(c, n, last.hit.seconds);
        RateKeyInjective(n, last.hit.seconds, i, name, seconds, ip);
      } else {
        HitsAreSteady(c, init, now, name, seconds, ip);
      }
    }
  }

  /** Request `h` made its check of this key at some time in [from, to). */
  ghost predicate CheckedIn(log: seq<Event>, h: nat, key: string, from: real, to: real) {
    exists i :: 0 <= i < |log| && IsCheck(log[i], h, key) && from <= log[i].hit.at < to
  }

  predicate IsCheck(e: Event, h: nat, key: string) {
    e.Checked? && e.hit.request == h && e.hit.key == key
  }

  /** The requests from `ip` that logged in and made the check of one layer in [from, to). */
  ghost function LoginsChecked(log: seq<Event>, seconds: nat, ip: string, from: real, to: real): set<nat> {
    set i | 0 <= i < |log| && log[i].LoggedIn? && CheckedIn(log, log[i].request, RateKey("login", seconds, ip), from, to)
          :: log[i].request
  }

  lemma {:induction false} AdmittedIsIn(log: seq<Event>, i: nat, limit: nat, from: real, to: real)
    requires i < |log| && log[i].Checked? && log[i].limit == limit && !RefusedAt(log, i)
    requires from <= log[i].hit.at < to
    ensures log[i].hit.request in AdmittedBy(Hits(log), log[i].hit.key, limit, from, to)
  {
    var init, last := log[..|log| - 1], log[|log| - 1];
    assert log == init + [last];
    HitsAppend(init, last);
    if i == |log| - 1 {
      assert log[..i + 1] == log;
    } else {
      assert init[i] == log[i];
      RefusedAtPrefix(init, log, i);
      AdmittedIsIn(init, i, limit, from, to);
      if last.Checked? {
        assert Hits(log)[..|Hits(log)| - 1] == Hits(init);
      }
    }
  }

  /** The check at position `i` let a login attempt from `ip` through one layer, in [from, to). */
  predicate LetsThrough(log: seq<Event>, i: nat, seconds: nat, ip: string, from: real, to: real)
    requires i < |log|
  {
    && log[i].Checked? && log[i].hit.key == RateKey("login", seconds, ip) && from <= log[i].hit.at < to
    && !RefusedAt(log, i)
  }

  /** The login attempts from `ip` that one layer let through in [from, to), whatever became of them. */
  function Through(log: seq<Event>, seconds: nat, ip: string, from: real, to: real): set<nat> {
    set i: nat | i < |log| && LetsThrough(log, i, seconds, ip, from, to) :: log[i].hit.request
  }

  lemma LetThroughIsAdmitted(c: Config, s: State, i: nat, seconds: nat, ip: string, from: real, to: real)
    requires Counted(c, s) && i < |s.log| && LetsThrough(s.log, i, seconds, ip, from, to)
    ensures s.log[i].hit.request in AdmittedBy(Hits(s.log), RateKey("login", seconds, ip), LimitFor(c, "login", seconds), from, to)
  {
    var e := s.log[i];
    var n, p :| ':' !in n && e.hit.key == RateKey(n, e.hit.seconds, p) && e.limit == LimitFor(c, n, e.hit.seconds);
    RateKeyInjective(n, e.hit.seconds, p, "login", seconds, ip);
    AdmittedIsIn(s.log, i, e.limit, from, to);
  }

  lemma LayerLimitsAttempts(c: Config, run: seq<State>, n: nat, seconds: nat, ip: string, from: real, to: real)
    requires Run(c, run) && n < |run| && from <= to && 0 < seconds
    ensures |Through(run[n].log, seconds, ip, from, to)| <= MostAdmitted(LimitFor(c, "login", seconds), seconds, to - from)
  {
    var s := run[n];
    var key, limit := RateKey("login", seconds, ip), LimitFor(c, "login", seconds);
    RunCounted(c, run, n);
    HitsAreSteady(c, s.log, s.now, "login", seconds, ip);
    forall i: nat | i < |s.log| && LetsThrough(s.log, i, seconds, ip, from, to)
      ensures s.log[i].hit.request in AdmittedBy(Hits(s.log), key, limit, from, to)
    {
      LetThroughIsAdmitted(c, s, i, seconds, ip, from, to);
    }
    OneLayerBound(Hits(s.log), key, limit, seconds, from, to, Through(s.log, seconds, ip, from, to));
  }

  /** In any run each layer bounds the login attempts from one address that it lets through, successful or
      not and whatever other requests do meanwhile; so the attempts that both layers let through in an
      interval are at most the smaller of the two bounds. */
  lemma LoginAttemptsAreLimited(c: Config, run: seq<State>, n: nat, ip: string, from: real, to: real)
    requires Run(c, run) && n < |run| && from <= to
    ensures var minute, hour := Through(run[n].log, 60, ip, from, to), Through(run[n].log, 3600, ip, from, to);
            && |minute| <= MostAdmitted(c.loginPerMinute, 60, to - from)
            && |hour| <= MostAdmitted(c.loginPerHour, 3600, to - from)
            && |minute * hour| <= Min(MostAdmitted(c.loginPerMinute, 60, to - from), MostAdmitted(c.loginPerHour, 3600, to - from))
  {
    LayerLimitsAttempts(c, run, n, 60, ip, from, to);
    LayerLimitsAttempts(c, run, n, 3600, ip, from, to);
    var minute, hour := Through(run[n].log, 60, ip, from, to), Through(run[n].log, 3600, ip, from, to);
    SubsetBound(minute * hour, minute);
    SubsetBound(minute * hour, hour);
  }

  lemma WhoLoggedInWasNotRefused(s: State, i: nat)
    requires RefusedAreOver(s) && i < |s.log| && s.log[i].Checked? && HasLoggedIn(s.log, s.log[i].hit.request)
    ensures !RefusedAt(s.log, i)
  {
  }

  /** Who logged in had been let through whenever it was checked. */
  lemma LoginsWereLetThrough(s: State, seconds: nat, ip: string, from: real, to: real)
    requires RefusedAreOver(s)
    ensures LoginsChecked(s.log, seconds, ip, from, to) <= Through(s.log, seconds, ip, from, to)
  {
    forall h | h in LoginsChecked(s.log, seconds, ip, from, to) ensures h in Through(s.log, seconds, ip, from, to) {
      var i: nat :| i < |s.log| && IsCheck(s.log[i], h, RateKey("login", seconds, ip)) && from <= s.log[i].hit.at < to;
      WhoLoggedInWasNotRefused(s, i);
      assert LetsThrough(s.log, i, seconds, ip, from, to);
    }
  }

  /** In particular the logins from one address whose checks fell into an interval are bounded so. */
  lemma LoginsAreLimited(c: Config, run: seq<State>, n: nat, ip: string, from: real, to: real)
    requires Run(c, run) && n < |run| && from <= to
    ensures var minute, hour := LoginsChecked(run[n].log, 60, ip, from, to), LoginsChecked(run[n].log, 3600, ip, from, to);
            && |minute| <= MostAdmitted(c.loginPerMinute, 60, to - from)
            && |hour| <= MostAdmitted(c.loginPerHour, 3600, to - from)
            && |minute * hour| <= Min(MostAdmitted(c.loginPerMinute, 60, to - from), MostAdmitted(c.loginPerHour, 3600, to - from))
  {
    LoginAttemptsAreLimited(c, run, n, ip, from, to);
    RunCounted(c, run, n);
    LoginsWereLetThrough(run[n], 60, ip, from, to);
    LoginsWereLetThrough(run[n], 3600, ip, from, to);
    var minute, hour := LoginsChecked(run[n].log, 60, ip, from, to), LoginsChecked(run[n].log, 3600, ip, from, to);
    SubsetBound(minute, Through(run[n].log, 60, ip, from, to));
    SubsetBound(hour, Through(run[n].log, 3600, ip, from, to));
    SubsetBound(minute * hour, minute);
    SubsetBound(minute * hour, hour);
  }

  // --- the hour budget ---------------------------------------------------------------------------

  ghost predicate PassedMinute(log: seq<Event>, h: nat, ip: string) {
    exists i :: 0 <= i < |log| && IsCheck(log[i], h, RateKey("login", 60, ip)) && !RefusedAt(log, i)
  }

  /** Whoever is about to spend hour budget, or has spent some, passed the minute layer before. */
  ghost predicate MinuteFirst(s: State) {
    && (forall h :: h in s.flights && s.flights[h].LoginStarted? ==> PassedMinute(s.log, h, s.flights[h].ip))
    && (forall j, ip :: 0 <= j < |s.log| && s.log[j].Checked? && s.log[j].hit.key == RateKey("login", 3600, ip)
          ==> PassedMinute(s.log[..j], s.log[j].hit.request, ip))
  }

  lemma PassedMinuteMono(log: seq<Event>, log': seq<Event>, h: nat, ip: string)
    requires log <= log' && PassedMinute(log, h, ip)
    ensures PassedMinute(log', h, ip)
  {
    var i :| 0 <= i < |log| && IsCheck(log[i], h, RateKey("login", 60, ip)) && !RefusedAt(log, i);
    RefusedAtPrefix(log, log', i);
    assert log'[i] == log[i];
  }

  /** The only hour checks are those of the hour step. */
  lemma HourKeyIsHourStep(c: Config, s: State, a: Action, ip: string)
    requires ChecksRate(a) && Enabled(c, s, a) && CheckOf(c, s, a).hit.key == RateKey("login", 3600, ip)
    ensures a.LoginHour? && s.flights[a.h].ip == ip
  {
    match a
    case StartLogin(i, _) => RateKeyInjective("login", 60, i, "login", 3600, ip);
    case LoginHour(h, _) => RateKeyInjective("login", 3600, s.flights[h].ip, "login", 3600, ip);
    case StartToken(i, _) => RateKeyInjective("token", 60, i, "login", 3600, ip);
    case StartRegister(i) => RateKeyInjective("register", 60, i, "login", 3600, ip);
  }

  /** A login that has started passed the minute layer. */
  lemma StartedPassed(c: Config, s: State, ip: string, form: LoginForm)
    requires Lineage.Named(s) && Counted(c, s)
    requires s.nextId in DoStartLogin(c, s, ip, form).flights
    ensures PassedMinute(DoStartLogin(c, s, ip, form).log, s.nextId, ip)
  {
    var s' := DoStartLogin(c, s, ip, form);
    var e := CheckOf(c, s, StartLogin(ip, form));
    StartLoginChecks(c, s, ip, form);
    HitsAppend(s.log, e);
    assert s'.log[..|s.log| + 1] == s'.log;
    assert s'.log[|s.log|] == e;
    assert IsCheck(s'.log[|s.log|], s.nextId, RateKey("login", 60, ip)) && !RefusedAt(s'.log, |s.log|);
  }

  lemma StartedStayPassed(c: Config, s: State, a: Action, h: nat)
    requires Lineage.Named(s) && Counted(c, s) && MinuteFirst(s) && Enabled(c, s, a)
    requires h in Apply(c, s, a).flights && Apply(c, s, a).flights[h].LoginStarted?
    ensures PassedMinute(Apply(c, s, a).log, h, Apply(c, s, a).flights[h].ip)
  {
    var s' := Apply(c, s, a);
    StepFrame(c, s, a);
    if h in s.flights && s.flights[h] == s'.flights[h] {
      PassedMinuteMono(s.log, s'.log, h, s.flights[h].ip);
    } else {
      StartedPassed(c, s, a.ip, a.form);
      StartedIp(c, s, a.ip, a.form);
    }
  }

  lemma HourChecksPassed(c: Config, s: State, a: Action, j: nat, ip: string)
    requires Counted(c, s) && MinuteFirst(s) && Enabled(c, s, a)
    requires var log' := Apply(c, s, a).log;
             j < |log'| && log'[j].Checked? && log'[j].hit.key == RateKey("login", 3600, ip)
    ensures PassedMinute(Apply(c, s, a).log[..j], Apply(c, s, a).log[j].hit.request, ip)
  {
    var s' := Apply(c, s, a);
    StepFrame(c, s, a);
    assert s'.log[..j] == s.log[..j];
    if j < |s.log| {
      assert s'.log[j] == s.log[j];
    } else {
      StepChecks(c, s, a);
      HourKeyIsHourStep(c, s, a, ip);
      assert s.log[..j] == s.log;
    }
  }

  lemma StepKeepsMinuteFirst(c: Config, s: State, a: Action)
    requires Lineage.Named(s) && Counted(c, s) && MinuteFirst(s) && Enabled(c, s, a)
    ensures MinuteFirst(Apply(c, s, a))
  {
    var s' := Apply(c, s, a);
    forall h | h in s'.flights && s'.flights[h].LoginStarted?
      ensures PassedMinute(s'.log, h, s'.flights[h].ip)
    {
      StartedStayPassed(c, s, a, h);
    }
    forall j, ip | 0 <= j < |s'.log| && s'.log[j].Checked? && s'.log[j].hit.key == RateKey("login", 3600, ip)
      ensures PassedMinute(s'.log[..j], s'.log[j].hit.request, ip)
    {
      HourChecksPassed(c, s, a, j, ip);
    }
  }

  lemma StartedIp(c: Config, s: State, ip: string, form: LoginForm)
    requires s.nextId in DoStartLogin(c, s, ip, form).flights && s.nextId !in s.flights
    ensures DoStartLogin(c, s, ip, form).flights[s.nextId] == LoginStarted(ip, form)
  {
  }

  lemma {:induction false} RunMinuteFirst(c: Config, run: seq<State>, n: nat)
    requires Run(c, run) && n < |run|
    ensures MinuteFirst(run[n])
  {
    if n > 0 {
      RunMinuteFirst(c, run, n - 1);
      RunCounted(c, run, n - 1);
      LI.RunInv(c, run, n - 1);
      var a := LastAction(c, run, n);
      StepKeepsMinuteFirst(c, run[n - 1], a);
    }
  }

  /** Requests refused by the minute layer never consume hour budget: every check of an hour counter was
      made by a request that an earlier minute check from the same address had admitted. */
  lemma HourBudgetNeedsMinuteAdmission(c: Config, run: seq<State>, n: nat, j: nat, ip: string)
    requires Run(c, run) && n < |run| && j < |run[n].log|
    requires run[n].log[j].Checked? && run[n].log[j].hit.key == RateKey("login", 3600, ip)
    ensures PassedMinute(run[n].log[..j], run[n].log[j].hit.request, ip)
  {
    RunMinuteFirst(c, run, n);
  }
}
