/** auth/routes.py:275-378 and 518-568 from the first step of a request to its last: which submissions and
    answers a login and a registration need, and what they then come to. */
module Origins {
  import opened Prelude
  import opened Sessions
  import opened TokenStore
  import opened Grants
  import opened Frames
  import opened Handlers
  import opened Traces
  import LI = LineageInvariant
  import LL = LoginLimit
  import LT = LineageTheorems
  import ActiveClient
  import R = Registration

  // --- logins ---------------------------------------------------------------------------------------

  /** A login is never logged, and so no code ever sent, without these six steps of its request in this order:
      a form submitted within the minute limit, a passed hour check with a good CSRF token, a redirect URI
      allowed at that moment, an answer of Redmine that names exactly the identity logged, the purge, and the
      drawing of exactly the code logged. The form is the one submitted in the first step. */
  lemma LoginWasEarned(c: Config, t: Trace, n: nat, i: nat)
    returns (start: nat, hour: nat, redirect: nat, validate: nat, purge: nat, mint: nat)
    requires Recorded(c, t) && n < |t.states| && i < |t.states[n].log| && t.states[n].log[i].LoggedIn?
    ensures start < hour < redirect < validate < purge < mint < n
    ensures var h, form := t.states[n].log[i].request, t.states[n].log[i].form;
            && t.states[start].nextId == h && t.acts[start].StartLogin? && t.acts[start].form == form
            && Within(t.states[start], "login", 60, t.acts[start].ip, c.loginPerMinute)
            && t.acts[hour] == LoginHour(h, true)
            && Within(t.states[hour], "login", 3600, t.acts[start].ip, c.loginPerHour)
            && form.challenge != "" && (form.challengeMethod == "" || form.challengeMethod == "S256")
            && t.acts[redirect] == LoginRedirect(h)
            && RedirectDecision(c, t.states[redirect].store.GetClient(form.clientId), form.redirectUri, form.clientId) == Yes
    ensures t.acts[validate] == LoginValidate(t.states[n].log[i].request, Some(t.states[n].log[i].who))
    ensures t.acts[purge] == LoginPurge(t.states[n].log[i].request)
    ensures t.acts[mint] == LoginMint(t.states[n].log[i].request, t.states[n].log[i].code)
    ensures t.states[mint].now == t.states[n].log[i].at
  {
    var e := t.states[n].log[i];
    TraceWellFounded(c, t, n);
    assert Earned(c, t, n, e);
    mint :| mint < n && Mints(c, t, mint, e.at, e.request, e.code, e.form, e.who);
    purge :| purge < mint && Purges(c, t, purge, e.request, e.form, e.who);
    validate :| validate < purge && Validates(c, t, validate, e.request, e.form, e.who);
    redirect, hour, start := AllowedWasEarned(c, t, validate, e.request, e.form);
  }

  lemma AllowedWasEarned(c: Config, t: Trace, n: nat, h: nat, form: LoginForm) returns (redirect: nat, hour: nat, start: nat)
    requires AllowedVia(c, t, n, h, form)
    ensures start < hour < redirect < n && redirect < |t.acts|
    ensures Allows(c, t, redirect, h, form)
    ensures t.acts[start].StartLogin?
    ensures Begins(c, t, start, h, t.acts[start].ip, form)
    ensures Admits(c, t, hour, h, t.acts[start].ip, form)
  {
    redirect :| redirect < n && Allows(c, t, redirect, h, form);
    var ip;
    hour, ip :| hour < redirect && Admits(c, t, hour, h, ip, form);
    start :| start < hour && Begins(c, t, start, h, ip, form);
  }

  /** Request `h` was answered with `r`, and nothing was ever logged as its login. */
  ghost predicate TurnedAway(s: State, h: nat, r: Reply) {
    h !in s.flights && h in s.replies && s.replies[h] == r && !LL.HasLoggedIn(s.log, h)
  }

  /** A step of a login that does not let it go on ends it. */
  lemma EndsLogin(c: Config, t: Trace, k: nat, h: nat, r: Reply)
    requires Recorded(c, t) && k < |t.acts|
    requires t.acts[k].LoginHour? || t.acts[k].LoginRedirect? || t.acts[k].LoginValidate?
    requires t.acts[k].h == h && Answers(t.states[k], t.states[k + 1], h, r)
    ensures TurnedAway(t.states[k + 1], h, r) && h < t.states[k + 1].nextId
  {
    var s, s' := t.states[k], t.states[k + 1];
    TheStep(c, t, k);
    RecordedIsRun(c, t);
    LI.RunInv(c, t.states, k);
    LL.RunCounted(c, t.states, k);
    NotLoggedInYet(s, h);
    if s'.log != s.log {
      assert s'.log == s.log + [s'.log[|s.log|]];
      LL.LoggedInAppend(s.log, s'.log[|s.log|], h);
    }
  }

  lemma NotLoggedInYet(s: State, h: nat)
    requires LL.RefusedAreOver(s) && h in s.flights && !s.flights[h].LoginMinted?
    ensures !LL.HasLoggedIn(s.log, h)
  {
    forall j | 0 <= j < |s.log| && s.log[j].LoggedIn? ensures s.log[j].request != h {
      assert LL.MintedOrDone(s, s.log[j].request);
    }
  }

  lemma {:induction false} TurnedAwayForGood(c: Config, t: Trace, k: nat, n: nat, h: nat, r: Reply)
    requires Recorded(c, t) && k <= n < |t.states|
    requires TurnedAway(t.states[k], h, r) && h < t.states[k].nextId
    ensures TurnedAway(t.states[n], h, r) && h < t.states[n].nextId
  {
    if k < n {
      TurnedAwayForGood(c, t, k, n - 1, h, r);
      TheStep(c, t, n - 1);
      RecordedIsRun(c, t);
      LI.RunInv(c, t.states, n - 1);
      LL.OverStays(c, t.states[n - 1], t.acts[n - 1], h);
      ActiveClient.RepliesStay(c, t.states, k, n, h);
    }
  }

  /** The hour check of a login, against the form it submitted: over the limit it is answered 429 for good; with
      a bad CSRF token, without a challenge, or with another method than S256 it gets the form back for good,
      and is a login in no later state; otherwise, and only then, it goes on with that form. */
  lemma HourDecides(c: Config, t: Trace, start: nat, k: nat, n: nat)
    requires Recorded(c, t) && start < |t.acts| && k < |t.acts| && k < n < |t.states|
    requires t.acts[start].StartLogin? && t.acts[k].LoginHour? && t.acts[k].h == t.states[start].nextId
    ensures var h, ip, form := t.acts[k].h, t.acts[start].ip, t.acts[start].form;
            if !Within(t.states[k], "login", 3600, ip, c.loginPerHour) then
              TurnedAway(t.states[n], h, Error(429, "too_many_requests"))
            else if t.acts[k].csrfOk && form.challenge != "" && (form.challengeMethod == "" || form.challengeMethod == "S256") then
              h in t.states[k + 1].flights && t.states[k + 1].flights[h] == LoginAdmitted(form)
            else
              TurnedAway(t.states[n], h, Error(400, "login_form"))
  {
    TheStep(c, t, k);
    LoginIsAboutItsForm(c, t, start, k);
    LoginHourMeans(c, t.states[k], t.acts[k].h, t.acts[k].csrfOk);
    if t.acts[k].h !in t.states[k + 1].flights {
      EndsAndStays(c, t, k, n, t.acts[k].h);
    }
  }

  /** The redirect check of a login, likewise: `AllowedMeans` says what the decision is. */
  lemma RedirectDecides(c: Config, t: Trace, start: nat, k: nat, n: nat)
    requires Recorded(c, t) && start < |t.acts| && k < |t.acts| && k < n < |t.states|
    requires t.acts[start].StartLogin? && t.acts[k].LoginRedirect? && t.acts[k].h == t.states[start].nextId
    ensures var h, form := t.acts[k].h, t.acts[start].form;
            match RedirectDecision(c, t.states[k].store.GetClient(form.clientId), form.redirectUri, form.clientId)
            case Yes => h in t.states[k + 1].flights && t.states[k + 1].flights[h] == LoginAllowed(form)
            case No => TurnedAway(t.states[n], h, Error(400, "login_form"))
            case Crash => TurnedAway(t.states[n], h, Error(500, "server_error"))
  {
    var s, h, form := t.states[k], t.acts[k].h, t.acts[start].form;
    TheStep(c, t, k);
    LoginIsAboutItsForm(c, t, start, k);
    LoginRedirectMeans(c, s, h);
    R.AllowedMeans(c, s.store.GetClient(form.clientId), form.redirectUri, form.clientId);
    if h !in t.states[k + 1].flights {
      EndsAndStays(c, t, k, n, h);
    }
  }

  /** A URL or key that Redmine did not accept ends the login for good: it gets the form back, and is a login in
      no later state. */
  lemma RejectedIsTurnedAway(c: Config, t: Trace, k: nat, n: nat)
    requires Recorded(c, t) && k < |t.acts| && k < n < |t.states|
    requires t.acts[k].LoginValidate? && t.acts[k].found.None?
    ensures TurnedAway(t.states[n], t.acts[k].h, Error(400, "login_form"))
  {
    TheStep(c, t, k);
    LoginValidateMeans(c, t.states[k], t.acts[k].h, None);
    EndsAndStays(c, t, k, n, t.acts[k].h);
  }

  lemma EndsAndStays(c: Config, t: Trace, k: nat, n: nat, h: nat)
    requires Recorded(c, t) && k < |t.acts| && k < n < |t.states|
    requires t.acts[k].LoginHour? || t.acts[k].LoginRedirect? || t.acts[k].LoginValidate?
    requires t.acts[k].h == h && h in t.states[k + 1].replies
    requires Answers(t.states[k], t.states[k + 1], h, t.states[k + 1].replies[h])
    ensures TurnedAway(t.states[n], h, t.states[k + 1].replies[h])
  {
    EndsLogin(c, t, k, h, t.states[k + 1].replies[h]);
    TurnedAwayForGood(c, t, k + 1, n, h, t.states[k + 1].replies[h]);
  }

  // --- a confirmed login gets its code -----------------------------------------------------------------

  predicate IsLoginOf(e: Event, h: nat, code: string, form: LoginForm, who: Identity) {
    e.LoggedIn? && e.request == h && e.code == code && e.form == form && e.who == who
  }

  ghost predicate HasLoginOf(log: seq<Event>, h: nat, code: string, form: LoginForm, who: Identity) {
    exists i :: 0 <= i < |log| && IsLoginOf(log[i], h, code, form, who)
  }

  /** The login of `who` with this form is on its way to its code, or was sent it. */
  ghost predicate Welcome(s: State, h: nat, form: LoginForm, who: Identity) {
    if h in s.flights then
      match s.flights[h]
      case LoginValidated(f, session, _) => f == form && session.who == who
      case LoginPurged(f, session) => f == form && session.who == who
      case LoginMinted(code, entry) => entry.redirectUri == form.redirectUri && HasLoginOf(s.log, h, code, form, who)
      case _ => false
    else
      && h in s.replies && s.replies[h].RedirectWithCode? && s.replies[h].uri == form.redirectUri
      && HasLoginOf(s.log, h, s.replies[h].code, form, who)
  }

  lemma LoginStays(log: seq<Event>, log': seq<Event>, h: nat, code: string, form: LoginForm, who: Identity)
    requires log <= log' && HasLoginOf(log, h, code, form, who)
    ensures HasLoginOf(log', h, code, form, who)
  {
    var i :| 0 <= i < |log| && IsLoginOf(log[i], h, code, form, who);
    assert IsLoginOf(log'[i], h, code, form, who);
  }

  lemma OtherStepKeepsWelcome(c: Config, s: State, a: Action, h: nat, form: LoginForm, who: Identity)
    requires LT.Answered(s) && Enabled(c, s, a) && Framed(s, a, Apply(c, s, a)) && Mover(s, a) != h
    requires Welcome(s, h, form, who)
    ensures Welcome(Apply(c, s, a), h, form, who)
  {
    var s' := Apply(c, s, a);
    if h in s.flights {
      if s.flights[h].LoginMinted? {
        LoginStays(s.log, s'.log, h, s.flights[h].code, form, who);
      }
    } else {
      LoginStays(s.log, s'.log, h, s.replies[h].code, form, who);
    }
  }

  lemma OwnStepKeepsWelcome(c: Config, s: State, a: Action, h: nat, form: LoginForm, who: Identity)
    requires Enabled(c, s, a) && h < s.nextId && Mover(s, a) == h && Welcome(s, h, form, who)
    ensures Welcome(Apply(c, s, a), h, form, who)
  {
    var s' := Apply(c, s, a);
    match a
    case LoginPurge(_) => assert s' == DoLoginPurge(c, s, h);
    case LoginMint(_, code) =>
      assert s' == DoLoginMint(c, s, h, code);
      assert IsLoginOf(s'.log[|s.log|], h, code, form, who);
    case LoginStore(_) =>
      assert s' == DoLoginStore(s, h);
      LoginStays(s.log, s'.log, h, s.flights[h].code, form, who);
  }

  lemma StepKeepsWelcome(c: Config, t: Trace, n: nat, h: nat, form: LoginForm, who: Identity)
    requires Recorded(c, t) && n < |t.acts| && h < t.states[n].nextId && Welcome(t.states[n], h, form, who)
    ensures Welcome(t.states[n + 1], h, form, who)
  {
    TheStep(c, t, n);
    RecordedIsRun(c, t);
    if Mover(t.states[n], t.acts[n]) == h {
      OwnStepKeepsWelcome(c, t.states[n], t.acts[n], h, form, who);
    } else {
      LT.RunAnswered(c, t.states, n);
      OtherStepKeepsWelcome(c, t.states[n], t.acts[n], h, form, who);
    }
  }

  lemma {:induction false} WelcomeLasts(c: Config, t: Trace, k: nat, n: nat, h: nat, form: LoginForm, who: Identity)
    requires Recorded(c, t) && k <= n < |t.states|
    requires h < t.states[k].nextId && Welcome(t.states[k], h, form, who)
    ensures Welcome(t.states[n], h, form, who)
  {
    if k < n {
      WelcomeLasts(c, t, k, n - 1, h, form, who);
      if k < n - 1 {
        NumbersRise(c, t, k, n - 1);
      }
      StepKeepsWelcome(c, t, n - 1, h, form, who);
    }
  }

  /** Once Redmine has confirmed `who`, the login is never refused: in every later state of every interleaving
      it is on its way to its code, or was redirected to the URI of its form with the code logged for it, and
      the login logged is that of `who` with the form that was submitted. */
  lemma ConfirmedLoginIsWelcome(c: Config, t: Trace, start: nat, k: nat, n: nat)
    requires Recorded(c, t) && start < |t.acts| && k < |t.acts| && k < n < |t.states|
    requires t.acts[start].StartLogin? && t.acts[k].LoginValidate? && t.acts[k].h == t.states[start].nextId
    requires t.acts[k].found.Some?
    ensures Welcome(t.states[n], t.acts[k].h, t.acts[start].form, t.acts[k].found.value)
  {
    var h := t.acts[k].h;
    TheStep(c, t, k);
    LoginIsAboutItsForm(c, t, start, k);
    LoginValidateMeans(c, t.states[k], h, t.acts[k].found);
    NumbersRise(c, t, start, k + 1);
    WelcomeLasts(c, t, k + 1, n, h, t.acts[start].form, t.acts[k].found.value);
  }

  // --- registrations ----------------------------------------------------------------------------------

  /** What is logged as registered is the list that this request submitted, of web URIs only, under the id it
      drew; and as long as it is on record, every URI of that list but the empty one is allowed to that id. */
  lemma RegistrationWasSubmitted(c: Config, t: Trace, n: nat, i: nat) returns (start: nat, submit: nat)
    requires Recorded(c, t) && n < |t.states| && i < |t.states[n].log| && t.states[n].log[i].Registered?
    ensures start < submit < n
    ensures t.acts[start].StartRegister? && t.states[start].nextId == t.states[n].log[i].request
    ensures t.acts[submit] == RegisterMint(t.states[n].log[i].request, Some(t.states[n].log[i].uris), t.states[n].log[i].clientId)
    ensures var s, id := t.states[n], t.states[n].log[i].clientId;
            R.OnRecord(c, s.log[i], s.now) ==>
              && id in s.store.clients && s.store.clients[id].redirectUris == t.acts[submit].uris.value
              && forall uri :: uri in t.acts[submit].uris.value && uri != "" ==>
                   RedirectDecision(c, s.store.GetClient(id), uri, id) == Yes
  {
    var s, e := t.states[n], t.states[n].log[i];
    TraceWellFounded(c, t, n);
    assert Earned(c, t, n, e);
    submit :| submit < n && Submits(c, t, submit, e.request, e.uris, e.clientId);
    start :| start < submit && Applies(c, t, start, e.request);
    RecordedIsRun(c, t);
    R.RunRecordsKept(c, t.states, n);
    assert R.RecordKept(c, s, e);
    forall uri | uri in e.uris && uri != "" && R.OnRecord(c, e, s.now)
      ensures RedirectDecision(c, s.store.GetClient(e.clientId), uri, e.clientId) == Yes
    {
      R.RegistrationIsHonoured(c, t.states, n, i, uri);
    }
  }

  predicate IsRegistrationOf(e: Event, h: nat, id: string, uris: seq<string>) {
    e.Registered? && e.request == h && e.clientId == id && e.uris == uris
  }

  /** The registration of this list is about to be stored, or it was, and its id was handed out. */
  ghost predicate Enrolled(s: State, h: nat, id: string, uris: seq<string>) {
    if h in s.flights then
      s.flights[h].RegisterMinted? && s.flights[h].clientId == id && s.flights[h].client.redirectUris == uris
    else
      && h in s.replies && s.replies[h] == ClientCreated(id)
      && exists i :: 0 <= i < |s.log| && IsRegistrationOf(s.log[i], h, id, uris)
  }

  lemma StepKeepsEnrolled(c: Config, s: State, a: Action, h: nat, id: string, uris: seq<string>)
    requires LT.Answered(s) && Enabled(c, s, a) && Framed(s, a, Apply(c, s, a)) && h < s.nextId
    requires Enrolled(s, h, id, uris)
    ensures Enrolled(Apply(c, s, a), h, id, uris)
  {
    var s' := Apply(c, s, a);
    if h !in s.flights {
      var i :| 0 <= i < |s.log| && IsRegistrationOf(s.log[i], h, id, uris);
      assert IsRegistrationOf(s'.log[i], h, id, uris);
    } else if Mover(s, a) == h {
      assert s' == DoRegisterStore(s, h);
      assert IsRegistrationOf(s'.log[|s.log|], h, id, uris);
    }
  }

  lemma {:induction false} EnrolledLasts(c: Config, t: Trace, k: nat, n: nat, h: nat, id: string, uris: seq<string>)
    requires Recorded(c, t) && k <= n < |t.states|
    requires h < t.states[k].nextId && Enrolled(t.states[k], h, id, uris)
    ensures h < t.states[n].nextId && Enrolled(t.states[n], h, id, uris)
  {
    if k < n {
      EnrolledLasts(c, t, k, n - 1, h, id, uris);
      TheStep(c, t, n - 1);
      RecordedIsRun(c, t);
      LT.RunAnswered(c, t.states, n - 1);
      StepKeepsEnrolled(c, t.states[n - 1], t.acts[n - 1], h, id, uris);
    }
  }

  /** What a submission comes to, in every interleaving: a list of web URIs gets the id that was drawn, with
      exactly this list behind it; something that is no list of strings, or a list with another scheme in it, is
      refused for good, unless a URI before that cannot be parsed, which ends the request with a server error. */
  lemma SubmissionDecides(c: Config, t: Trace, k: nat, n: nat)
    requires Recorded(c, t) && k < |t.acts| && k < n < |t.states| && t.acts[k].RegisterMint?
    ensures var s', h, uris := t.states[n], t.acts[k].h, t.acts[k].uris;
            && (uris.Some? && (forall u :: u in uris.value ==> R.IsWebUri(c, u)) ==> Enrolled(s', h, t.acts[k].clientId, uris.value))
            && (uris.None? ==> h in s'.replies && s'.replies[h] == Error(400, "invalid_redirect_uri"))
            && (forall i :: uris.Some? && R.FirstBad(c, uris.value, i) ==>
                  h in s'.replies
                  && s'.replies[h] == if c.parse(uris.value[i]).None? then Error(500, "server_error")
                                      else Error(400, "invalid_redirect_uri"))
  {
    var a := t.acts[k];
    TheStep(c, t, k);
    RecordedIsRun(c, t);
    RegisterMintMeans(c, t.states[k], a.h, a.uris, a.clientId);
    if a.h in t.states[k + 1].replies {
      ActiveClient.RepliesStay(c, t.states, k + 1, n, a.h);
    }
    if a.uris.Some? && forall u :: u in a.uris.value ==> R.IsWebUri(c, u) {
      LI.RunInv(c, t.states, k);
      EnrolledLasts(c, t, k + 1, n, a.h, a.clientId, a.uris.value);
    }
  }
}
