/** What each answer of the server says about the history: nothing is handed out that was not logged,
    and 429 is answered exactly to the requests one of whose rate checks was over the limit. */
module Replies {
  import opened Prelude
  import opened Sessions
  import opened TokenStore
  import opened Grants
  import opened RateLimiter
  import opened RedisKeys
  import opened Frames
  import opened LoginLimit
  import LI = LineageInvariant
  import LT = LineageTheorems

  predicate IsLogin(e: Event, h: nat, code: string, uri: string) {
    e.LoggedIn? && e.request == h && e.code == code && e.form.redirectUri == uri
  }

  predicate IsIssue(e: Event, h: nat, access: string, refresh: string) {
    e.Issued? && e.request == h && e.access == access && e.refresh == refresh
  }

  predicate IsRegistration(e: Event, h: nat, id: string) {
    e.Registered? && e.request == h && e.clientId == id
  }

  ghost predicate HasLogin(log: seq<Event>, h: nat, code: string, uri: string) {
    exists i :: 0 <= i < |log| && IsLogin(log[i], h, code, uri)
  }

  ghost predicate HasIssue(log: seq<Event>, h: nat, access: string, refresh: string) {
    exists i :: 0 <= i < |log| && IsIssue(log[i], h, access, refresh)
  }

  ghost predicate HasRegistration(log: seq<Event>, h: nat, id: string) {
    exists i :: 0 <= i < |log| && IsRegistration(log[i], h, id)
  }

  /** One of the request's rate checks was over the limit. */
  ghost predicate HasRefusal(log: seq<Event>, h: nat) {
    exists i :: 0 <= i < |log| && log[i].Checked? && log[i].hit.request == h && RefusedAt(log, i)
  }

  /** What a handed-out code, pair or client id must have behind it. */
  ghost predicate Justified(c: Config, log: seq<Event>, h: nat, r: Reply) {
    match r
    case RedirectWithCode(uri, code) => HasLogin(log, h, code, uri)
    case Pair(access, refresh, expiresIn) => HasIssue(log, h, access, refresh) && expiresIn == c.accessTtl
    case ClientCreated(id) => HasRegistration(log, h, id)
    case _ => true
  }

  ghost predicate Backed(log: seq<Event>, h: nat, f: Flight<Session>) {
    match f
    case LoginMinted(code, e) => HasLogin(log, h, code, e.redirectUri)
    case PairMinted(access, _, refresh, _) => HasIssue(log, h, access, refresh)
    case AccessStored(access, refresh, _) => HasIssue(log, h, access, refresh)
    case _ => true
  }

  ghost predicate Accountable(c: Config, s: State) {
    && (forall h :: h in s.replies ==> Justified(c, s.log, h, s.replies[h]))
    && (forall h :: h in s.flights ==> Backed(s.log, h, s.flights[h]))
  }

  lemma LongerLog(c: Config, log: seq<Event>, log': seq<Event>, h: nat)
    requires log <= log'
    ensures forall code, uri :: HasLogin(log, h, code, uri) ==> HasLogin(log', h, code, uri)
    ensures forall access, refresh :: HasIssue(log, h, access, refresh) ==> HasIssue(log', h, access, refresh)
    ensures forall id :: HasRegistration(log, h, id) ==> HasRegistration(log', h, id)
  {
    assert forall i :: 0 <= i < |log| ==> log'[i] == log[i];
  }

  /** The steps that hand something out, and the steps before them. */
  lemma GrantingStepAccountable(c: Config, s: State, a: Action)
    requires Accountable(c, s) && Enabled(c, s, a)
    requires a.LoginMint? || a.LoginStore? || a.MintPair? || a.StoreAccess? || a.StoreRefresh? || a.RegisterStore?
    ensures var s' := Apply(c, s, a);
            && (a.h in s'.replies && a.h !in s.replies ==> Justified(c, s'.log, a.h, s'.replies[a.h]))
            && (a.h in s'.flights ==> Backed(s'.log, a.h, s'.flights[a.h]))
  {
    var s' := Apply(c, s, a);
    assert s.log <= s'.log;
    LongerLog(c, s.log, s'.log, a.h);
    assert Backed(s.log, a.h, s.flights[a.h]);
    match a
    case LoginMint(h, code) => assert IsLogin(s'.log[|s.log|], h, code, s.flights[h].form.redirectUri);
    case MintPair(h, access, refresh) => assert IsIssue(s'.log[|s.log|], h, access, refresh);
    case RegisterStore(h) => assert IsRegistration(s'.log[|s.log|], h, s.flights[h].clientId);
    case _ =>
  }

  predicate HandsOut(r: Reply) {
    r.RedirectWithCode? || r.Pair? || r.ClientCreated?
  }

  /** Every other step answers, if at all, with an error or an empty success. */
  lemma OtherStepsHandNothingOut(c: Config, s: State, a: Action, h: nat)
    requires Enabled(c, s, a)
    requires !a.LoginStore? && !a.StoreRefresh? && !a.RegisterStore?
    requires h in Apply(c, s, a).replies && h !in s.replies
    ensures !HandsOut(Apply(c, s, a).replies[h])
  {
    if a.StartToken? {
      assert Apply(c, s, a) == DoStartToken(c, s, a.ip, a.asked);
    }
  }

  lemma StepKeepsAccountable(c: Config, s: State, a: Action)
    requires Accountable(c, s) && LT.Answered(s) && Enabled(c, s, a)
    ensures Accountable(c, Apply(c, s, a))
  {
    var s' := Apply(c, s, a);
    StepFrame(c, s, a);
    forall h | h in s'.replies ensures Justified(c, s'.log, h, s'.replies[h]) {
      ReplyIsJustified(c, s, a, h);
    }
    forall h | h in s'.flights ensures Backed(s'.log, h, s'.flights[h]) {
      FlightIsBacked(c, s, a, h);
    }
  }

  lemma ReplyIsJustified(c: Config, s: State, a: Action, h: nat)
    requires Accountable(c, s) && LT.Answered(s) && Enabled(c, s, a) && Framed(s, a, Apply(c, s, a))
    requires h in Apply(c, s, a).replies
    ensures Justified(c, Apply(c, s, a).log, h, Apply(c, s, a).replies[h])
  {
    var s' := Apply(c, s, a);
    if h in s.replies {
      AnsweredOnce(c, s, a, h);
      LongerLog(c, s.log, s'.log, h);
    } else if a.LoginStore? || a.StoreRefresh? || a.RegisterStore? {
      GrantingStepAccountable(c, s, a);
    } else {
      OtherStepsHandNothingOut(c, s, a, h);
    }
  }

  /** An answer is never replaced. */
  lemma AnsweredOnce(c: Config, s: State, a: Action, h: nat)
    requires LT.Answered(s) && Enabled(c, s, a) && Framed(s, a, Apply(c, s, a)) && h in s.replies
    ensures h in Apply(c, s, a).replies && Apply(c, s, a).replies[h] == s.replies[h]
  {
  }

  lemma FlightIsBacked(c: Config, s: State, a: Action, h: nat)
    requires Accountable(c, s) && Enabled(c, s, a) && Framed(s, a, Apply(c, s, a))
    requires h in Apply(c, s, a).flights
    ensures Backed(Apply(c, s, a).log, h, Apply(c, s, a).flights[h])
  {
    var s' := Apply(c, s, a);
    if h in s.flights && s'.flights[h] == s.flights[h] {
      LongerLog(c, s.log, s'.log, h);
    } else if a.LoginMint? || a.MintPair? || a.StoreAccess? {
      GrantingStepAccountable(c, s, a);
    }
  }

  lemma {:induction false} RunAccountable(c: Config, run: seq<State>, n: nat)
    requires Run(c, run) && n < |run|
    ensures Accountable(c, run[n])
  {
    if n > 0 {
      RunAccountable(c, run, n - 1);
      LT.RunAnswered(c, run, n - 1);
      var a := LastAction(c, run, n);
      StepKeepsAccountable(c, run[n - 1], a);
    }
  }

  // --- 429 ------------------------------------------------------------------------------------

  /** A request is answered 429 iff one of its checks was over the limit. */
  ghost predicate RefusedExactly(s: State) {
    forall h :: (h in s.replies && s.replies[h] == TOO_MANY) <==> HasRefusal(s.log, h)
  }

  /** The step that makes a check answers 429 iff the count it got is over the limit. */
  predicate AnswersCheck(s: State, e: Event, h: nat, s': State)
    requires e.Checked?
  {
    h !in s.replies ==>
      ((h in s'.replies && s'.replies[h] == TOO_MANY) <==> RateAt(s'.store.rate, e.hit.key).count > e.limit)
  }

  lemma StartLoginAnswers(c: Config, s: State, ip: string, form: LoginForm)
    ensures AnswersCheck(s, CheckOf(c, s, StartLogin(ip, form)), s.nextId, DoStartLogin(c, s, ip, form))
  {
  }

  lemma LoginHourAnswers(c: Config, s: State, h: nat, csrfOk: bool)
    requires Enabled(c, s, LoginHour(h, csrfOk))
    ensures AnswersCheck(s, CheckOf(c, s, LoginHour(h, csrfOk)), h, DoLoginHour(c, s, h, csrfOk))
  {
  }

  lemma StartTokenAnswers(c: Config, s: State, ip: string, asked: TokenRequest)
    ensures AnswersCheck(s, CheckOf(c, s, StartToken(ip, asked)), s.nextId, DoStartToken(c, s, ip, asked))
  {
  }

  lemma StartRegisterAnswers(c: Config, s: State, ip: string)
    ensures AnswersCheck(s, CheckOf(c, s, StartRegister(ip)), s.nextId, DoStartRegister(c, s, ip))
  {
  }

  lemma StepAnswersCheck(c: Config, s: State, a: Action)
    requires ChecksRate(a) && Enabled(c, s, a)
    ensures AnswersCheck(s, CheckOf(c, s, a), Mover(s, a), Apply(c, s, a))
  {
    match a
    case StartLogin(ip, form) => StartLoginAnswers(c, s, ip, form);
    case LoginHour(h, csrfOk) => LoginHourAnswers(c, s, h, csrfOk);
    case StartToken(ip, asked) => StartTokenAnswers(c, s, ip, asked);
    case StartRegister(ip) => StartRegisterAnswers(c, s, ip);
  }

  lemma OtherStepsDoNotRefuse(c: Config, s: State, a: Action, h: nat)
    requires Enabled(c, s, a) && !ChecksRate(a)
    requires h in Apply(c, s, a).replies && h !in s.replies
    ensures Apply(c, s, a).replies[h] != TOO_MANY
  {
  }

  lemma RefusalAppend(log: seq<Event>, e: Event, h: nat)
    ensures HasRefusal(log + [e], h)
            <==> HasRefusal(log, h) || (e.Checked? && e.hit.request == h && RefusedAt(log + [e], |log|))
  {
    var log' := log + [e];
    forall i | 0 <= i < |log| && log[i].Checked? ensures RefusedAt(log', i) <==> RefusedAt(log, i) {
      RefusedAtPrefix(log, log', i);
    }
    if HasRefusal(log, h) {
      var i :| 0 <= i < |log| && log[i].Checked? && log[i].hit.request == h && RefusedAt(log, i);
      assert log'[i] == log[i] && RefusedAt(log', i);
    }
    if e.Checked? && e.hit.request == h && RefusedAt(log', |log|) {
      assert log'[|log|] == e;
    }
  }

  lemma CheckingKeepsExact(c: Config, s: State, a: Action, h: nat)
    requires LoginLimit.Counted(c, s) && LT.Answered(s) && RefusedExactly(s) && Enabled(c, s, a) && ChecksRate(a)
    ensures var s' := Apply(c, s, a); (h in s'.replies && s'.replies[h] == TOO_MANY) <==> HasRefusal(s'.log, h)
  {
    var s', e := Apply(c, s, a), CheckOf(c, s, a);
    StepFrame(c, s, a);
    StepChecks(c, s, a);
    StepAnswersCheck(c, s, a);
    RefusalAppend(s.log, e, h);
    HitsAppend(s.log, e);
    assert s'.log[..|s.log| + 1] == s'.log;
    if h in s.replies {
      AnsweredOnce(c, s, a, h);
    }
  }

  lemma OthersKeepExact(c: Config, s: State, a: Action, h: nat)
    requires LT.Answered(s) && RefusedExactly(s) && Enabled(c, s, a) && !ChecksRate(a)
    ensures var s' := Apply(c, s, a); (h in s'.replies && s'.replies[h] == TOO_MANY) <==> HasRefusal(s'.log, h)
  {
    var s' := Apply(c, s, a);
    StepFrame(c, s, a);
    if s'.log != s.log {
      assert s'.log == s.log + [s'.log[|s.log|]];
      RefusalAppend(s.log, s'.log[|s.log|], h);
    }
    if h in s.replies {
      AnsweredOnce(c, s, a, h);
    } else if h in s'.replies {
      OtherStepsDoNotRefuse(c, s, a, h);
    }
  }

  lemma {:induction false} RunRefusedExactly(c: Config, run: seq<State>, n: nat)
    requires Run(c, run) && n < |run|
    ensures RefusedExactly(run[n])
  {
    if n > 0 {
      RunRefusedExactly(c, run, n - 1);
      LT.RunAnswered(c, run, n - 1);
      RunCounted(c, run, n - 1);
      var a := LastAction(c, run, n);
      forall h ensures (h in run[n].replies && run[n].replies[h] == TOO_MANY) <==> HasRefusal(run[n].log, h) {
        if ChecksRate(a) {
          CheckingKeepsExact(c, run[n - 1], a, h);
        } else {
          OthersKeepExact(c, run[n - 1], a, h);
        }
      }
    }
  }
}
