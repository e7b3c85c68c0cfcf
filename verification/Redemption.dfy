/** auth/routes.py:385-495 from the form that a client posts to its answer: when a code and when a refresh token
    that were handed out are honoured, in terms of what was posted and what the login had submitted. */
module Redemption {
  import opened Prelude
  import opened Sessions
  import opened TokenStore
  import opened Pkce
  import opened Grants
  import opened Frames
  import opened Handlers
  import opened Traces
  import opened Lineage
  import opened CodeRuns
  import opened RefreshRuns
  import Origins
  import ActiveClient
  import AccessRuns

  /** `b` are the ASCII codes of the characters of `text`. */
  predicate CodesOf(b: seq<Byte>, text: string) {
    |b| == |text| && forall i :: 0 <= i < |b| ==> b[i] == text[i] as int < 128
  }

  /** The challenge is the unpadded base64url text of the digest of the verifier; section 4.6 of RFC 7636. */
  ghost predicate Proves(c: Config, challenge: string, verifier: string) {
    exists b: seq<Byte> :: CodesOf(b, verifier) && EncodeUnpadded(c.sha256(b)) == challenge
  }

  lemma ProvesMeans(c: Config, challenge: string, verifier: string)
    ensures VerifyS256(c.sha256, challenge, verifier) == Match <==> Proves(c, challenge, verifier)
    ensures VerifyS256(c.sha256, challenge, verifier) == Raises <==> !(IsAscii(verifier) && IsAscii(challenge))
  {
    if IsAscii(verifier) {
      BytesAreCodes(verifier);
      var b := Bytes(verifier);
      assert CodesOf(b, verifier);
      VerifyMeansDigest(c.sha256, challenge, [], verifier, b);
      if Proves(c, challenge, verifier) {
        var d: seq<Byte> :| CodesOf(d, verifier) && EncodeUnpadded(c.sha256(d)) == challenge;
        assert d == b;
      }
    }
  }

  /** A redemption names the redirect URI of the login, and its client if it had one. */
  predicate NamesTheLogin(form: LoginForm, asked: TokenRequest) {
    asked.redirectUri == Some(form.redirectUri) && (form.clientId == "" || asked.clientId == Some(form.clientId))
  }

  /** The verifier was not sent, or sent empty. */
  predicate NoVerifier(asked: TokenRequest) {
    asked.verifier == None || asked.verifier == Some("")
  }

  /** What a redemption must present, field by field, and how it is refused. */
  lemma HonouredMeans(c: Config, e: Event, asked: TokenRequest, now: real)
    requires e.LoggedIn? && e.form.redirectUri != "" && e.form.challenge != ""
    ensures var outcome := CodeOutcome(c, Some(RecordOf(c, e)), asked, now);
            var good := now <= e.at + c.codeTtl as real && NamesTheLogin(e.form, asked);
            if !good then outcome == Some(Error(400, "invalid_grant"))
            else if NoVerifier(asked) then outcome == Some(Error(400, "invalid_request"))
            else if !(IsAscii(asked.verifier.value) && IsAscii(e.form.challenge)) then outcome == Some(Error(500, "server_error"))
            else if Proves(c, e.form.challenge, asked.verifier.value) then outcome == None
            else outcome == Some(Error(400, "invalid_grant"))
  {
    if asked.verifier.Some? {
      ProvesMeans(c, e.form.challenge, asked.verifier.value);
    }
  }

  /** A login that was logged had a challenge and a redirect URI. */
  lemma LoginsAreBound(c: Config, t: Trace, n: nat, i: nat)
    requires Recorded(c, t) && n < |t.states| && i < |t.states[n].log| && t.states[n].log[i].LoggedIn?
    ensures t.states[n].log[i].form.redirectUri != "" && t.states[n].log[i].form.challenge != ""
  {
    var start, hour, redirect, validate, purge, mint := Origins.LoginWasEarned(c, t, n, i);
  }

  /** What the first step of a token request makes of it: within the limit, a code grant with a code goes on to
      take that code, presenting all that was posted, and a refresh grant with a token goes on to take that
      token. Everything else is answered for good with its own error. */
  lemma GrantIsChosen(c: Config, t: Trace, k: nat, n: nat)
    requires Recorded(c, t) && k < |t.acts| && k < n < |t.states| && t.acts[k].StartToken?
    ensures var s, s', h, ip, asked := t.states[k], t.states[k + 1], t.states[k].nextId, t.acts[k].ip, t.acts[k].asked;
            var replies := t.states[n].replies;
            if !Within(s, "token", 60, ip, c.tokenPerMinute) then h in replies && replies[h] == Error(429, "too_many_requests")
            else if asked.grantType == "authorization_code" then
              if asked.code == None || asked.code == Some("") then h in replies && replies[h] == Error(400, "invalid_grant")
              else h in s'.flights && s'.flights[h] == CodeRequested(asked.code.value, asked)
            else if asked.grantType == "refresh_token" then
              if asked.refreshToken == None || asked.refreshToken == Some("") then h in replies && replies[h] == Error(400, "invalid_request")
              else h in s'.flights && s'.flights[h] == RefreshRequested(asked.refreshToken.value)
            else h in replies && replies[h] == Error(400, "unsupported_grant_type")
  {
    TheStep(c, t, k);
    RecordedIsRun(c, t);
    StartTokenMeans(c, t.states[k], t.acts[k].ip, t.acts[k].asked);
    if t.states[k].nextId in t.states[k + 1].replies {
      ActiveClient.RepliesStay(c, t.states, k + 1, n, t.states[k].nextId);
    }
  }

  /** The token request of step `k` presents the code of the login logged at `i`; it takes it in step `n` and
      checks it in step `m`. */
  ghost predicate Presents(c: Config, t: Trace, k: nat, n: nat, i: nat) {
    && Recorded(c, t) && k < |t.acts| && n < |t.acts|
    && t.acts[k].StartToken? && t.acts[n] == TakeCode(t.states[k].nextId)
    && i < |t.states[n].log| && t.states[n].log[i].LoggedIn? && t.states[n].log[i].request !in t.states[n].flights
    && t.acts[k].asked.code == Some(t.states[n].log[i].code)
  }

  /** Who presents a code that was sent out gets hold of it, unless it was taken before or is late; whoever does
      not is answered `invalid_grant` for good. */
  lemma PresentedCodeIsTaken(c: Config, t: Trace, k: nat, n: nat, i: nat)
    requires Presents(c, t, k, n, i)
    ensures t.acts[k].asked.grantType == "authorization_code"
    ensures var s, s', e, h := t.states[n], t.states[n + 1], t.states[n].log[i], t.states[k].nextId;
            var taken := h in s'.flights && s'.flights[h] == CodeTaken(e.code, RecordOf(c, e), t.acts[k].asked);
            var refused := h !in s'.flights && h in s'.replies && s'.replies[h] == Error(400, "invalid_grant");
            && (WasPopped(s.log, e.code) ==> refused)
            && (!WasPopped(s.log, e.code) && !CodeMayBeLost(c, e.at + c.codeTtl as real, s.now) ==> taken)
            && (taken || refused)
  {
    var h := t.states[k].nextId;
    TheStep(c, t, n);
    RecordedIsRun(c, t);
    TokenIsAboutItsRequest(c, t, k, n);
    CodeIsTaken(c, t.states, n, i, h);
  }

  /** In every run: a code that was sent out and is presented for the first time, in its time, is honoured if and
      only if it is still within its bound when it is checked, comes with the redirect URI and the client of the
      login form, and with a verifier whose digest is the challenge of that form. Honoured means that the request
      holds a session for exactly the identity its login validated, and is never refused afterwards; otherwise it
      is answered for good with the error that says what was wrong. */
  lemma CodeIsHonoured(c: Config, t: Trace, k: nat, n: nat, m: nat, i: nat, later: nat)
    requires Presents(c, t, k, n, i) && n < m < |t.acts| && t.acts[m] == CheckCode(t.states[k].nextId)
    requires !WasPopped(t.states[n].log, t.states[n].log[i].code)
    requires !CodeMayBeLost(c, t.states[n].log[i].at + c.codeTtl as real, t.states[n].now)
    requires m < later < |t.states|
    ensures var e, asked, h, now := t.states[n].log[i], t.acts[k].asked, t.states[k].nextId, t.states[m].now;
            var refusal :=
              if now > e.at + c.codeTtl as real || !NamesTheLogin(e.form, asked) then Some(Error(400, "invalid_grant"))
              else if NoVerifier(asked) then Some(Error(400, "invalid_request"))
              else if !(IsAscii(asked.verifier.value) && IsAscii(e.form.challenge)) then Some(Error(500, "server_error"))
              else if !Proves(c, e.form.challenge, asked.verifier.value) then Some(Error(400, "invalid_grant"))
              else None;
            match refusal
            case None =>
              && h in t.states[m + 1].flights && t.states[m + 1].flights[h] == Authorized(e.code, Session(e.who, 0.0))
              && Serving(t.states[later], h, e.code, e.who)
            case Some(r) =>
              h in t.states[later].replies && t.states[later].replies[h] == r
  {
    var e, asked, h := t.states[n].log[i], t.acts[k].asked, t.states[k].nextId;
    CheckedAsHonoured(c, t, k, n, m, i);
    LoginsAreBound(c, t, n, i);
    HonouredMeans(c, e, asked, t.states[m].now);
    RecordedIsRun(c, t);
    if h in t.states[m + 1].flights {
      AuthorizedIsNeverRefused(c, t.states, m + 1, later, h);
    } else {
      ActiveClient.RepliesStay(c, t.states, m + 1, later, h);
    }
  }

  /** `RedeemedIffHonoured`, with what was posted in the first step. */
  lemma CheckedAsHonoured(c: Config, t: Trace, k: nat, n: nat, m: nat, i: nat)
    requires Presents(c, t, k, n, i) && n < m < |t.acts| && t.acts[m] == CheckCode(t.states[k].nextId)
    requires !WasPopped(t.states[n].log, t.states[n].log[i].code)
    requires !CodeMayBeLost(c, t.states[n].log[i].at + c.codeTtl as real, t.states[n].now)
    ensures var e, h := t.states[n].log[i], t.states[k].nextId;
            var outcome := CodeOutcome(c, Some(RecordOf(c, e)), t.acts[k].asked, t.states[m].now);
            if outcome.None? then
              h in t.states[m + 1].flights && t.states[m + 1].flights[h] == Authorized(e.code, Session(e.who, 0.0))
            else
              h !in t.states[m + 1].flights && h in t.states[m + 1].replies && Some(t.states[m + 1].replies[h]) == outcome
  {
    var e, h := t.states[n].log[i], t.states[k].nextId;
    TheStep(c, t, n);
    TheStep(c, t, m);
    RecordedIsRun(c, t);
    TokenIsAboutItsRequest(c, t, k, n);
    RedeemedIffHonoured(c, t.states, n, m, i, h);
    OutcomeMeansHonoured(c, Some(RecordOf(c, e)), t.acts[k].asked, t.states[m].now);
  }

  /** In every run: the refresh token of a pair that was handed out, presented in step `k` and taken in step `n`,
      is honoured if it was not spent before and its bound has not come, and refused with `invalid_grant` if it
      was or has; only Redis may refuse it in the second before. Honoured means that the request holds a session
      for the identity of that pair and is never refused afterwards. */
  lemma RefreshIsHonoured(c: Config, t: Trace, k: nat, n: nat, i: nat, later: nat)
    requires Recorded(c, t) && k < |t.acts| && n < |t.acts| && n < later < |t.states|
    requires t.acts[k].StartToken? && t.acts[n] == TakeRefresh(t.states[k].nextId)
    requires i < |t.states[n].log| && t.states[n].log[i].Issued? && t.states[n].log[i].request in t.states[n].replies
    requires t.acts[k].asked.refreshToken == Some(t.states[n].log[i].refresh)
    ensures t.acts[k].asked.grantType == "refresh_token"
    ensures var s, e, h := t.states[n], t.states[n].log[i], t.states[k].nextId;
            var bound := e.at + c.refreshTtl as real;
            var honoured := Serving(t.states[later], h, e.refresh, e.who);
            var refused := h in t.states[later].replies && t.states[later].replies[h] == Error(400, "invalid_grant");
            && (WasPopped(s.log, e.refresh) || bound <= s.now ==> refused)
            && (!WasPopped(s.log, e.refresh) && s.now < bound && !(c.backend == Redis && bound - 1.0 < s.now) ==> honoured)
            && (honoured || refused)
  {
    var h := t.states[k].nextId;
    TheStep(c, t, n);
    RecordedIsRun(c, t);
    TokenIsAboutItsRequest(c, t, k, n);
    RefusedIffSpentOrExpired(c, t.states, n, i, h);
    if h in t.states[n + 1].flights {
      AuthorizedIsNeverRefused(c, t.states, n + 1, later, h);
    } else {
      ActiveClient.RepliesStay(c, t.states, n + 1, later, h);
    }
  }

  /** In every run: from the state `r` on in which an access token was handed out unrevoked, a lookup is logged as
      accepting it, with the identity and the bound of its own issue, if it has not been revoked since and its
      bound has not come; if it was or has, nothing is logged. Only Redis may refuse it in the second before. */
  lemma LookupIsHonoured(c: Config, t: Trace, r: nat, n: nat, i: nat)
    requires Recorded(c, t) && r <= n < |t.acts|
    requires i < |t.states[r].log| && t.states[r].log[i].Issued? && ActiveClient.Paid(t.states[r], t.states[r].log[i].request)
    requires !AccessRuns.WasRevoked(t.states[r].log, t.states[r].log[i].access)
    requires t.acts[n] == Lookup(t.states[r].log[i].access)
    ensures var s, log', e := t.states[n], t.states[n + 1].log, t.states[r].log[i];
            var bound := e.at + c.accessTtl as real;
            var revoked := AccessRuns.WasRevoked(s.log, e.access);
            var accepted := log' == s.log + [Accepted(s.now, e.access, Session(e.who, bound))];
            && (revoked || bound <= s.now ==> log' == s.log)
            && (!revoked && s.now < bound && !(c.backend == Redis && bound - 1.0 < s.now) ==> accepted)
            && (accepted || log' == s.log)
  {
    TheStep(c, t, n);
    RecordedIsRun(c, t);
    AccessRuns.AcceptedIffUnrevokedInTime(c, t.states, r, n, i);
    assert t.states[n + 1] == DoLookup(t.states[n], t.acts[n].token);
  }

  /** Every pair was issued to a request that asked for it: by the grant of its type, and with the very
      credential it was issued for. */
  lemma PairWasAskedFor(c: Config, t: Trace, n: nat, i: nat) returns (k: nat)
    requires Recorded(c, t) && n < |t.states| && i < |t.states[n].log| && t.states[n].log[i].Issued?
    ensures k < n && t.acts[k].StartToken? && t.states[k].nextId == t.states[n].log[i].request
    ensures var asked, e := t.acts[k].asked, t.states[n].log[i];
            || (asked.grantType == "authorization_code" && asked.code == Some(e.source))
            || (asked.grantType == "refresh_token" && asked.refreshToken == Some(e.source))
  {
    TraceWellFounded(c, t, n);
    assert Earned(c, t, n, t.states[n].log[i]);
    k :| k < n && Asks(t, k, t.states[n].log[i].request, t.states[n].log[i].source);
  }

  /** Every logged acceptance was a lookup of that token, which found that session before its bound. */
  lemma AcceptanceWasLookedUp(c: Config, t: Trace, n: nat, i: nat) returns (k: nat)
    requires Recorded(c, t) && n < |t.states| && i < |t.states[n].log| && t.states[n].log[i].Accepted?
    ensures k < n && t.acts[k] == Lookup(t.states[n].log[i].token)
    ensures var e, s := t.states[n].log[i], t.states[k];
            && s.now == e.at < e.session.expiresAt
            && e.token in s.store.sessions && s.store.sessions[e.token] == e.session
  {
    var e := t.states[n].log[i];
    TraceWellFounded(c, t, n);
    assert Earned(c, t, n, e);
    k :| k < n && LooksUp(t, k, e.at, e.token, e.session);
  }
}
