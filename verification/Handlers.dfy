/** auth/routes.py:275-568 stretch by stretch: what each one makes of what it was sent and of what the
    store, Redmine and the token generator answered, with the statuses and error codes written out. */
module Handlers {
  import opened Prelude
  import opened Sessions
  import opened TokenStore
  import opened RedisKeys
  import opened Grants
  import opened Registration

  /** This check, made now, finds no more than `limit` calls in its window, itself included. */
  predicate Within(s: State, name: string, seconds: nat, ip: string, limit: nat) {
    Bump(RateAt(s.store.rate, RateKey(name, seconds, ip)), seconds, s.now).count <= limit
  }

  /** Request `h` is now at `f`, and no other request has moved. */
  predicate Proceeds(s: State, s': State, h: nat, f: Flight<Session>) {
    s'.flights == s.flights[h := f] && s'.replies == s.replies && s'.nextId == s.nextId
  }

  /** Request `h` has been answered and is over, and no other request has moved. */
  predicate Answers(s: State, s': State, h: nat, r: Reply) {
    s'.flights == s.flights - {h} && s'.replies == s.replies[h := r] && s'.nextId == s.nextId
  }

  /** A new request is under way under the next number. */
  predicate Opens(s: State, s': State, f: Flight<Session>) {
    s'.flights == s.flights[s.nextId := f] && s'.replies == s.replies && s'.nextId == s.nextId + 1
  }

  /** A new request was answered at once. */
  predicate Declines(s: State, s': State, r: Reply) {
    s'.flights == s.flights && s'.replies == s.replies[s.nextId := r] && s'.nextId == s.nextId + 1
  }

  // --- login --------------------------------------------------------------------------------------

  lemma StartLoginMeans(c: Config, s: State, ip: string, form: LoginForm)
    ensures var s' := Apply(c, s, StartLogin(ip, form));
            if Within(s, "login", 60, ip, c.loginPerMinute) then Opens(s, s', LoginStarted(ip, form))
            else Declines(s, s', Error(429, "too_many_requests"))
  {
  }

  /** What a login form has to bring along: a challenge, and no method or S256. */
  predicate FormInOrder(form: LoginForm) {
    form.challenge != "" && (form.challengeMethod == "" || form.challengeMethod == "S256")
  }

  /** The hour counter, the CSRF token, the challenge and its method; whichever of the last three is wrong,
      the form comes back. */
  lemma LoginHourMeans(c: Config, s: State, h: nat, csrfOk: bool)
    requires Enabled(c, s, LoginHour(h, csrfOk))
    ensures var s', f := Apply(c, s, LoginHour(h, csrfOk)), s.flights[h];
            if !Within(s, "login", 3600, f.ip, c.loginPerHour) then Answers(s, s', h, Error(429, "too_many_requests"))
            else if csrfOk && FormInOrder(f.form) then Proceeds(s, s', h, LoginAdmitted(f.form))
            else Answers(s, s', h, Error(400, "login_form"))
  {
  }

  /** The URI must be a web URI, and loopback, registered by this client at this moment, or on the allowlist;
      a URI that cannot be parsed ends the request with a server error. */
  lemma LoginRedirectMeans(c: Config, s: State, h: nat)
    requires Enabled(c, s, LoginRedirect(h))
    ensures var s', form := Apply(c, s, LoginRedirect(h)), s.flights[h].form;
            var registered := form.clientId in s.store.clients && form.redirectUri in s.store.clients[form.clientId].redirectUris;
            if form.redirectUri != "" && c.parse(form.redirectUri).None? then Answers(s, s', h, Error(500, "server_error"))
            else if && form.redirectUri != "" && IsWebUri(c, form.redirectUri)
                    && (|| LoopbackByHttp(c.parse(form.redirectUri).value)
                        || (form.clientId != "" && registered)
                        || form.redirectUri in c.allowedRedirects)
            then Proceeds(s, s', h, LoginAllowed(form))
            else Answers(s, s', h, Error(400, "login_form"))
  {
    var form := s.flights[h].form;
    AllowedMeans(c, s.store.GetClient(form.clientId), form.redirectUri, form.clientId);
  }

  /** Only an identity that Redmine confirmed goes on, and as a session that is not good for anything yet. */
  lemma LoginValidateMeans(c: Config, s: State, h: nat, found: Option<Identity>)
    requires Enabled(c, s, LoginValidate(h, found))
    ensures var s' := Apply(c, s, LoginValidate(h, found));
            if found.Some? then Proceeds(s, s', h, LoginValidated(s.flights[h].form, Session(found.value, 0.0), s.now))
            else Answers(s, s', h, Error(400, "login_form"))
  {
  }

  /** In memory, the codes past the reading taken before the lock go, and no others. */
  lemma LoginPurgeMeans(c: Config, s: State, h: nat)
    requires Enabled(c, s, LoginPurge(h))
    ensures var s', f := Apply(c, s, LoginPurge(h)), s.flights[h];
            && Proceeds(s, s', h, LoginPurged(f.form, f.session))
            && (forall k :: k in s'.store.codes <==> k in s.store.codes && (c.backend == Memory ==> f.purgeAt <= s.store.codes[k].expiresAt))
            && (forall k :: k in s'.store.codes ==> s'.store.codes[k] == s.store.codes[k])
  {
  }

  lemma LoginMintMeans(c: Config, s: State, h: nat, code: string)
    requires Enabled(c, s, LoginMint(h, code))
    ensures var s', f := Apply(c, s, LoginMint(h, code)), s.flights[h];
            var e := CodeEntry(f.session, f.form.redirectUri, f.form.clientId, s.now + c.codeTtl as real, f.form.challenge);
            && Proceeds(s, s', h, LoginMinted(code, e))
            && s'.store == s.store && s'.minted == s.minted + {code}
  {
  }

  lemma LoginStoreMeans(c: Config, s: State, h: nat)
    requires Enabled(c, s, LoginStore(h))
    ensures var s', f := Apply(c, s, LoginStore(h)), s.flights[h];
            && Answers(s, s', h, RedirectWithCode(f.entry.redirectUri, f.code))
            && s'.store.codes == s.store.codes[f.code := f.entry]
  {
  }

  // --- token --------------------------------------------------------------------------------------

  /** A grant is chosen by its type, and only if its credential is there. */
  lemma StartTokenMeans(c: Config, s: State, ip: string, asked: TokenRequest)
    ensures var s' := Apply(c, s, StartToken(ip, asked));
            if !Within(s, "token", 60, ip, c.tokenPerMinute) then Declines(s, s', Error(429, "too_many_requests"))
            else if asked.grantType == "authorization_code" then
              if asked.code.Some? && asked.code.value != "" then Opens(s, s', CodeRequested(asked.code.value, asked))
              else Declines(s, s', Error(400, "invalid_grant"))
            else if asked.grantType == "refresh_token" then
              if asked.refreshToken.Some? && asked.refreshToken.value != "" then
                Opens(s, s', RefreshRequested(asked.refreshToken.value))
              else Declines(s, s', Error(400, "invalid_request"))
            else Declines(s, s', Error(400, "unsupported_grant_type"))
  {
    var s' := DoStartToken(c, s, ip, asked);
    assert Apply(c, s, StartToken(ip, asked)) == s';
  }

  lemma TakeCodeMeans(c: Config, s: State, h: nat)
    requires Enabled(c, s, TakeCode(h))
    ensures var s', f := Apply(c, s, TakeCode(h)), s.flights[h];
            && s'.store.codes == s.store.codes - {f.code}
            && if f.code in s.store.codes then Proceeds(s, s', h, CodeTaken(f.code, s.store.codes[f.code], f.asked))
               else Answers(s, s', h, Error(400, "invalid_grant"))
  {
  }

  lemma TakeRefreshMeans(c: Config, s: State, h: nat)
    requires Enabled(c, s, TakeRefresh(h))
    ensures var s', token := Apply(c, s, TakeRefresh(h)), s.flights[h].token;
            && s'.store.refresh == s.store.refresh - {token}
            && if token in s.store.refresh && s.now < s.store.refresh[token].expiresAt
               then Proceeds(s, s', h, Authorized(token, s.store.refresh[token]))
               else Answers(s, s', h, Error(400, "invalid_grant"))
  {
    assert Apply(c, s, TakeRefresh(h)) == DoTakeRefresh(s, h);
  }

  /** One clock reading sets both bounds; the identity is passed on to both sessions. */
  lemma MintPairMeans(c: Config, s: State, h: nat, access: string, refresh: string)
    requires Enabled(c, s, MintPair(h, access, refresh))
    ensures var s', who := Apply(c, s, MintPair(h, access, refresh)), s.flights[h].session.who;
            && Proceeds(s, s', h, PairMinted(access, Session(who, s.now + c.accessTtl as real),
                                             refresh, Session(who, s.now + c.refreshTtl as real)))
            && s'.store == s.store && s'.minted == s.minted + {access, refresh}
  {
  }

  lemma StorePairMeans(c: Config, s: State, h: nat)
    ensures Enabled(c, s, StoreAccess(h)) ==>
              var s', f := Apply(c, s, StoreAccess(h)), s.flights[h];
              && Proceeds(s, s', h, AccessStored(f.access, f.refresh, f.next))
              && s'.store.sessions == s.store.sessions[f.access := f.session]
    ensures Enabled(c, s, StoreRefresh(h)) ==>
              var s', f := Apply(c, s, StoreRefresh(h)), s.flights[h];
              && Answers(s, s', h, Pair(f.access, f.refresh, c.accessTtl))
              && s'.store.refresh == s.store.refresh[f.refresh := f.next]
  {
  }

  // --- access, revocation and registration ----------------------------------------------------------

  /** A lookup accepts iff a session is stored that has not reached its bound, and says which. */
  lemma LookupMeans(c: Config, s: State, token: string)
    ensures var s' := Apply(c, s, Lookup(token));
            var good := token in s.store.sessions && s.now < s.store.sessions[token].expiresAt;
            && s'.log == s.log + (if good then [Accepted(s.now, token, s.store.sessions[token])] else [])
            && s'.store.sessions == (if good then s.store.sessions else s.store.sessions - {token})
            && s'.flights == s.flights && s'.replies == s.replies
  {
    assert s.log + [] == s.log;
  }

  /** Revocation takes this access session away and answers 200, whether there was one or not. */
  lemma RevokeMeans(c: Config, s: State, token: string)
    ensures var s' := Apply(c, s, Revoke(token));
            && Opens(s, s', RevokePurging(s.now))
            && s'.store == s.store.(sessions := s.store.sessions - {token})
            && s'.log == s.log + [Revoked(s.now, token)]
  {
  }

  /** In memory, the sessions expired at the reading taken before the lock go, and no others. */
  lemma RevokePurgeMeans(c: Config, s: State, h: nat)
    requires Enabled(c, s, RevokePurge(h))
    ensures var s', readAt := Apply(c, s, RevokePurge(h)), s.flights[h].purgeAt;
            && Answers(s, s', h, Accomplished)
            && (forall t :: t in s'.store.sessions <==> t in s.store.sessions && (c.backend == Memory ==> readAt < s.store.sessions[t].expiresAt))
            && (forall t :: t in s'.store.sessions ==> s'.store.sessions[t] == s.store.sessions[t])
  {
  }

  lemma StartRegisterMeans(c: Config, s: State, ip: string)
    ensures var s' := Apply(c, s, StartRegister(ip));
            if Within(s, "register", 60, ip, c.registerPerMinute) then Opens(s, s', RegisterAdmitted)
            else Declines(s, s', Error(429, "too_many_requests"))
  {
  }

  /** A list of web URIs is registered as it was submitted, under the new id and dated by the whole second.
      Otherwise the first URI that is none decides between a server error and a refusal. */
  lemma RegisterMintMeans(c: Config, s: State, h: nat, uris: Option<seq<string>>, clientId: string)
    requires Enabled(c, s, RegisterMint(h, uris, clientId))
    ensures var s' := Apply(c, s, RegisterMint(h, uris, clientId));
            && (uris.None? ==> Answers(s, s', h, Error(400, "invalid_redirect_uri")))
            && (uris.Some? && (forall u :: u in uris.value ==> IsWebUri(c, u)) ==>
                  exists second: int :: second as real <= s.now < (second + 1) as real
                    && Proceeds(s, s', h, RegisterMinted(clientId, Client(uris.value, second))))
            && (forall i :: uris.Some? && FirstBad(c, uris.value, i) ==>
                  Answers(s, s', h, if c.parse(uris.value[i]).None? then Error(500, "server_error")
                                    else Error(400, "invalid_redirect_uri")))
  {
    var s' := DoRegisterMint(c, s, h, uris, clientId);
    if uris.Some? {
      SchemesOfAll(c, uris.value);
      var second := s.now.Floor;
      assert second as real <= s.now < (second + 1) as real;
      forall i | FirstBad(c, uris.value, i)
        ensures SchemeDecision(c, uris.value) == if c.parse(uris.value[i]).None? then Crash else No
      {
        FirstBadDecides(c, uris.value, i);
      }
    }
  }

  lemma RegisterStoreMeans(c: Config, s: State, h: nat)
    requires Enabled(c, s, RegisterStore(h))
    ensures var s', f := Apply(c, s, RegisterStore(h)), s.flights[h];
            && Answers(s, s', h, ClientCreated(f.clientId))
            && s'.store.clients == s.store.clients[f.clientId := f.client]
  {
  }

  // --- progress -----------------------------------------------------------------------------------

  /** No request is ever stuck: for every one under way there is a step that moves it on, whatever the
      others do, as long as the generator still finds unseen tokens. */
  lemma NothingIsStuck(c: Config, s: State, h: nat, t1: string, t2: string) returns (a: Action)
    requires s.At(h) && s.Unseen(t1) && s.Unseen(t2) && t1 != t2
    ensures Enabled(c, s, a)
    ensures h !in Apply(c, s, a).flights || Apply(c, s, a).flights[h] != s.flights[h]
  {
    match s.flights[h]
    case LoginStarted(_, _) => a := LoginHour(h, true); LoginHourMeans(c, s, h, true);
    case LoginAdmitted(_) => a := LoginRedirect(h); LoginRedirectMeans(c, s, h);
    case LoginAllowed(_) => a := LoginValidate(h, None); LoginValidateMeans(c, s, h, None);
    case LoginValidated(_, _, _) => a := LoginPurge(h); LoginPurgeMeans(c, s, h);
    case LoginPurged(_, _) => a := LoginMint(h, t1); LoginMintMeans(c, s, h, t1);
    case LoginMinted(_, _) => a := LoginStore(h); LoginStoreMeans(c, s, h);
    case CodeRequested(_, _) => a := TakeCode(h); TakeCodeMeans(c, s, h);
    case RefreshRequested(_) => a := TakeRefresh(h); TakeRefreshMeans(c, s, h);
    case CodeTaken(_, _, _) => a := CheckCode(h);
    case Authorized(_, _) => a := MintPair(h, t1, t2); MintPairMeans(c, s, h, t1, t2);
    case PairMinted(_, _, _, _) => a := StoreAccess(h); StorePairMeans(c, s, h);
    case AccessStored(_, _, _) => a := StoreRefresh(h); StorePairMeans(c, s, h);
    case RevokePurging(_) => a := RevokePurge(h); RevokePurgeMeans(c, s, h);
    case RegisterAdmitted => a := RegisterMint(h, None, t1); RegisterMintMeans(c, s, h, None, t1);
    case RegisterMinted(_, _) => a := RegisterStore(h); RegisterStoreMeans(c, s, h);
  }
}
