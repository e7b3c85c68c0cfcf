/** auth/routes.py:68-94 and 518-568: what a client registered, its logins may later use. */
module Registration {
  import opened Prelude
  import opened Sessions
  import opened TokenStore
  import opened Grants
  import opened Frames
  import P = Provenance

  predicate IsWebUri(c: Config, uri: string) {
    c.parse(uri).Some? && c.parse(uri).value.scheme in {"http", "https"}
  }

  /** Registration accepts a list iff every URI on it parses and has one of the two web schemes. */
  lemma {:induction false} SchemesOfAll(c: Config, uris: seq<string>)
    ensures SchemeDecision(c, uris) == Yes <==> forall u :: u in uris ==> IsWebUri(c, u)
  {
    if uris != [] {
      SchemesOfAll(c, uris[1..]);
      assert forall u :: u in uris <==> u == uris[0] || u in uris[1..];
      assert SchemeDecision(c, uris) == Yes <==> IsWebUri(c, uris[0]) && SchemeDecision(c, uris[1..]) == Yes;
    }
  }

  /** The first URI of a list that registration cannot accept. */
  predicate FirstBad(c: Config, uris: seq<string>, i: int) {
    0 <= i < |uris| && !IsWebUri(c, uris[i]) && forall j :: 0 <= j < i ==> IsWebUri(c, uris[j])
  }

  lemma {:induction false} FirstBadDecides(c: Config, uris: seq<string>, i: nat)
    requires FirstBad(c, uris, i)
    ensures SchemeDecision(c, uris) == if c.parse(uris[i]).None? then Crash else No
  {
    if i > 0 {
      assert IsWebUri(c, uris[0]);
      FirstBadDecides(c, uris[1..], i - 1);
    }
  }

  /** The two handlers apply the same scheme test, so a registered URI is allowed to its client. The one
      exception is the empty string, which authorization refuses before it parses anything. */
  lemma RegisteredIsAllowed(c: Config, client: Client, uri: string, clientId: string)
    requires SchemeDecision(c, client.redirectUris) == Yes && uri in client.redirectUris && clientId != ""
    ensures RedirectDecision(c, Some(client), uri, clientId) == Yes <==> uri != ""
  {
    SchemesOfAll(c, client.redirectUris);
  }

  predicate LoopbackByHttp(u: Url) {
    u.scheme == "http" && (u.host == "127.0.0.1" || u.host == "localhost" || u.host == "::1" || u.host == "[::1]")
  }

  /** The decision in full: a URI that parses is allowed iff it has a web scheme and is a plain-http
      loopback address, or registered by the client that asks, or on the allowlist. */
  lemma AllowedMeans(c: Config, client: Option<Client>, uri: string, clientId: string)
    ensures RedirectDecision(c, client, uri, clientId) == Yes
            <==> && uri != "" && IsWebUri(c, uri)
                 && (|| LoopbackByHttp(c.parse(uri).value)
                     || (clientId != "" && client.Some? && uri in client.value.redirectUris)
                     || uri in c.allowedRedirects)
    ensures RedirectDecision(c, client, uri, clientId) == Crash <==> uri != "" && c.parse(uri) == None
  {
  }

  ghost predicate GoodRecord(c: Config, clientId: string, uris: seq<string>) {
    clientId != "" && SchemeDecision(c, uris) == Yes
  }

  /** A registration is on record: always in memory, and with Redis for exactly the client TTL. */
  predicate OnRecord(c: Config, e: Event, now: real)
    requires e.Registered?
  {
    c.backend == Memory || now < e.at + c.clientTtl as real
  }

  /** Records are never overwritten: a logged registration is in the store as it was written, as long as it
      is on record. */
  ghost predicate RecordKept(c: Config, s: State, e: Event)
    requires e.Registered?
  {
    && GoodRecord(c, e.clientId, e.uris)
    && e.clientId in s.minted
    && (e.clientId in s.store.clients <==> OnRecord(c, e, s.now))
    && (e.clientId in s.store.clients ==> s.store.clients[e.clientId].redirectUris == e.uris)
  }

  /** The registration that a request is about to store is good, and nobody else's. */
  ghost predicate RecordComing(c: Config, s: State, h: nat)
    requires h in s.flights && s.flights[h].RegisterMinted?
  {
    && GoodRecord(c, s.flights[h].clientId, s.flights[h].client.redirectUris)
    && NeverRegistered(s, s.flights[h].clientId)
    && s.flights[h].clientId in s.minted
  }

  ghost predicate NeverRegistered(s: State, clientId: string) {
    forall i :: 0 <= i < |s.log| && s.log[i].Registered? ==> s.log[i].clientId != clientId
  }

  ghost predicate RegisteredOnce(log: seq<Event>) {
    forall i, j :: 0 <= i < j < |log| && log[i].Registered? && log[j].Registered? ==> log[i].clientId != log[j].clientId
  }

  ghost predicate RecordsKept(c: Config, s: State) {
    && RegisteredOnce(s.log)
    && (forall i :: 0 <= i < |s.log| && s.log[i].Registered? ==> RecordKept(c, s, s.log[i]))
    && (forall h :: h in s.flights && s.flights[h].RegisterMinted? ==> RecordComing(c, s, h))
    && (forall h, k :: h in s.flights && k in s.flights && s.flights[h].RegisterMinted? && s.flights[k].RegisterMinted?
          && s.flights[h].clientId == s.flights[k].clientId
          ==> h == k)
  }

  /** A step that has nothing to do with registrations. */
  ghost predicate Unconcerned(s: State, s': State) {
    && s'.store.clients == s.store.clients && s.minted <= s'.minted && s.log <= s'.log && s'.now == s.now
    && (forall i :: 0 <= i < |s'.log| && s'.log[i].Registered? ==> i < |s.log|)
    && (forall h :: h in s'.flights && s'.flights[h].RegisterMinted? ==> h in s.flights && s.flights[h] == s'.flights[h])
  }

  lemma FrameIsUnconcerned(c: Config, s: State, a: Action, s': State)
    requires Framed(s, a, s') && !a.RegisterMint? && !a.RegisterStore? && !a.Tick?
    ensures Unconcerned(s, s')
  {
  }

  lemma UnconcernedKeepsRecords(c: Config, s: State, s': State)
    requires RecordsKept(c, s) && Unconcerned(s, s')
    ensures RecordsKept(c, s')
  {
    forall i | 0 <= i < |s'.log| && s'.log[i].Registered? ensures RecordKept(c, s', s'.log[i]) {
      assert s'.log[i] == s.log[i];
      assert RecordKept(c, s, s.log[i]);
    }
    forall h | h in s'.flights && s'.flights[h].RegisterMinted? ensures RecordComing(c, s', h) {
      assert RecordComing(c, s, h);
    }
  }

  /** A record goes with Redis when its TTL is over, and not before. */
  lemma ClientOverMeans(c: Config, log: seq<Event>, i: nat, now: real)
    requires RegisteredOnce(log) && i < |log| && log[i].Registered?
    ensures ClientOver(c, log, log[i].clientId, now) <==> log[i].at + c.clientTtl as real <= now
  {
  }

  lemma TickKeepsRecords(c: Config, s: State, now: Instant, gone: Gone)
    requires RecordsKept(c, s) && s.now <= now && MayGo(c, s, now, gone)
    ensures RecordsKept(c, s.(now := now, store := Drop(s.store, gone)))
  {
    var s' := s.(now := now, store := Drop(s.store, gone));
    forall i: nat | i < |s.log| && s.log[i].Registered? ensures RecordKept(c, s', s.log[i]) {
      assert RecordKept(c, s, s.log[i]);
      ClientOverMeans(c, s.log, i, now);
    }
    forall h | h in s.flights && s.flights[h].RegisterMinted? ensures RecordComing(c, s', h) {
      assert RecordComing(c, s, h);
    }
  }

  lemma MintKeepsRecords(c: Config, s: State, h: nat, uris: Option<seq<string>>, clientId: string)
    requires RecordsKept(c, s) && Enabled(c, s, RegisterMint(h, uris, clientId))
    ensures RecordsKept(c, DoRegisterMint(c, s, h, uris, clientId))
  {
    var s' := DoRegisterMint(c, s, h, uris, clientId);
    forall i | 0 <= i < |s.log| && s.log[i].Registered?
      ensures RecordKept(c, s', s.log[i]) && s.log[i].clientId != clientId
    {
      assert RecordKept(c, s, s.log[i]);
    }
    forall k | k in s'.flights && s'.flights[k].RegisterMinted? ensures RecordComing(c, s', k) {
      assert k != h ==> RecordComing(c, s, k);
    }
    assert forall k :: k in s.flights && s.flights[k].RegisterMinted? ==> RecordComing(c, s, k);
  }

  lemma StoreKeepsRecords(c: Config, s: State, h: nat)
    requires RecordsKept(c, s) && Enabled(c, s, RegisterStore(h))
    ensures RecordsKept(c, DoRegisterStore(s, h))
  {
    var s' := DoRegisterStore(s, h);
    assert RecordComing(c, s, h);
    forall i | 0 <= i < |s'.log| && s'.log[i].Registered? ensures RecordKept(c, s', s'.log[i]) {
      if i < |s.log| {
        assert s'.log[i] == s.log[i];
        assert RecordKept(c, s, s.log[i]);
      }
    }
    forall k | k in s'.flights && s'.flights[k].RegisterMinted? ensures RecordComing(c, s', k) {
      assert RecordComing(c, s, k);
    }
  }

  lemma StepKeepsRecords(c: Config, s: State, a: Action)
    requires RecordsKept(c, s) && Enabled(c, s, a)
    ensures RecordsKept(c, Apply(c, s, a))
  {
    if a.Tick? {
      TickKeepsRecords(c, s, a.now, a.gone);
    } else if a.RegisterMint? {
      MintKeepsRecords(c, s, a.h, a.uris, a.clientId);
    } else if a.RegisterStore? {
      StoreKeepsRecords(c, s, a.h);
    } else {
      StepFrame(c, s, a);
      FrameIsUnconcerned(c, s, a, Apply(c, s, a));
      UnconcernedKeepsRecords(c, s, Apply(c, s, a));
    }
  }

  lemma {:induction false} RunRecordsKept(c: Config, run: seq<State>, n: nat)
    requires Run(c, run) && n < |run|
    ensures RecordsKept(c, run[n])
  {
    if n > 0 {
      RunRecordsKept(c, run, n - 1);
      var a := LastAction(c, run, n);
      StepKeepsRecords(c, run[n - 1], a);
    }
  }

  /** In every later state of every run, a URI of a successful registration is allowed to that client as
      long as the registration is on record: for ever in memory, until the client deadline with Redis.
      After that only the loopback rule and the allowlist are left. Section 3 of RFC 7591. */
  lemma RegistrationIsHonoured(c: Config, run: seq<State>, n: nat, i: nat, uri: string)
    requires Run(c, run) && n < |run| && i < |run[n].log| && run[n].log[i].Registered?
    requires uri in run[n].log[i].uris
    ensures c.parse(uri).Some?
    ensures var s, e := run[n], run[n].log[i];
            && (e.clientId in s.store.clients <==> OnRecord(c, e, s.now))
            && (RedirectDecision(c, s.store.GetClient(e.clientId), uri, e.clientId) == Yes
                <==> && uri != ""
                     && (|| OnRecord(c, e, s.now)
                         || LoopbackByHttp(c.parse(uri).value)
                         || uri in c.allowedRedirects))
  {
    var s, e := run[n], run[n].log[i];
    RunRecordsKept(c, run, n);
    assert RecordKept(c, s, e);
    SchemesOfAll(c, e.uris);
    AllowedMeans(c, s.store.GetClient(e.clientId), uri, e.clientId);
    if e.clientId in s.store.clients {
      RegisteredIsAllowed(c, s.store.clients[e.clientId], uri, e.clientId);
    }
  }

  /** The step of a run that logged a given event. */
  lemma {:induction false} StepThatLogged(c: Config, run: seq<State>, n: nat, i: nat) returns (k: nat)
    requires Run(c, run) && n < |run| && i < |run[n].log|
    ensures k < n && |run[k].log| == i < |run[k + 1].log| && run[k + 1].log[i] == run[n].log[i]
  {
    LogGrows(c, run, n);
    if i < |run[n - 1].log| {
      k := StepThatLogged(c, run, n - 1, i);
    } else {
      k := n - 1;
    }
  }

  /** A redirect check that was logged is one that the decision had allowed, in the state of that moment. */
  lemma LoggedCheckWasAllowed(c: Config, s: State, h: nat)
    requires Enabled(c, s, LoginRedirect(h)) && |DoLoginRedirect(c, s, h).log| > |s.log|
    ensures var form := s.flights[h].form;
            && DoLoginRedirect(c, s, h).log[|s.log|] == RedirectAllowed(s.now, h, form.redirectUri, form.clientId)
            && RedirectDecision(c, s.store.GetClient(form.clientId), form.redirectUri, form.clientId) == Yes
  {
  }

  /** Every code in the store, however long it has been there, was minted by a login whose redirect URI
      `_redirect_uri_is_allowed` had accepted: `k` is the state in which it did. */
  lemma StoredCodesWereAllowed(c: Config, run: seq<State>, n: nat, code: string) returns (k: nat)
    requires Run(c, run) && n < |run| && code in run[n].store.codes
    ensures var e := run[n].store.codes[code];
            k < n && RedirectDecision(c, run[k].store.GetClient(e.clientId), e.redirectUri, e.clientId) == Yes
  {
    var s := run[n];
    P.RunTraced(c, run, n);
    var allowed: nat, login: nat :| P.Founded(c, s.log, allowed, login, code, s.store.codes[code]) && s.log[login].at <= s.now;
    k := StepThatLogged(c, run, n, allowed);
    var a := ActionThatLogged(c, run, k + 1);
    LoggedCheckWasAllowed(c, run[k], a.h);
  }
}
