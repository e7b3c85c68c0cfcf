/** auth/routes.py:473-495 over whole runs of both backends: when a refresh is refused. */
module RefreshRuns {
  import opened Prelude
  import opened Sessions
  import opened TokenStore
  import opened Grants
  import opened Lineage
  import opened Frames
  import LI = LineageInvariant
  import LT = LineageTheorems
  import P = Provenance
  import Chains

  /** The refresh session an issue wrote, or is about to write. */
  function NextSession(c: Config, e: Event): Session
    requires e.Issued?
  {
    Session(e.who, e.at + c.refreshTtl as real)
  }

  predicate Delivers(f: Flight<Session>, refresh: string, next: Session) {
    (f.PairMinted? || f.AccessStored?) && f.refresh == refresh && f.next == next
  }

  /** Redis may lose a record in the last second before its bound; memory loses nothing. */
  predicate MayBeLost(c: Config, bound: real, now: real) {
    c.backend == Redis && bound - 1.0 < now
  }

  /** An issued refresh token is on its way into the store, or in it, or has been popped, or is so late
      that Redis may have dropped it. */
  ghost predicate RefreshKept(c: Config, s: State, e: Event)
    requires e.Issued?
  {
    || WasPopped(s.log, e.refresh)
    || (e.refresh in s.store.refresh && s.store.refresh[e.refresh] == NextSession(c, e))
    || (e.request in s.flights && Delivers(s.flights[e.request], e.refresh, NextSession(c, e)))
    || MayBeLost(c, e.at + c.refreshTtl as real, s.now)
  }

  ghost predicate AllKept(c: Config, s: State) {
    forall i :: 0 <= i < |s.log| && s.log[i].Issued? ==> RefreshKept(c, s, s.log[i])
  }

  /** A step that neither stores nor takes refresh tokens. */
  lemma FrameKeepsKept(c: Config, s: State, a: Action, s': State)
    requires Named(s) && AllKept(c, s) && Enabled(c, s, a) && Framed(s, a, s')
    requires s'.store.refresh == s.store.refresh
    requires !a.MintPair? && !a.StoreAccess? && !a.StoreRefresh?
    ensures AllKept(c, s')
  {
    forall i | 0 <= i < |s'.log| && s'.log[i].Issued? ensures RefreshKept(c, s', s'.log[i]) {
      assert s'.log[i] == s.log[i];
      assert RefreshKept(c, s, s.log[i]);
      if WasPopped(s.log, s.log[i].refresh) {
        Chains.PoppedStays(s.log, s'.log, s.log[i].refresh);
      }
    }
  }

  lemma TickKeepsKept(c: Config, s: State, now: Instant, gone: Gone)
    requires AllKept(c, s) && s.now <= now && MayGo(c, s, now, gone)
    ensures AllKept(c, s.(now := now, store := Drop(s.store, gone)))
  {
    var s' := s.(now := now, store := Drop(s.store, gone));
    forall i | 0 <= i < |s.log| && s.log[i].Issued? ensures RefreshKept(c, s', s.log[i]) {
      assert RefreshKept(c, s, s.log[i]);
    }
  }

  lemma MintKeepsKept(c: Config, s: State, h: nat, access: string, refresh: string)
    requires AllKept(c, s) && Enabled(c, s, MintPair(h, access, refresh))
    ensures AllKept(c, DoMintPair(c, s, h, access, refresh))
  {
    var s' := DoMintPair(c, s, h, access, refresh);
    forall i | 0 <= i < |s'.log| && s'.log[i].Issued? ensures RefreshKept(c, s', s'.log[i]) {
      if i < |s.log| {
        assert s'.log[i] == s.log[i];
        assert RefreshKept(c, s, s.log[i]);
        if WasPopped(s.log, s.log[i].refresh) {
          Chains.PoppedStays(s.log, s'.log, s.log[i].refresh);
        }
      }
    }
  }

  lemma StoreAccessKeepsKept(c: Config, s: State, h: nat)
    requires AllKept(c, s) && Enabled(c, s, StoreAccess(h))
    ensures AllKept(c, DoStoreAccess(s, h))
  {
    var s' := DoStoreAccess(s, h);
    forall i | 0 <= i < |s.log| && s.log[i].Issued? ensures RefreshKept(c, s', s.log[i]) {
      assert RefreshKept(c, s, s.log[i]);
    }
  }

  /** Storing a refresh token overwrites no other one. */
  lemma StoreRefreshKeepsKept(c: Config, s: State, h: nat)
    requires Linear(s) && AllKept(c, s) && Enabled(c, s, StoreRefresh(h))
    ensures AllKept(c, DoStoreRefresh(c, s, h))
  {
    var s' := DoStoreRefresh(c, s, h);
    var f := s.flights[h];
    assert Held(s, InFlight(h)) == Some(f.refresh);
    if f.refresh in s.store.refresh {
      LI.DistinctCreds(s, InFlight(h), InRefresh(f.refresh));
    }
    assert f.refresh !in s.store.refresh;
    forall i | 0 <= i < |s.log| && s.log[i].Issued? ensures RefreshKept(c, s', s.log[i]) {
      assert RefreshKept(c, s, s.log[i]);
    }
  }

  lemma TakeRefreshKeepsKept(c: Config, s: State, h: nat)
    requires AllKept(c, s) && Enabled(c, s, TakeRefresh(h))
    ensures AllKept(c, DoTakeRefresh(s, h))
  {
    var s' := DoTakeRefresh(s, h);
    var token := s.flights[h].token;
    forall i | 0 <= i < |s'.log| && s'.log[i].Issued? ensures RefreshKept(c, s', s'.log[i]) {
      assert i < |s.log| && s'.log[i] == s.log[i];
      assert RefreshKept(c, s, s.log[i]);
      if WasPopped(s.log, s.log[i].refresh) {
        Chains.PoppedStays(s.log, s'.log, s.log[i].refresh);
      } else if token in s.store.refresh && s.log[i].refresh == token {
        assert s'.log[|s.log|] == Popped(s.now, h, token);
      }
    }
  }

  lemma StepKeepsKept(c: Config, s: State, a: Action)
    requires Inv(s) && AllKept(c, s) && Enabled(c, s, a)
    ensures AllKept(c, Apply(c, s, a))
  {
    if a.Tick? {
      TickKeepsKept(c, s, a.now, a.gone);
    } else if a.MintPair? {
      MintKeepsKept(c, s, a.h, a.access, a.refresh);
    } else if a.StoreAccess? {
      StoreAccessKeepsKept(c, s, a.h);
    } else if a.StoreRefresh? {
      StoreRefreshKeepsKept(c, s, a.h);
    } else if a.TakeRefresh? {
      TakeRefreshKeepsKept(c, s, a.h);
    } else {
      StepFrame(c, s, a);
      FrameKeepsKept(c, s, a, Apply(c, s, a));
    }
  }

  lemma {:induction false} RunKept(c: Config, run: seq<State>, n: nat)
    requires Run(c, run) && n < |run|
    ensures AllKept(c, run[n])
  {
    if n > 0 {
      RunKept(c, run, n - 1);
      LI.RunInv(c, run, n - 1);
      var a := LastAction(c, run, n);
      StepKeepsKept(c, run[n - 1], a);
    }
  }

  /** In every run, whatever other requests do: a refresh token that its client has been given is refused if
      it was popped before or its `refresh_ttl` is over, and honoured otherwise, except that with Redis it
      may be refused already in the last second. When it is honoured, the request holds a session for the
      identity the token was issued for. */
  lemma RefusedIffSpentOrExpired(c: Config, run: seq<State>, n: nat, i: nat, h: nat)
    requires Run(c, run) && n < |run|
    requires i < |run[n].log| && run[n].log[i].Issued? && run[n].log[i].request in run[n].replies
    requires Enabled(c, run[n], TakeRefresh(h)) && run[n].flights[h].token == run[n].log[i].refresh
    ensures var s, e := run[n], run[n].log[i];
            var s' := DoTakeRefresh(s, h);
            var bound := e.at + c.refreshTtl as real;
            var refused := h !in s'.flights && h in s'.replies && s'.replies[h] == INVALID_GRANT;
            var honoured := h in s'.flights && s'.flights[h] == Authorized(e.refresh, NextSession(c, e));
            && (WasPopped(s.log, e.refresh) || bound <= s.now ==> refused)
            && (!WasPopped(s.log, e.refresh) && s.now < bound && !MayBeLost(c, bound, s.now) ==> honoured)
            && (refused || honoured)
  {
    var s, e := run[n], run[n].log[i];
    RunKept(c, run, n);
    LI.RunInv(c, run, n);
    LT.RunAnswered(c, run, n);
    assert RefreshKept(c, s, e);
    if WasPopped(s.log, e.refresh) {
      assert Held(s, InRefresh(e.refresh)) != Some(e.refresh);
    }
    if e.refresh in s.store.refresh {
      StoredIsIssued(c, run, n, i);
    }
  }

  /** What is stored under a refresh token is what its issue wrote. */
  lemma StoredIsIssued(c: Config, run: seq<State>, n: nat, i: nat)
    requires Run(c, run) && n < |run|
    requires i < |run[n].log| && run[n].log[i].Issued? && run[n].log[i].refresh in run[n].store.refresh
    ensures run[n].store.refresh[run[n].log[i].refresh] == NextSession(c, run[n].log[i])
  {
    var s, e := run[n], run[n].log[i];
    LI.RunInv(c, run, n);
    P.RunTraced(c, run, n);
    assert P.RefreshTraced(c, s.log, s.now, e.refresh, s.store.refresh[e.refresh]);
    var p :| P.IsRefresh(c, s.log, p, e.refresh, s.store.refresh[e.refresh]) && s.log[p.issue].at <= s.now;
    Chains.MintAtOnePlace(s.log, p.issue, i, e.refresh);
  }

  predicate IsIssueTo(e: Event, h: nat) {
    e.Issued? && e.request == h
  }

  /** A request that was authorized with `token` for `who` is being served: it is about to mint its pair, is
      storing it, or was answered with it, and whatever was issued to it was for this token and identity. */
  ghost predicate Serving(s: State, h: nat, token: string, who: Identity) {
    && h < s.nextId
    && (forall j :: 0 <= j < |s.log| && IsIssueTo(s.log[j], h) ==> s.log[j].source == token && s.log[j].who == who)
    && (if h in s.flights then
          || (s.flights[h].Authorized? && s.flights[h].source == token && s.flights[h].session.who == who)
          || s.flights[h].PairMinted? || s.flights[h].AccessStored?
        else h in s.replies && s.replies[h].Pair?)
  }

  /** Only minting issues, in the name and for the session of the request it moves. */
  lemma IssueIsMinted(c: Config, s: State, a: Action, h: nat)
    requires Enabled(c, s, a)
    ensures var log' := Apply(c, s, a).log;
            |log'| > |s.log| && IsIssueTo(log'[|s.log|], h) ==>
              && a.MintPair? && a.h == h
              && log'[|s.log|].source == s.flights[h].source && log'[|s.log|].who == s.flights[h].session.who
  {
    StepFrame(c, s, a);
    if a.MintPair? {
      assert Apply(c, s, a) == DoMintPair(c, s, a.h, a.access, a.refresh);
    }
  }

  lemma StepStaysOnItsWay(c: Config, s: State, a: Action, h: nat, token: string, who: Identity)
    requires Enabled(c, s, a) && Serving(s, h, token, who)
    ensures var s' := Apply(c, s, a);
            if h in s'.flights then
              || (s'.flights[h].Authorized? && s'.flights[h].source == token && s'.flights[h].session.who == who)
              || s'.flights[h].PairMinted? || s'.flights[h].AccessStored?
            else h in s'.replies && s'.replies[h].Pair?
  {
    StepFrame(c, s, a);
    if Mover(s, a) == h && h in s.flights {
      match a
      case MintPair(_, access, refresh) => assert Apply(c, s, a) == DoMintPair(c, s, h, access, refresh);
      case StoreAccess(_) => assert Apply(c, s, a) == DoStoreAccess(s, h);
      case StoreRefresh(_) => assert Apply(c, s, a) == DoStoreRefresh(c, s, h);
    }
  }

  lemma StepKeepsServing(c: Config, s: State, a: Action, h: nat, token: string, who: Identity)
    requires Enabled(c, s, a)
    ensures Serving(s, h, token, who) ==> Serving(Apply(c, s, a), h, token, who)
  {
    if Serving(s, h, token, who) {
      StepStaysOnItsWay(c, s, a, h, token, who);
      IssueIsMinted(c, s, a, h);
      NumbersGrow(c, s, a);
      LogGrowsByOne(c, s, a);
    }
  }

  lemma NumbersGrow(c: Config, s: State, a: Action)
    requires Enabled(c, s, a)
    ensures s.nextId <= Apply(c, s, a).nextId
  {
    StepFrame(c, s, a);
  }

  lemma RunKeepsServing(c: Config, run: seq<State>, m: nat, h: nat, token: string, who: Identity)
    requires Run(c, run) && 0 < m < |run|
    ensures Serving(run[m - 1], h, token, who) ==> Serving(run[m], h, token, who)
  {
    var a := LastAction(c, run, m);
    StepKeepsServing(c, run[m - 1], a, h, token, who);
  }

  /** Nothing has been issued yet to a request that is only authorized. */
  lemma AuthorizedIsServing(c: Config, run: seq<State>, n: nat, h: nat)
    requires Run(c, run) && n < |run| && h in run[n].flights && run[n].flights[h].Authorized?
    ensures Serving(run[n], h, run[n].flights[h].source, run[n].flights[h].session.who)
  {
    LT.RunAnswered(c, run, n);
    NoneIssuedYet(run[n], h);
  }

  lemma NoneIssuedYet(s: State, h: nat)
    requires LT.Answered(s) && h in s.flights && !s.flights[h].PairMinted? && !s.flights[h].AccessStored?
    ensures forall j :: 0 <= j < |s.log| && s.log[j].Issued? ==> s.log[j].request != h
  {
    forall j | 0 <= j < |s.log| && s.log[j].Issued? ensures s.log[j].request != h {
      assert LT.PairIsWith(s, s.log[j]);
    }
  }

  lemma {:induction false} ServingLasts(c: Config, run: seq<State>, n: nat, m: nat, h: nat, token: string, who: Identity)
    requires Run(c, run) && n <= m < |run|
    ensures Serving(run[n], h, token, who) ==> Serving(run[m], h, token, who)
  {
    if n < m {
      ServingLasts(c, run, n, m - 1, h, token, who);
      RunKeepsServing(c, run, m, h, token, who);
    }
  }

  /** A request that was authorized is never refused afterwards: in every interleaving it is on its way to
      its pair or was answered with it, and the pair is for the credential it popped and the identity that
      came with it. */
  lemma AuthorizedIsNeverRefused(c: Config, run: seq<State>, n: nat, m: nat, h: nat)
    requires Run(c, run) && n <= m < |run|
    requires h in run[n].flights && run[n].flights[h].Authorized?
    ensures Serving(run[m], h, run[n].flights[h].source, run[n].flights[h].session.who)
  {
    AuthorizedIsServing(c, run, n, h);
    ServingLasts(c, run, n, m, h, run[n].flights[h].source, run[n].flights[h].session.who);
  }
}
