/** server.py:46-55 over whole runs of both backends: when an access token that was handed out is accepted. */
module AccessRuns {
  import opened Prelude
  import opened Sessions
  import opened TokenStore
  import opened Grants
  import opened Lineage
  import opened Frames
  import opened RefreshRuns
  import LI = LineageInvariant
  import LT = LineageTheorems
  import P = Provenance
  import Revocation
  import Registration
  import ActiveClient

  /** The session that an issue writes under its access token. */
  function AccessSession(c: Config, e: Event): Session
    requires e.Issued?
  {
    Session(e.who, e.at + c.accessTtl as real)
  }

  ghost predicate WasRevoked(log: seq<Event>, token: string) {
    exists i :: 0 <= i < |log| && log[i].Revoked? && log[i].token == token
  }

  lemma RevokedStays(log: seq<Event>, log': seq<Event>, token: string)
    requires log <= log' && WasRevoked(log, token)
    ensures WasRevoked(log', token)
  {
    var i :| 0 <= i < |log| && log[i].Revoked? && log[i].token == token;
    assert log'[i] == log[i];
  }

  // --- access tokens are issued once --------------------------------------------------------------

  ghost predicate AccessIssuedOnce(log: seq<Event>) {
    forall i, j :: 0 <= i < j < |log| && log[i].Issued? && log[j].Issued? ==> log[i].access != log[j].access
  }

  lemma MintIssuesOnce(c: Config, s: State, h: nat, access: string, refresh: string)
    requires Named(s) && AccessIssuedOnce(s.log) && s.At(h) && s.flights[h].Authorized? && s.Unseen(access)
    ensures AccessIssuedOnce(DoMintPair(c, s, h, access, refresh).log)
  {
    forall i | 0 <= i < |s.log| && s.log[i].Issued? ensures s.log[i].access != access {
      assert s.log[i].access in Mentions(s.log[i]);
    }
  }

  lemma FrameIssuesOnce(s: State, a: Action, s': State)
    requires AccessIssuedOnce(s.log) && Framed(s, a, s') && !a.MintPair?
    ensures AccessIssuedOnce(s'.log)
  {
  }

  lemma StepIssuesOnce(c: Config, s: State, a: Action)
    requires Named(s) && AccessIssuedOnce(s.log) && Enabled(c, s, a)
    ensures AccessIssuedOnce(Apply(c, s, a).log)
  {
    if a.MintPair? {
      MintIssuesOnce(c, s, a.h, a.access, a.refresh);
    } else {
      StepFrame(c, s, a);
      FrameIssuesOnce(s, a, Apply(c, s, a));
    }
  }

  lemma {:induction false} RunIssuesOnce(c: Config, run: seq<State>, n: nat)
    requires Run(c, run) && n < |run|
    ensures AccessIssuedOnce(run[n].log)
  {
    if n > 0 {
      RunIssuesOnce(c, run, n - 1);
      LI.RunInv(c, run, n - 1);
      var a := LastAction(c, run, n);
      StepIssuesOnce(c, run[n - 1], a);
    }
  }

  /** What is stored under an access token is what its issue wrote. */
  ghost predicate SessionsMatch(c: Config, s: State) {
    forall i :: 0 <= i < |s.log| && s.log[i].Issued? && s.log[i].access in s.store.sessions ==>
      s.store.sessions[s.log[i].access] == AccessSession(c, s.log[i])
  }

  lemma RunSessionsMatch(c: Config, run: seq<State>, n: nat)
    requires Run(c, run) && n < |run|
    ensures SessionsMatch(c, run[n])
  {
    var s := run[n];
    RunIssuesOnce(c, run, n);
    P.RunTraced(c, run, n);
    forall i: nat | i < |s.log| && s.log[i].Issued? && s.log[i].access in s.store.sessions
      ensures s.store.sessions[s.log[i].access] == AccessSession(c, s.log[i])
    {
      TracedSession(c, s.log, s.now, s.log[i].access, s.store.sessions[s.log[i].access], i);
    }
  }

  lemma TracedSession(c: Config, log: seq<Event>, now: real, token: string, session: Session, i: nat)
    requires AccessIssuedOnce(log) && P.AccessTraced(c, log, now, token, session)
    requires i < |log| && log[i].Issued? && log[i].access == token
    ensures session == AccessSession(c, log[i])
  {
    var p :| P.IsAccess(c, log, p, token, session) && log[p.issue].at <= now;
  }

  // --- presence ---------------------------------------------------------------------------------

  /** Memory drops a session when it finds it expired; Redis may lose it in the second before. */
  predicate AccessMayBeLost(c: Config, bound: real, now: real) {
    bound <= now || MayBeLost(c, bound, now)
  }

  /** An issued access token is on its way into the store, or in it, or was revoked, or is late. */
  ghost predicate AccessKept(c: Config, s: State, e: Event)
    requires e.Issued?
  {
    || WasRevoked(s.log, e.access)
    || e.access in s.store.sessions
    || (e.request in s.flights && s.flights[e.request].PairMinted? && s.flights[e.request].access == e.access)
    || AccessMayBeLost(c, e.at + c.accessTtl as real, s.now)
  }

  ghost predicate AccessesKept(c: Config, s: State) {
    forall i :: 0 <= i < |s.log| && s.log[i].Issued? ==> AccessKept(c, s, s.log[i])
  }

  /** The tokens that stay where they are, in the store or in the hands of their issuer. */
  ghost predicate AccessesStay(s: State, s': State) {
    && s.log <= s'.log && s.now <= s'.now
    && s.store.sessions.Keys <= s'.store.sessions.Keys
    && (forall i :: |s.log| <= i < |s'.log| ==> !s'.log[i].Issued?)
    && forall h :: h in s.flights && s.flights[h].PairMinted? && s.flights[h].access !in s'.store.sessions ==>
         h in s'.flights && s'.flights[h] == s.flights[h]
  }

  lemma StayingKeepsAccesses(c: Config, s: State, s': State)
    requires AccessesKept(c, s) && AccessesStay(s, s')
    ensures AccessesKept(c, s')
  {
    forall i | 0 <= i < |s'.log| && s'.log[i].Issued? ensures AccessKept(c, s', s'.log[i]) {
      assert s'.log[i] == s.log[i];
      assert AccessKept(c, s, s.log[i]);
      if WasRevoked(s.log, s.log[i].access) {
        RevokedStays(s.log, s'.log, s.log[i].access);
      }
    }
  }

  lemma FrameLetsAccessesStay(c: Config, s: State, a: Action, s': State)
    requires Enabled(c, s, a) && Named(s) && Framed(s, a, s') && s'.store.sessions == s.store.sessions
    requires !a.MintPair? && !a.StoreAccess?
    ensures AccessesStay(s, s')
  {
  }

  lemma StoreLetsAccessesStay(s: State, h: nat)
    requires s.At(h) && s.flights[h].PairMinted?
    ensures AccessesStay(s, DoStoreAccess(s, h))
  {
  }

  lemma MintKeepsAccesses(c: Config, s: State, h: nat, access: string, refresh: string)
    requires AccessesKept(c, s) && s.At(h) && s.flights[h].Authorized?
    ensures AccessesKept(c, DoMintPair(c, s, h, access, refresh))
  {
    var s' := DoMintPair(c, s, h, access, refresh);
    forall i | 0 <= i < |s'.log| && s'.log[i].Issued? ensures AccessKept(c, s', s'.log[i]) {
      if i < |s.log| {
        assert s'.log[i] == s.log[i];
        assert AccessKept(c, s, s.log[i]);
        if WasRevoked(s.log, s.log[i].access) {
          RevokedStays(s.log, s'.log, s.log[i].access);
        }
      }
    }
  }

  /** Whatever a step takes from the sessions was expired or is being revoked. */
  ghost predicate TakesOnlyLate(c: Config, s: State, s': State) {
    && s.log <= s'.log && s.now <= s'.now
    && (forall i :: |s.log| <= i < |s'.log| ==> !s'.log[i].Issued?)
    && (forall h :: h in s.flights && s.flights[h].PairMinted? ==> h in s'.flights && s'.flights[h] == s.flights[h])
    && forall t :: t in s.store.sessions && t !in s'.store.sessions ==>
         WasRevoked(s'.log, t) || AccessMayBeLost(c, s.store.sessions[t].expiresAt, s'.now)
  }

  lemma TakingKeepsAccesses(c: Config, s: State, s': State)
    requires AccessesKept(c, s) && SessionsMatch(c, s) && TakesOnlyLate(c, s, s')
    ensures AccessesKept(c, s')
  {
    forall i | 0 <= i < |s'.log| && s'.log[i].Issued? ensures AccessKept(c, s', s'.log[i]) {
      assert s'.log[i] == s.log[i];
      assert AccessKept(c, s, s.log[i]);
      if WasRevoked(s.log, s.log[i].access) {
        RevokedStays(s.log, s'.log, s.log[i].access);
      }
    }
  }

  lemma LookupTakesOnlyLate(c: Config, s: State, token: string)
    ensures TakesOnlyLate(c, s, DoLookup(s, token))
  {
  }

  lemma RevokeTakesOnlyLate(c: Config, s: State, token: string)
    requires Named(s)
    ensures TakesOnlyLate(c, s, DoRevoke(s, token))
  {
    assert DoRevoke(s, token).log[|s.log|] == Revoked(s.now, token);
  }

  lemma PurgeTakesOnlyLate(c: Config, s: State, h: nat)
    requires ReadingsPast(s) && s.At(h) && s.flights[h].RevokePurging?
    ensures TakesOnlyLate(c, s, DoRevokePurge(c, s, h))
  {
  }

  lemma TickTakesOnlyLate(c: Config, s: State, now: Instant, gone: Gone)
    requires s.now <= now && MayGo(c, s, now, gone)
    ensures TakesOnlyLate(c, s, s.(now := now, store := Drop(s.store, gone)))
  {
  }

  lemma TakingStep(c: Config, s: State, a: Action)
    requires Named(s) && ReadingsPast(s) && Enabled(c, s, a) && (a.Tick? || a.Lookup? || a.Revoke? || a.RevokePurge?)
    ensures TakesOnlyLate(c, s, Apply(c, s, a))
  {
    match a
    case Tick(now, gone) => TickTakesOnlyLate(c, s, now, gone);
    case Lookup(token) => LookupTakesOnlyLate(c, s, token);
    case Revoke(token) => RevokeTakesOnlyLate(c, s, token);
    case RevokePurge(h) => PurgeTakesOnlyLate(c, s, h);
  }

  lemma StepKeepsAccesses(c: Config, s: State, a: Action)
    requires Named(s) && AccessesKept(c, s) && SessionsMatch(c, s) && ReadingsPast(s) && Enabled(c, s, a)
    ensures AccessesKept(c, Apply(c, s, a))
  {
    var s' := Apply(c, s, a);
    if a.Tick? || a.Lookup? || a.Revoke? || a.RevokePurge? {
      TakingStep(c, s, a);
      TakingKeepsAccesses(c, s, s');
    } else if a.MintPair? {
      MintKeepsAccesses(c, s, a.h, a.access, a.refresh);
    } else {
      if a.StoreAccess? {
        StoreLetsAccessesStay(s, a.h);
      } else {
        StepFrame(c, s, a);
        FrameLetsAccessesStay(c, s, a, s');
      }
      StayingKeepsAccesses(c, s, s');
    }
  }

  lemma {:induction false} RunAccessesKept(c: Config, run: seq<State>, n: nat)
    requires Run(c, run) && n < |run|
    ensures AccessesKept(c, run[n])
  {
    if n > 0 {
      RunAccessesKept(c, run, n - 1);
      RunSessionsMatch(c, run, n - 1);
      RunReadingsPast(c, run, n - 1);
      LI.RunInv(c, run, n - 1);
      var a := LastAction(c, run, n);
      StepKeepsAccesses(c, run[n - 1], a);
    }
  }

  // --- lookups ------------------------------------------------------------------------------------

  /** What a lookup answers about a token that was handed out: never anything but its own session, nothing
      once its bound has come, and its session as long as it is unrevoked and in time. */
  lemma AcceptedInTime(c: Config, run: seq<State>, n: nat, i: nat)
    requires Run(c, run) && n < |run|
    requires i < |run[n].log| && run[n].log[i].Issued? && run[n].log[i].request in run[n].replies
    ensures var s, e := run[n], run[n].log[i];
            var bound, answer := e.at + c.accessTtl as real, s.store.GetSession(e.access, s.now).1;
            && (answer == None || answer == Some(AccessSession(c, e)))
            && (bound <= s.now ==> answer == None)
            && (!WasRevoked(s.log, e.access) && !AccessMayBeLost(c, bound, s.now) ==> answer == Some(AccessSession(c, e)))
  {
    var s, e := run[n], run[n].log[i];
    RunAccessesKept(c, run, n);
    RunSessionsMatch(c, run, n);
    LT.RunAnswered(c, run, n);
    assert AccessKept(c, s, e);
  }

  /** The step that revoked a token. */
  lemma RevokingStep(c: Config, run: seq<State>, r: nat, n: nat, token: string) returns (k: nat)
    requires Run(c, run) && r <= n < |run| && WasRevoked(run[n].log, token) && !WasRevoked(run[r].log, token)
    ensures r <= k < n && run[k + 1] == DoRevoke(run[k], token)
  {
    var log := run[n].log;
    var i: nat :| i < |log| && log[i].Revoked? && log[i].token == token;
    k := Registration.StepThatLogged(c, run, n, i);
    var a := ActionThatLogged(c, run, k + 1);
    assert run[k + 1] == DoRevoke(run[k], a.token);
    assert run[k + 1].log[i] == Revoked(run[k].now, a.token);
    assert WasRevoked(run[k + 1].log, token);
    if k < r {
      ActiveClient.LogsExtend(c, run, k + 1, r);
      RevokedStays(run[k + 1].log, run[r].log, token);
    }
  }

  /** In every run, once a token has been handed out (in state `r`, unrevoked), a lookup accepts it if and only
      if it has not been revoked since and its `access_ttl` is not over; only Redis may refuse it a second
      earlier. What is accepted is the session of its own issue. */
  lemma AcceptedIffUnrevokedInTime(c: Config, run: seq<State>, r: nat, n: nat, i: nat)
    requires Run(c, run) && r <= n < |run|
    requires i < |run[r].log| && run[r].log[i].Issued? && ActiveClient.Paid(run[r], run[r].log[i].request)
    requires !WasRevoked(run[r].log, run[r].log[i].access)
    ensures var s, e := run[n], run[r].log[i];
            var bound, answer := e.at + c.accessTtl as real, s.store.GetSession(e.access, s.now).1;
            && (WasRevoked(s.log, e.access) || bound <= s.now ==> answer == None)
            && (!WasRevoked(s.log, e.access) && s.now < bound && !MayBeLost(c, bound, s.now) ==> answer == Some(AccessSession(c, e)))
            && (answer == None || answer == Some(AccessSession(c, e)))
  {
    var e := run[r].log[i];
    ActiveClient.LogsExtend(c, run, r, n);
    assert run[n].log[i] == e;
    ActiveClient.RepliesStay(c, run, r, n, e.request);
    AcceptedInTime(c, run, n, i);
    if WasRevoked(run[n].log, e.access) {
      var k := RevokingStep(c, run, r, n, e.access);
      ActiveClient.RepliesStay(c, run, r, k, e.request);
      LT.RunAnswered(c, run, r);
      assert LT.PairIsWith(run[r], e);
      Revocation.RevokedIsNeverAccepted(c, run, k, n, e.request);
    }
  }
}
