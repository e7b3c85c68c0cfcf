/** auth/routes.py:502-511 over whole runs: an access token that was handed out and then revoked is
    never accepted again, whatever other requests do. Section 2 of RFC 7009. */
module Revocation {
  import opened Prelude
  import opened Sessions
  import opened TokenStore
  import opened Grants
  import opened Frames
  import LT = LineageTheorems
  import Replies
  import Lineage
  import RR = RefreshRuns
  import ActiveClient

  /** The access token that a request has minted and is not done with. */
  function Access<S>(f: Flight<S>): Option<string> {
    if f.PairMinted? || f.AccessStored? then Some(f.access) else None
  }

  /** Access tokens are minted once: no request carries another's, or one that was handed out. */
  ghost predicate AccessOnce(s: State) {
    && (forall h :: h in s.flights && Access(s.flights[h]).Some? ==> Access(s.flights[h]).value in s.minted)
    && (forall h, k :: h in s.flights && k in s.flights && Access(s.flights[h]).Some?
                       && Access(s.flights[h]) == Access(s.flights[k])
          ==> h == k)
    && (forall k :: k in s.replies && s.replies[k].Pair? ==> Done(s, s.replies[k].access))
  }

  /** The token was minted, and no request carries it. */
  ghost predicate Done(s: State, token: string) {
    token in s.minted && forall h :: h in s.flights ==> Access(s.flights[h]) != Some(token)
  }

  lemma PairStepKeepsAccessOnce(c: Config, s: State, a: Action)
    requires AccessOnce(s) && Enabled(c, s, a) && (a.MintPair? || a.StoreAccess? || a.StoreRefresh?)
    ensures AccessOnce(Apply(c, s, a))
  {
    var s' := Apply(c, s, a);
    forall k | k in s'.replies && s'.replies[k].Pair? ensures Done(s', s'.replies[k].access) {
      if k in s.replies && s'.replies[k] == s.replies[k] {
        assert Done(s, s.replies[k].access);
      }
    }
  }

  /** No request takes up an access token, and no pair is handed out. */
  ghost predicate LeavesPairs(s: State, s': State) {
    && s.minted <= s'.minted
    && (forall h :: h in s'.flights && Access(s'.flights[h]).Some? ==> h in s.flights && s.flights[h] == s'.flights[h])
    && (forall k :: k in s'.replies && s'.replies[k].Pair? ==> k in s.replies && s'.replies[k] == s.replies[k])
  }

  lemma LeavingKeepsAccessOnce(s: State, s': State)
    requires AccessOnce(s) && LeavesPairs(s, s')
    ensures AccessOnce(s')
  {
    forall k | k in s'.replies && s'.replies[k].Pair? ensures Done(s', s'.replies[k].access) {
      assert Done(s, s.replies[k].access);
    }
  }

  ghost predicate FlightsLeave(s: State, s': State) {
    && s.minted <= s'.minted
    && forall h :: h in s'.flights && Access(s'.flights[h]).Some? ==> h in s.flights && s.flights[h] == s'.flights[h]
  }

  lemma FrameLeavesFlights(s: State, a: Action, s': State)
    requires Framed(s, a, s') && !a.MintPair? && !a.StoreAccess? && !a.StoreRefresh?
    ensures FlightsLeave(s, s')
  {
  }

  lemma FlightsLeavePairs(c: Config, s: State, a: Action)
    requires Enabled(c, s, a) && !a.MintPair? && !a.StoreAccess? && !a.StoreRefresh?
    ensures FlightsLeave(s, Apply(c, s, a))
  {
    StepFrame(c, s, a);
    FrameLeavesFlights(s, a, Apply(c, s, a));
  }

  lemma RepliesLeavePairs(c: Config, s: State, a: Action, k: nat)
    requires LT.Answered(s) && Enabled(c, s, a) && !a.StoreRefresh?
    requires k in Apply(c, s, a).replies && Apply(c, s, a).replies[k].Pair?
    ensures k in s.replies && Apply(c, s, a).replies[k] == s.replies[k]
  {
    if k in s.replies {
      StepFrame(c, s, a);
      Replies.AnsweredOnce(c, s, a, k);
    } else {
      OnlyStoreRefreshPays(c, s, a, k);
    }
  }

  lemma StepKeepsAccessOnce(c: Config, s: State, a: Action)
    requires AccessOnce(s) && LT.Answered(s) && Enabled(c, s, a)
    ensures AccessOnce(Apply(c, s, a))
  {
    if a.MintPair? || a.StoreAccess? || a.StoreRefresh? {
      PairStepKeepsAccessOnce(c, s, a);
    } else {
      var s' := Apply(c, s, a);
      FlightsLeavePairs(c, s, a);
      forall k | k in s'.replies && s'.replies[k].Pair? ensures k in s.replies && s'.replies[k] == s.replies[k] {
        RepliesLeavePairs(c, s, a, k);
      }
      LeavingKeepsAccessOnce(s, s');
    }
  }

  lemma OnlyStoreRefreshPays(c: Config, s: State, a: Action, k: nat)
    requires Enabled(c, s, a) && !a.StoreRefresh?
    requires k in Apply(c, s, a).replies && k !in s.replies
    ensures !Apply(c, s, a).replies[k].Pair?
  {
    if !a.LoginStore? && !a.RegisterStore? {
      Replies.OtherStepsHandNothingOut(c, s, a, k);
    }
  }

  lemma {:induction false} RunAccessOnce(c: Config, run: seq<State>, n: nat)
    requires Run(c, run) && n < |run|
    ensures AccessOnce(run[n])
  {
    if n > 0 {
      RunAccessOnce(c, run, n - 1);
      LT.RunAnswered(c, run, n - 1);
      var a := LastAction(c, run, n);
      StepKeepsAccessOnce(c, run[n - 1], a);
    }
  }

  /** The token is not in the store, and no request will put it there. */
  ghost predicate Dead(s: State, token: string) {
    && token in s.minted && token !in s.store.sessions
    && forall h :: h in s.flights ==> !(s.flights[h].PairMinted? && s.flights[h].access == token)
  }

  lemma PairStepKeepsDead(c: Config, s: State, a: Action, token: string)
    requires Dead(s, token) && Enabled(c, s, a) && (a.MintPair? || a.StoreAccess?)
    ensures Dead(Apply(c, s, a), token)
  {
  }

  lemma FrameKeepsDead(s: State, a: Action, s': State, token: string)
    requires Dead(s, token) && Framed(s, a, s') && !a.MintPair? && !a.StoreAccess?
    ensures Dead(s', token)
  {
  }

  lemma StepKeepsDead(c: Config, s: State, a: Action, token: string)
    requires Dead(s, token) && Enabled(c, s, a)
    ensures Dead(Apply(c, s, a), token)
  {
    if a.MintPair? || a.StoreAccess? {
      PairStepKeepsDead(c, s, a, token);
    } else {
      StepFrame(c, s, a);
      FrameKeepsDead(s, a, Apply(c, s, a), token);
    }
  }

  /** Only what is stored is accepted. */
  lemma AcceptedIsStored(c: Config, s: State, a: Action)
    requires Enabled(c, s, a)
    ensures var log' := Apply(c, s, a).log;
            |log'| > |s.log| && log'[|s.log|].Accepted? ==> log'[|s.log|].token in s.store.sessions
  {
    StepFrame(c, s, a);
    if a.Lookup? {
      assert Apply(c, s, a) == DoLookup(s, a.token);
    }
  }

  /** No lookup from position `from` of the log on accepted the token. */
  ghost predicate NotAccepted(log: seq<Event>, from: nat, token: string) {
    from <= |log| && forall i :: from <= i < |log| && log[i].Accepted? ==> log[i].token != token
  }

  lemma StepKeepsNotAccepted(c: Config, s: State, a: Action, from: nat, token: string)
    requires Dead(s, token) && NotAccepted(s.log, from, token) && Enabled(c, s, a)
    ensures NotAccepted(Apply(c, s, a).log, from, token)
  {
    AcceptedIsStored(c, s, a);
    LogGrowsByOne(c, s, a);
    LongerNotAccepted(s.log, Apply(c, s, a).log, from, token);
  }

  lemma LongerNotAccepted(log: seq<Event>, log': seq<Event>, from: nat, token: string)
    requires NotAccepted(log, from, token) && log <= log' && |log'| <= |log| + 1
    requires |log'| > |log| && log'[|log|].Accepted? ==> log'[|log|].token != token
    ensures NotAccepted(log', from, token)
  {
  }

  /** The token is dead, and was not accepted from position `from` on. */
  ghost predicate StaysOut(s: State, from: nat, token: string) {
    Dead(s, token) && NotAccepted(s.log, from, token)
  }

  lemma StepKeepsOut(c: Config, s: State, a: Action, from: nat, token: string)
    requires Enabled(c, s, a)
    ensures StaysOut(s, from, token) ==> StaysOut(Apply(c, s, a), from, token)
  {
    if StaysOut(s, from, token) {
      StepKeepsDead(c, s, a, token);
      StepKeepsNotAccepted(c, s, a, from, token);
    }
  }

  lemma RunKeepsOut(c: Config, run: seq<State>, m: nat, from: nat, token: string)
    requires Run(c, run) && 0 < m < |run|
    ensures StaysOut(run[m - 1], from, token) ==> StaysOut(run[m], from, token)
  {
    var a := LastAction(c, run, m);
    StepKeepsOut(c, run[m - 1], a, from, token);
  }

  lemma {:induction false} RunStaysOut(c: Config, run: seq<State>, n: nat, m: nat, from: nat, token: string)
    requires Run(c, run) && n <= m < |run|
    ensures StaysOut(run[n], from, token) ==> StaysOut(run[m], from, token)
  {
    if n < m {
      RunStaysOut(c, run, n, m - 1, from, token);
      RunKeepsOut(c, run, m, from, token);
    }
  }

  /** From the revocation of a token that some request was answered with, that token is in no store and
      on nobody's way there, and no lookup accepts it. */
  lemma RevokedIsNeverAccepted(c: Config, run: seq<State>, n: nat, m: nat, k: nat)
    requires Run(c, run) && n < m < |run|
    requires k in run[n].replies && run[n].replies[k].Pair?
    requires run[n + 1] == DoRevoke(run[n], run[n].replies[k].access)
    ensures StaysOut(run[m], |run[n].log|, run[n].replies[k].access)
  {
    RunAccessOnce(c, run, n);
    RevokingKills(run[n], k, run[n + 1]);
    RunStaysOut(c, run, n + 1, m, |run[n].log|, run[n].replies[k].access);
  }

  lemma RevokingKills(s: State, k: nat, s': State)
    requires AccessOnce(s) && k in s.replies && s.replies[k].Pair?
    requires s' == DoRevoke(s, s.replies[k].access)
    ensures StaysOut(s', |s.log|, s.replies[k].access)
  {
    assert Done(s, s.replies[k].access);
  }

  /** Revoking an access token leaves its pair's refresh token alone: in every later state the access token is
      dead, and yet the refresh token, unspent and in time, is still honoured for the same identity. */
  lemma RevocationSparesRefresh(c: Config, run: seq<State>, n: nat, m: nat, k: nat, i: nat, h: nat)
    requires Run(c, run) && n < m < |run|
    requires k in run[n].replies && run[n].replies[k].Pair?
    requires run[n + 1] == DoRevoke(run[n], run[n].replies[k].access)
    requires i < |run[m].log| && RR.IsIssueTo(run[m].log[i], k) && run[m].log[i].refresh == run[n].replies[k].refresh
    requires Enabled(c, run[m], TakeRefresh(h)) && run[m].flights[h].token == run[n].replies[k].refresh
    requires !Lineage.WasPopped(run[m].log, run[n].replies[k].refresh)
    requires var bound := run[m].log[i].at + c.refreshTtl as real;
             run[m].now < bound && !RR.MayBeLost(c, bound, run[m].now)
    ensures var pair := run[n].replies[k];
            && run[m].store.GetSession(pair.access, run[m].now).1 == None
            && h in DoTakeRefresh(run[m], h).flights
            && DoTakeRefresh(run[m], h).flights[h] == Authorized(pair.refresh, RR.NextSession(c, run[m].log[i]))
  {
    RevokedIsNeverAccepted(c, run, n, m, k);
    ActiveClient.RepliesStay(c, run, n, m, k);
    RR.RefusedIffSpentOrExpired(c, run, m, i, h);
  }
}
