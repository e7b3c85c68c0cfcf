/** A client that refreshes in time is never logged out: over whole runs, for any number of refreshes, with
    any other requests in between. */
module ActiveClient {
  import opened Prelude
  import opened Sessions
  import opened TokenStore
  import opened Grants
  import opened Lineage
  import opened RefreshRuns
  import Frames
  import LI = LineageInvariant
  import LT = LineageTheorems
  import Replies
  import Chains

  /** Request `h` presents its refresh token in the step that leads on from state `m`. */
  datatype Visit = Visit(m: nat, h: nat)

  ghost predicate Paid(s: State, h: nat) {
    h in s.replies && s.replies[h].Pair?
  }

  /** Strictly before the bound in memory; with Redis at least a second before it. */
  predicate InTime(c: Config, bound: real, now: real) {
    now < bound && !MayBeLost(c, bound, now)
  }

  /** The client presents the refresh token it was given by request `prev`, once that was answered, before
      anybody else did, and in time. Nothing is said about what it is answered. */
  ghost predicate Visits(c: Config, run: seq<State>, prev: nat, v: Visit) {
    && v.m + 1 < |run|
    && v.h in run[v.m].flights && run[v.m].flights[v.h].RefreshRequested?
    && run[v.m + 1] == DoTakeRefresh(run[v.m], v.h)
    && prev in run[v.m].replies
    && (Paid(run[v.m], prev) ==>
          && run[v.m].flights[v.h].token == run[v.m].replies[prev].refresh
          && !WasPopped(run[v.m].log, run[v.m].replies[prev].refresh)
          && forall i :: 0 <= i < |run[v.m].log| && IsIssueTo(run[v.m].log[i], prev) ==>
               InTime(c, run[v.m].log[i].at + c.refreshTtl as real, run[v.m].now))
  }

  /** Whose pair the `k`-th visit presents: the first request's, or the previous visit's. */
  function Giver(first: nat, visits: seq<Visit>, k: nat): nat
    requires k <= |visits|
  {
    if k == 0 then first else visits[k - 1].h
  }

  ghost predicate Conduct(c: Config, run: seq<State>, first: nat, visits: seq<Visit>) {
    && (forall k: nat :: k < |visits| ==> Visits(c, run, Giver(first, visits, k), visits[k]))
    && (forall k: nat :: k + 1 < |visits| ==> visits[k].m < visits[k + 1].m)
  }

  /** Whatever was ever issued to request `h` descends from the login at `root` and is for its identity. */
  ghost predicate IssuesFrom(c: Config, run: seq<State>, h: nat, root: int)
    requires run != []
  {
    var log := run[|run| - 1].log;
    && 0 <= root < |log| && log[root].LoggedIn?
    && forall j: nat :: j < |log| && IsIssueTo(log[j], h) ==> Root(log, log[j].refresh) == root && log[j].who == log[root].who
  }

  /** The visit is honoured: the request gets hold of a session for the identity of the login at `root`, is
      never refused in any later state, and what is issued to it descends from that login. */
  ghost predicate HonouredVisit(c: Config, run: seq<State>, v: Visit, root: int)
    requires run != []
  {
    var log := run[|run| - 1].log;
    && IssuesFrom(c, run, v.h, root)
    && v.m + 1 < |run| && v.h in run[v.m].flights && run[v.m].flights[v.h].RefreshRequested?
    && v.h in run[v.m + 1].flights && run[v.m + 1].flights[v.h].Authorized?
    && run[v.m + 1].flights[v.h].session.who == log[root].who
    && forall m :: v.m < m < |run| ==> Serving(run[m], v.h, run[v.m].flights[v.h].token, log[root].who)
  }

  // --- logs only grow -------------------------------------------------------------------------

  lemma {:induction false} LogsExtend(c: Config, run: seq<State>, n: nat, m: nat)
    requires Run(c, run) && n <= m < |run|
    ensures run[n].log <= run[m].log
  {
    if n < m {
      LogsExtend(c, run, n, m - 1);
      Frames.LogGrows(c, run, m);
    }
  }

  /** The issue behind a pair that was handed out; there is only one. */
  lemma IssueBehind(c: Config, run: seq<State>, m: nat, h: nat) returns (i: nat)
    requires Run(c, run) && m < |run| && Paid(run[m], h)
    ensures i < |run[m].log| && IsIssueTo(run[m].log[i], h) && run[m].log[i].refresh == run[m].replies[h].refresh
  {
    Replies.RunAccountable(c, run, m);
    var r := run[m].replies[h];
    assert Replies.Justified(c, run[m].log, h, r);
    i :| 0 <= i < |run[m].log| && Replies.IsIssue(run[m].log[i], h, r.access, r.refresh);
  }

  lemma IssuesAreOne(c: Config, run: seq<State>, m: nat, h: nat, i: nat, j: nat)
    requires Run(c, run) && m < |run| && Paid(run[m], h)
    requires i < |run[m].log| && j < |run[m].log| && IsIssueTo(run[m].log[i], h) && IsIssueTo(run[m].log[j], h)
    ensures i == j
  {
    LT.RunAnswered(c, run, m);
    LI.RunInv(c, run, m);
    BothAreTheReply(run[m], h, i);
    BothAreTheReply(run[m], h, j);
    Chains.MintAtOnePlace(run[m].log, i, j, run[m].replies[h].refresh);
  }

  lemma BothAreTheReply(s: State, h: nat, i: nat)
    requires LT.Answered(s) && Paid(s, h) && i < |s.log| && IsIssueTo(s.log[i], h)
    ensures s.log[i].refresh == s.replies[h].refresh
  {
    assert LT.PairIsWith(s, s.log[i]);
  }

  // --- one visit ------------------------------------------------------------------------------

  /** An answered pair stays answered, and nothing more is issued to its request. */
  lemma PaidStays(c: Config, run: seq<State>, m: nat, h: nat)
    requires Run(c, run) && m < |run| && Paid(run[m], h)
    ensures Paid(run[|run| - 1], h)
  {
    RepliesStay(c, run, m, |run| - 1, h);
  }

  lemma {:induction false} RepliesStay(c: Config, run: seq<State>, n: nat, m: nat, h: nat)
    requires Run(c, run) && n <= m < |run| && h in run[n].replies
    ensures h in run[m].replies && run[m].replies[h] == run[n].replies[h]
  {
    if n < m {
      RepliesStay(c, run, n, m - 1, h);
      LT.RunAnswered(c, run, m - 1);
      var a := LastAction(c, run, m);
      Frames.StepFrame(c, run[m - 1], a);
      Replies.AnsweredOnce(c, run[m - 1], a, h);
    }
  }

  /** The login at the root of the pair that a request was answered with. */
  lemma RootOfPaid(c: Config, run: seq<State>, m: nat, h: nat) returns (root: int)
    requires Run(c, run) && m < |run| && Paid(run[m], h)
    ensures IssuesFrom(c, run, h, root)
  {
    var last := |run| - 1;
    PaidStays(c, run, m, h);
    var i := IssueBehind(c, run, last, h);
    Chains.PairIsForItsLogin(c, run, last, i);
    var log := run[last].log;
    root := Root(log, log[i].refresh);
    forall j: nat | j < |log| && IsIssueTo(log[j], h) ensures j == i {
      IssuesAreOne(c, run, last, h, i, j);
    }
  }

  /** In time and unspent, the token is honoured, for the identity at the root. */
  lemma VisitIsAuthorized(c: Config, run: seq<State>, prev: nat, v: Visit, root: int)
    requires Run(c, run) && Visits(c, run, prev, v) && Paid(run[v.m], prev) && IssuesFrom(c, run, prev, root)
    ensures var s', token := run[v.m + 1], run[v.m].flights[v.h].token;
            && v.h in s'.flights && s'.flights[v.h].Authorized? && s'.flights[v.h].source == token
            && s'.flights[v.h].session.who == run[|run| - 1].log[root].who
            && Root(run[|run| - 1].log, token) == root
  {
    var i := IssueBehind(c, run, v.m, prev);
    LogsExtend(c, run, v.m, |run| - 1);
    assert run[|run| - 1].log[i] == run[v.m].log[i];
    RefusedIffSpentOrExpired(c, run, v.m, i, v.h);
  }

  lemma VisitIsHonoured(c: Config, run: seq<State>, prev: nat, v: Visit, root: int)
    requires Run(c, run) && Visits(c, run, prev, v) && Paid(run[v.m], prev) && IssuesFrom(c, run, prev, root)
    ensures HonouredVisit(c, run, v, root)
  {
    var last, token := |run| - 1, run[v.m].flights[v.h].token;
    var log := run[last].log;
    VisitIsAuthorized(c, run, prev, v, root);
    forall m: nat | v.m < m < |run| ensures Serving(run[m], v.h, token, log[root].who) {
      AuthorizedIsNeverRefused(c, run, v.m + 1, m, v.h);
    }
    forall j: nat | j < |log| && IsIssueTo(log[j], v.h)
      ensures Root(log, log[j].refresh) == root && log[j].who == log[root].who
    {
      assert Serving(run[last], v.h, token, log[root].who);
      Chains.PairIsForItsLogin(c, run, last, j);
    }
  }

  // --- any number of visits -------------------------------------------------------------------

  lemma {:induction false} VisitsAreHonoured(c: Config, run: seq<State>, first: nat, visits: seq<Visit>, root: int, k: nat)
    requires Run(c, run) && Conduct(c, run, first, visits) && k < |visits|
    requires Paid(run[visits[0].m], first) && IssuesFrom(c, run, first, root)
    ensures HonouredVisit(c, run, visits[k], root)
  {
    var v := visits[k];
    assert Visits(c, run, Giver(first, visits, k), v);
    if k > 0 {
      var u := visits[k - 1];
      VisitsAreHonoured(c, run, first, visits, root, k - 1);
      assert visits[k - 1].m < visits[k - 1 + 1].m;
      assert Serving(run[v.m], u.h, run[u.m].flights[u.h].token, run[|run| - 1].log[root].who);
      AnsweredMeansPaid(c, run, v.m, u.h, run[u.m].flights[u.h].token, run[|run| - 1].log[root].who);
    }
    VisitIsHonoured(c, run, Giver(first, visits, k), v, root);
  }

  lemma AnsweredMeansPaid(c: Config, run: seq<State>, m: nat, h: nat, token: string, who: Identity)
    requires Run(c, run) && m < |run| && Serving(run[m], h, token, who) && h in run[m].replies
    ensures Paid(run[m], h)
  {
    LT.RunAnswered(c, run, m);
  }

  /** For every number of refreshes: a client that was once given a pair, and then presents the refresh token
      of each pair it is given, unspent and within `refresh_ttl` of its issue (with Redis a second earlier),
      is honoured every time. Each of its requests gets a session for the identity of one login, is refused
      in no later state, and is issued nothing but pairs for that identity and lineage. */
  lemma NeverLoggedOut(c: Config, run: seq<State>, first: nat, visits: seq<Visit>) returns (root: int)
    requires Run(c, run) && visits != [] && Conduct(c, run, first, visits)
    requires Paid(run[visits[0].m], first)
    ensures 0 <= root < |run[|run| - 1].log| && run[|run| - 1].log[root].LoggedIn?
    ensures IssuesFrom(c, run, first, root)
    ensures forall k: nat :: k < |visits| ==> HonouredVisit(c, run, visits[k], root)
  {
    assert Visits(c, run, Giver(first, visits, 0), visits[0]);
    root := RootOfPaid(c, run, visits[0].m, first);
    forall k: nat | k < |visits| ensures HonouredVisit(c, run, visits[k], root) {
      VisitsAreHonoured(c, run, first, visits, root, k);
    }
  }
}
