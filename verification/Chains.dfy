/** The login at the root of every issued pair, and the identity it validated. */
module Chains {
  import opened Prelude
  import opened Sessions
  import opened TokenStore
  import opened Grants
  import opened Lineage
  import opened Frames
  import opened Provenance
  import LI = LineageInvariant
  import LT = LineageTheorems

  /** The pair issued at position `i` is the end of a sound chain. */
  ghost predicate IssueTraced(c: Config, log: seq<Event>, i: nat) {
    exists p :: Sound(c, log, p) && p.issue == i
  }

  ghost predicate IssuesTraced(c: Config, log: seq<Event>) {
    forall i: nat :: i < |log| && log[i].Issued? ==> IssueTraced(c, log, i)
  }

  lemma IssueTracedMono(c: Config, log: seq<Event>, log': seq<Event>, i: nat)
    requires IssueTraced(c, log, i) && log <= log'
    ensures IssueTraced(c, log', i)
  {
    var p :| Sound(c, log, p) && p.issue == i;
    SoundMono(c, log, log', p);
  }

  lemma MintPairIsTraced(c: Config, s: State, h: nat, access: string, refresh: string)
    requires Traced(c, s) && Enabled(c, s, MintPair(h, access, refresh))
    ensures IssueTraced(c, DoMintPair(c, s, h, access, refresh).log, |s.log|)
  {
    var log', f := DoMintPair(c, s, h, access, refresh).log, s.flights[h];
    assert FlightTraced(c, s.log, s.now, h, f);
    var t :| Entitled(c, s.log, h, f.source, f.session.who, t) && LastOf(t) < |s.log| && TimeOf(s.log[LastOf(t)]) <= s.now;
    EntitledMono(c, s.log, log', h, f.source, f.session.who, t);
    assert Sound(c, log', Path(t, |s.log|));
  }

  lemma NewIssueIsTraced(c: Config, s: State, a: Action)
    requires Traced(c, s) && Enabled(c, s, a)
    ensures var log' := Apply(c, s, a).log;
            |log'| > |s.log| && log'[|s.log|].Issued? ==> IssueTraced(c, log', |s.log|)
  {
    StepFrame(c, s, a);
    if a.MintPair? {
      MintPairIsTraced(c, s, a.h, a.access, a.refresh);
    }
  }

  lemma LongerTracesIssues(c: Config, log: seq<Event>, log': seq<Event>)
    requires IssuesTraced(c, log) && log <= log' && |log'| <= |log| + 1
    requires |log'| > |log| && log'[|log|].Issued? ==> IssueTraced(c, log', |log|)
    ensures IssuesTraced(c, log')
  {
    forall i: nat | i < |log'| && log'[i].Issued? ensures IssueTraced(c, log', i) {
      if i < |log| {
        assert log'[i] == log[i];
        IssueTracedMono(c, log, log', i);
      }
    }
  }

  lemma StepTracesIssues(c: Config, s: State, a: Action)
    requires Traced(c, s) && IssuesTraced(c, s.log) && Enabled(c, s, a)
    ensures IssuesTraced(c, Apply(c, s, a).log)
  {
    NewIssueIsTraced(c, s, a);
    LogGrowsByOne(c, s, a);
    LongerTracesIssues(c, s.log, Apply(c, s, a).log);
  }

  lemma {:induction false} RunTracesIssues(c: Config, run: seq<State>, n: nat)
    requires Run(c, run) && n < |run|
    ensures IssuesTraced(c, run[n].log)
  {
    if n > 0 {
      RunTracesIssues(c, run, n - 1);
      RunTraced(c, run, n - 1);
      var a := LastAction(c, run, n);
      StepTracesIssues(c, run[n - 1], a);
    }
  }

  // --- roots ----------------------------------------------------------------------------------

  lemma MintAtOnePlace(log: seq<Event>, i: nat, j: nat, cred: string)
    requires MintedOnce(log) && i < |log| && j < |log| && Mints(log[i], cred) && Mints(log[j], cred)
    ensures i == j
  {
    assert cred in Mentions(log[i]) && cred in Mentions(log[j]);
  }

  lemma PoppedStays(log: seq<Event>, log': seq<Event>, cred: string)
    requires log <= log' && WasPopped(log, cred)
    ensures WasPopped(log', cred)
  {
    var i :| 0 <= i < |log| && log[i].Popped? && log[i].cred == cred;
    assert log'[i] == log[i];
  }

  /** The root of a credential is settled by the event that mints it. */
  lemma RootWhereMinted(log: seq<Event>, i: nat, cred: string)
    requires MintedOnce(log) && i < |log| && Mints(log[i], cred)
    ensures Root(log, cred) == if log[i].LoggedIn? then i else Root(log[..i], log[i].source)
  {
    LT.RootStable(log, i + 1, i, cred);
    assert log[..i + 1] == log[..i] + [log[i]];
    RootAppend(log[..i], log[i], cred);
  }

  /** A pair's refresh token descends from the login that the credential it was paid with descends from. */
  lemma RootOfIssue(log: seq<Event>, i: nat)
    requires MintedOnce(log) && SpentOnce(log) && i < |log| && log[i].Issued?
    ensures Root(log, log[i].refresh) == Root(log, log[i].source)
  {
    var source := log[i].source;
    LT.SourceIsStable(log, i);
    assert Root(log, source) == Root(log[..i], source);
    RootWhereMinted(log, i, log[i].refresh);
  }

  lemma {:induction false} RootOfSound(c: Config, log: seq<Event>, p: Path)
    requires MintedOnce(log) && SpentOnce(log) && Sound(c, log, p)
    ensures Root(log, log[p.issue].refresh) == LoginOf(p)
    decreases p
  {
    RootOfIssue(log, p.issue);
    match p.title
    case ByCode(allowed, login, redeem) => RootWhereMinted(log, login, log[p.issue].source);
    case ByRefresh(prev, pop) => RootOfSound(c, log, prev);
  }

  /** In every run, every pair ever issued, accepted or not, stands for exactly the identity that the login
      at the root of its lineage validated. */
  lemma PairIsForItsLogin(c: Config, run: seq<State>, n: nat, i: nat)
    requires Run(c, run) && n < |run| && i < |run[n].log| && run[n].log[i].Issued?
    ensures var log := run[n].log;
            var root := Root(log, log[i].refresh);
            && 0 <= root < i && log[root].LoggedIn? && log[root].who == log[i].who
            && Root(log, log[i].source) == root
  {
    var log := run[n].log;
    LI.RunInv(c, run, n);
    RunTracesIssues(c, run, n);
    assert IssueTraced(c, log, i);
    var p :| Sound(c, log, p) && p.issue == i;
    RootOfSound(c, log, p);
    RootOfIssue(log, i);
    WhoIsTheLogins(c, log, p);
  }
}
