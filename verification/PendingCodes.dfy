/** The in-memory store keeps few authorization codes: every login purges before it stores its own. */
module PendingCodes {
  import opened Prelude
  import opened Sessions
  import opened TokenStore
  import opened Grants
  import opened Frames
  import P = Provenance

  ghost predicate StoredSince(log: seq<Event>, position: nat, code: string) {
    exists j :: position <= j < |log| && log[j].CodeStored? && log[j].code == code
  }

  predicate IsPurgeBy(log: seq<Event>, p: nat, h: nat) {
    p < |log| && log[p].Purged? && log[p].request == h
  }

  ghost predicate HasPurged(log: seq<Event>, h: nat) {
    exists p: nat :: IsPurgeBy(log, p, h)
  }

  /** After a purge, every stored code was still good at the purge's reading or was stored later. */
  ghost predicate Swept(s: State, p: nat)
    requires p < |s.log| && s.log[p].Purged?
  {
    forall code :: code in s.store.codes ==>
      s.store.codes[code].expiresAt >= s.log[p].readAt || StoredSince(s.log, p, code)
  }

  /** Every purge so far has swept; every stored code was logged when it was stored; and who is about to
      mint or store a code has purged. */
  ghost predicate AllSwept(s: State) {
    && (forall p: nat :: p < |s.log| && s.log[p].Purged? ==> Swept(s, p))
    && (forall code :: code in s.store.codes ==> StoredSince(s.log, 0, code))
    && (forall h :: h in s.flights && PastPurge(s.flights[h]) ==> HasPurged(s.log, h))
  }

  lemma StoredSinceMono(log: seq<Event>, log': seq<Event>, position: nat, code: string)
    requires log <= log' && StoredSince(log, position, code)
    ensures StoredSince(log', position, code)
  {
    var j :| position <= j < |log| && log[j].CodeStored? && log[j].code == code;
    assert log'[j] == log[j];
  }

  /** Each code after a step was there before, or the step logged that it was stored. */
  ghost predicate CodesFollow(s: State, s': State) {
    && s.log <= s'.log
    && forall k :: k in s'.store.codes ==>
         || (k in s.store.codes && s.store.codes[k] == s'.store.codes[k])
         || StoredSince(s'.log, |s.log|, k)
  }

  lemma CodesAfterStep(c: Config, s: State, a: Action)
    requires Enabled(c, s, a)
    ensures CodesFollow(s, Apply(c, s, a))
  {
    var s' := Apply(c, s, a);
    StepFrame(c, s, a);
    if a.LoginStore? {
      assert s' == DoLoginStore(s, a.h);
      assert s'.log[|s.log|] == CodeStored(s.now, a.h, s.flights[a.h].code);
    }
  }

  lemma SweptStays(s: State, s': State, p: nat)
    requires p < |s.log| && s.log[p].Purged? && Swept(s, p) && CodesFollow(s, s')
    ensures Swept(s', p)
  {
    assert s'.log[p] == s.log[p];
    forall k | k in s'.store.codes
      ensures s'.store.codes[k].expiresAt >= s'.log[p].readAt || StoredSince(s'.log, p, k)
    {
      if StoredSince(s'.log, |s.log|, k) {
        var j :| |s.log| <= j < |s'.log| && s'.log[j].CodeStored? && s'.log[j].code == k;
        assert StoredSince(s'.log, p, k);
      } else if s.store.codes[k].expiresAt < s.log[p].readAt {
        StoredSinceMono(s.log, s'.log, p, k);
      }
    }
  }

  lemma StoredStays(s: State, s': State, k: string)
    requires CodesFollow(s, s') && k in s'.store.codes
    requires k in s.store.codes ==> StoredSince(s.log, 0, k)
    ensures StoredSince(s'.log, 0, k)
  {
    if StoredSince(s'.log, |s.log|, k) {
      var j :| |s.log| <= j < |s'.log| && s'.log[j].CodeStored? && s'.log[j].code == k;
    } else {
      StoredSinceMono(s.log, s'.log, 0, k);
    }
  }

  lemma PurgeSweeps(c: Config, s: State, h: nat)
    requires c.backend == Memory && Enabled(c, s, LoginPurge(h))
    ensures var s' := DoLoginPurge(c, s, h); IsPurgeBy(s'.log, |s.log|, h) && Swept(s', |s.log|)
  {
  }

  /** Only a purge logs a purge. */
  lemma PurgeIsLogged(c: Config, s: State, a: Action)
    requires c.backend == Memory && Enabled(c, s, a)
    ensures var s' := Apply(c, s, a);
            |s'.log| > |s.log| && s'.log[|s.log|].Purged? ==> Swept(s', |s.log|)
  {
    StepFrame(c, s, a);
    if a.LoginPurge? {
      PurgeSweeps(c, s, a.h);
    }
  }

  lemma PurgedStays(log: seq<Event>, log': seq<Event>, h: nat)
    requires HasPurged(log, h) && log <= log'
    ensures HasPurged(log', h)
  {
    var p: nat :| IsPurgeBy(log, p, h);
    assert IsPurgeBy(log', p, h);
  }

  predicate PastPurge(f: Flight<Session>) { f.LoginPurged? || f.LoginMinted? }

  /** A login gets past its purge only by purging. */
  lemma PastPurgeBefore(c: Config, s: State, a: Action, h: nat)
    requires Enabled(c, s, a) && !(a.LoginPurge? && h == a.h)
    requires h in Apply(c, s, a).flights && PastPurge(Apply(c, s, a).flights[h])
    ensures h in s.flights && PastPurge(s.flights[h])
  {
    StepFrame(c, s, a);
  }

  lemma PurgerHasPurged(c: Config, s: State, a: Action, h: nat)
    requires AllSwept(s) && Enabled(c, s, a)
    requires h in Apply(c, s, a).flights && PastPurge(Apply(c, s, a).flights[h])
    ensures HasPurged(Apply(c, s, a).log, h)
  {
    if a.LoginPurge? && h == a.h {
      assert IsPurgeBy(DoLoginPurge(c, s, h).log, |s.log|, h);
    } else {
      PastPurgeBefore(c, s, a, h);
      LogGrowsByOne(c, s, a);
      PurgedStays(s.log, Apply(c, s, a).log, h);
    }
  }

  lemma OldPurgesStaySwept(c: Config, s: State, s': State)
    requires AllSwept(s) && CodesFollow(s, s')
    ensures forall p: nat :: p < |s.log| && s'.log[p].Purged? ==> Swept(s', p)
  {
    forall p: nat | p < |s.log| && s'.log[p].Purged? ensures Swept(s', p) {
      assert s'.log[p] == s.log[p];
      SweptStays(s, s', p);
    }
  }

  lemma PurgesStaySwept(c: Config, s: State, a: Action)
    requires c.backend == Memory && AllSwept(s) && Enabled(c, s, a)
    ensures var s' := Apply(c, s, a); forall p: nat :: p < |s'.log| && s'.log[p].Purged? ==> Swept(s', p)
  {
    LogGrowsByOne(c, s, a);
    CodesAfterStep(c, s, a);
    OldPurgesStaySwept(c, s, Apply(c, s, a));
    PurgeIsLogged(c, s, a);
  }

  lemma StepKeepsSwept(c: Config, s: State, a: Action)
    requires c.backend == Memory && AllSwept(s) && Enabled(c, s, a)
    ensures AllSwept(Apply(c, s, a))
  {
    var s' := Apply(c, s, a);
    PurgesStaySwept(c, s, a);
    forall k | k in s'.store.codes ensures StoredSince(s'.log, 0, k) {
      CodesAfterStep(c, s, a);
      StoredStays(s, s', k);
    }
    forall h | h in s'.flights && PastPurge(s'.flights[h]) ensures HasPurged(s'.log, h) {
      PurgerHasPurged(c, s, a, h);
    }
  }

  lemma {:induction false} RunSwept(c: Config, run: seq<State>, n: nat)
    requires c.backend == Memory && Run(c, run) && n < |run|
    ensures AllSwept(run[n])
  {
    if n > 0 {
      RunSwept(c, run, n - 1);
      var a := LastAction(c, run, n);
      StepKeepsSwept(c, run[n - 1], a);
    }
  }

  // --- counting -------------------------------------------------------------------------------

  /** The completed logins that can still have a code in the store after the purge at `p`: those no older
      than code_ttl before its reading, and those whose code was stored after it. */
  ghost predicate MayPend(c: Config, log: seq<Event>, p: nat, i: int)
    requires p < |log| && log[p].Purged?
  {
    && 0 <= i < |log| && log[i].LoggedIn? && StoredSince(log, 0, log[i].code)
    && (log[i].at >= log[p].readAt - c.codeTtl as real || StoredSince(log, p, log[i].code))
  }

  ghost function PendingLogins(c: Config, log: seq<Event>, p: nat): set<int>
    requires p < |log| && log[p].Purged?
  {
    set i | 0 <= i < |log| && MayPend(c, log, p, i)
  }

  /** The login that minted a stored code. */
  ghost predicate Minted(log: seq<Event>, code: string, i: int) {
    0 <= i < |log| && log[i].LoggedIn? && log[i].code == code
  }

  lemma FindLogin(c: Config, s: State, p: nat, code: string) returns (i: int)
    requires p < |s.log| && s.log[p].Purged? && Swept(s, p) && code in s.store.codes && StoredSince(s.log, 0, code)
    requires P.CodeTraced(c, s.log, s.now, code, s.store.codes[code])
    ensures Minted(s.log, code, i) && i in PendingLogins(c, s.log, p)
  {
    var allowed: nat, login: nat :| P.Founded(c, s.log, allowed, login, code, s.store.codes[code]) && s.log[login].at <= s.now;
    i := login;
  }

  ghost predicate LoginsFor(log: seq<Event>, account: map<string, int>, logins: set<int>) {
    forall code :: code in account ==> Minted(log, code, account[code]) && account[code] in logins
  }

  ghost predicate Pending(c: Config, s: State, p: nat, codes: set<string>)
    requires p < |s.log| && s.log[p].Purged?
  {
    && Swept(s, p) && codes <= s.store.codes.Keys
    && forall k :: k in codes ==> StoredSince(s.log, 0, k) && P.CodeTraced(c, s.log, s.now, k, s.store.codes[k])
  }

  /** Find the login of every code in turn. */
  lemma {:induction false} LoginForEach(c: Config, s: State, p: nat, codes: set<string>) returns (account: map<string, int>)
    requires p < |s.log| && s.log[p].Purged? && Pending(c, s, p, codes)
    ensures account.Keys == codes && LoginsFor(s.log, account, PendingLogins(c, s.log, p))
    decreases codes
  {
    if codes == {} {
      account := map[];
    } else {
      var code :| code in codes;
      var rest := LoginForEach(c, s, p, codes - {code});
      var i := FindLogin(c, s, p, code);
      account := rest[code := i];
    }
  }

  lemma LoginsBound(log: seq<Event>, account: map<string, int>, logins: set<int>)
    requires LoginsFor(log, account, logins)
    ensures |account.Keys| <= |logins|
  {
    forall a, b | a in account && b in account && account[a] == account[b]
      ensures a == b
    {
      assert Minted(log, a, account[a]) && Minted(log, b, account[b]);
    }
    InjectionBound(account, logins);
  }

  lemma CodesBound(c: Config, s: State, p: nat)
    requires p < |s.log| && s.log[p].Purged? && Pending(c, s, p, s.store.codes.Keys)
    ensures |s.store.codes.Keys| <= |PendingLogins(c, s.log, p)|
  {
    var account := LoginForEach(c, s, p, s.store.codes.Keys);
    LoginsBound(s.log, account, PendingLogins(c, s.log, p));
  }

  /** At every moment after a purge, the in-memory store holds at most as many codes as there were
      completed logins from code_ttl before the purge's reading on, each counted once, together with the
      older ones whose code was only stored after the purge. */
  lemma CodesBoundedSincePurge(c: Config, run: seq<State>, n: nat, p: nat)
    requires c.backend == Memory && Run(c, run) && n < |run| && p < |run[n].log| && run[n].log[p].Purged?
    ensures |run[n].store.codes.Keys| <= |PendingLogins(c, run[n].log, p)|
  {
    RunSwept(c, run, n);
    P.RunTraced(c, run, n);
    CodesBound(c, run[n], p);
  }

  /** Right after any login has stored its code, that bound holds for the purge this login itself made. */
  lemma PendingCodesBounded(c: Config, run: seq<State>, n: nat, h: nat) returns (p: nat)
    requires c.backend == Memory && Run(c, run) && n < |run|
    requires Enabled(c, run[n], LoginStore(h))
    ensures IsPurgeBy(run[n].log, p, h)
    ensures var s' := DoLoginStore(run[n], h);
            IsPurgeBy(s'.log, p, h) && |s'.store.codes.Keys| <= |PendingLogins(c, s'.log, p)|
  {
    RunSwept(c, run, n);
    assert HasPurged(run[n].log, h);
    p :| IsPurgeBy(run[n].log, p, h);
    var s' := DoLoginStore(run[n], h);
    assert Apply(c, run[n], LoginStore(h)) == s';
    var run' := run[..n + 1] + [s'];
    RunPrefix(c, run, n + 1);
    RunExtends(c, run[..n + 1], LoginStore(h));
    assert s'.log[p] == run[n].log[p];
    CodesBoundedSincePurge(c, run', n + 1, p);
  }
}
