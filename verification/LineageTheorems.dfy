/** What the lineage invariant says about whole runs. */
module LineageTheorems {
  import opened Prelude
  import opened Sessions
  import opened TokenStore
  import opened Grants
  import opened Lineage
  import opened LineageInvariant
  import opened Frames

  // --- linear lineages ----------------------------------------------------------------------

  /** In every reachable state, two live credentials never descend from the same login. */
  lemma OneLiveCredentialPerLogin(c: Config, run: seq<State>, n: nat, a: Slot, b: Slot)
    requires Run(c, run) && n < |run|
    requires Held(run[n], a).Some? && Held(run[n], b).Some?
    ensures var log := run[n].log;
            var root := Root(log, Held(run[n], a).value);
            && 0 <= root < |log| && log[root].LoggedIn?
            && (Root(log, Held(run[n], b).value) == root ==> a == b)
  {
    RunInv(c, run, n);
  }

  function Logins(log: seq<Event>): set<int> {
    set i | 0 <= i < |log| && log[i].LoggedIn?
  }

  /** The requests that hold or are spending a credential. */
  function Carrying(s: State): set<nat> {
    set h | h in s.flights && Cred(s.flights[h]).Some?
  }

  function CodeRoots(s: State): map<string, int> {
    map code | code in s.store.codes :: Root(s.log, code)
  }

  function RefreshRoots(s: State): map<string, int> {
    map token | token in s.store.refresh :: Root(s.log, token)
  }

  function FlightRoots(s: State): map<nat, int> {
    map h | h in Carrying(s) :: Root(s.log, Cred(s.flights[h]).value)
  }

  ghost predicate IsRootOf(s: State, a: Slot, r: int) {
    Held(s, a).Some? && Root(s.log, Held(s, a).value) == r
  }

  lemma CodeRootOwner(s: State, r: int) returns (a: Slot)
    requires r in CodeRoots(s).Values
    ensures a.InCodes? && IsRootOf(s, a, r)
  {
    var x :| x in CodeRoots(s) && CodeRoots(s)[x] == r;
    a := InCodes(x);
  }

  lemma RefreshRootOwner(s: State, r: int) returns (a: Slot)
    requires r in RefreshRoots(s).Values
    ensures a.InRefresh? && IsRootOf(s, a, r)
  {
    var x :| x in RefreshRoots(s) && RefreshRoots(s)[x] == r;
    a := InRefresh(x);
  }

  lemma FlightRootOwner(s: State, r: int) returns (a: Slot)
    requires r in FlightRoots(s).Values
    ensures a.InFlight? && IsRootOf(s, a, r)
  {
    var h :| h in FlightRoots(s) && FlightRoots(s)[h] == r;
    a := InFlight(h);
  }

  lemma RootsAreInjective(s: State)
    requires Linear(s)
    ensures Injective(CodeRoots(s)) && Injective(RefreshRoots(s)) && Injective(FlightRoots(s))
  {
    var codes, refresh, flights := CodeRoots(s), RefreshRoots(s), FlightRoots(s);
    forall x, y | x in codes && y in codes && codes[x] == codes[y] ensures x == y {
      assert IsRootOf(s, InCodes(x), codes[x]) && IsRootOf(s, InCodes(y), codes[x]);
    }
    forall x, y | x in refresh && y in refresh && refresh[x] == refresh[y] ensures x == y {
      assert IsRootOf(s, InRefresh(x), refresh[x]) && IsRootOf(s, InRefresh(y), refresh[x]);
    }
    forall x, y | x in flights && y in flights && flights[x] == flights[y] ensures x == y {
      assert IsRootOf(s, InFlight(x), flights[x]) && IsRootOf(s, InFlight(y), flights[x]);
    }
  }

  lemma RootsAreDisjoint(s: State, r: int)
    requires Linear(s)
    ensures r in CodeRoots(s).Values ==> r !in RefreshRoots(s).Values && r !in FlightRoots(s).Values
    ensures r in RefreshRoots(s).Values ==> r !in FlightRoots(s).Values
    ensures r in CodeRoots(s).Values || r in RefreshRoots(s).Values || r in FlightRoots(s).Values ==> r in Logins(s.log)
  {
    var a, b, d := InCodes(""), InRefresh(""), InFlight(0);
    if r in CodeRoots(s).Values { a := CodeRootOwner(s, r); }
    if r in RefreshRoots(s).Values { b := RefreshRootOwner(s, r); }
    if r in FlightRoots(s).Values { d := FlightRootOwner(s, r); }
  }

  lemma RootCounts(s: State)
    requires Linear(s)
    ensures |s.store.codes.Keys| <= |CodeRoots(s).Values|
    ensures |s.store.refresh.Keys| <= |RefreshRoots(s).Values|
    ensures |Carrying(s)| <= |FlightRoots(s).Values|
  {
    var codes, refresh, flights := CodeRoots(s), RefreshRoots(s), FlightRoots(s);
    RootsAreInjective(s);
    InjectionBound(codes, codes.Values);
    InjectionBound(refresh, refresh.Values);
    InjectionBound(flights, flights.Values);
    assert codes.Keys == s.store.codes.Keys;
    assert refresh.Keys == s.store.refresh.Keys;
    assert flights.Keys == Carrying(s);
  }

  /** Stored codes, requests carrying a credential and stored refresh tokens never outnumber logins. */
  lemma LiveCredentialsNeverExceedLogins(c: Config, run: seq<State>, n: nat)
    requires Run(c, run) && n < |run|
    ensures var s := run[n];
            |s.store.codes.Keys| + |s.store.refresh.Keys| + |Carrying(s)| <= |Logins(s.log)|
  {
    RunInv(c, run, n);
    LiveBound(run[n]);
  }

  lemma LiveBound(s: State)
    requires Linear(s)
    ensures |s.store.codes.Keys| + |s.store.refresh.Keys| + |Carrying(s)| <= |Logins(s.log)|
  {
    RootCounts(s);
    forall r
      ensures r in CodeRoots(s).Values ==> r !in RefreshRoots(s).Values && r !in FlightRoots(s).Values && r in Logins(s.log)
      ensures r in RefreshRoots(s).Values ==> r !in FlightRoots(s).Values && r in Logins(s.log)
      ensures r in FlightRoots(s).Values ==> r in Logins(s.log)
    {
      RootsAreDisjoint(s, r);
    }
    ThreeParts(CodeRoots(s).Values, RefreshRoots(s).Values, FlightRoots(s).Values, Logins(s.log));
  }

  lemma ThreeParts(a: set<int>, b: set<int>, d: set<int>, all: set<int>)
    requires a !! b && a !! d && b !! d && a <= all && b <= all && d <= all
    ensures |a| + |b| + |d| <= |all|
  {
    var parts := a + b + d;
    assert |parts| == |a + b| + |d|;
    SubsetBound(parts, all);
  }

  // --- single use ---------------------------------------------------------------------------

  /** Over any run, a code or refresh token is popped at most once, pays for at most one pair, and
      that pair goes to the request that popped it. Section 4.1.2 of RFC 6749. */
  lemma SingleUse(c: Config, run: seq<State>, n: nat, i: nat, j: nat)
    requires Run(c, run) && n < |run| && i < |run[n].log| && j < |run[n].log|
    ensures var log := run[n].log;
            && (log[i].Popped? && log[j].Popped? && log[i].cred == log[j].cred ==> i == j)
            && (log[i].Issued? && log[j].Issued? && log[i].source == log[j].source ==> i == j)
            && (log[i].Issued? && log[j].Popped? && log[i].source == log[j].cred ==> j < i && log[i].request == log[j].request)
  {
    RunInv(c, run, n);
    var log := run[n].log;
    if log[i].Issued? && log[j].Popped? && log[i].source == log[j].cred {
      assert WasPoppedBy(log[..i], log[i].source, log[i].request);
      var p :| 0 <= p < i && log[..i][p].Popped? && log[..i][p].cred == log[i].source && log[..i][p].request == log[i].request;
      assert log[p] == log[..i][p];
    }
  }

  /** Requests are answered once, and a pair exists for a request exactly while the request carries it
      or after it was answered with it. */
  ghost predicate Answered(s: State) {
    && (forall h :: h in s.flights ==> h < s.nextId && h !in s.replies)
    && (forall h :: h in s.replies ==> h < s.nextId)
    && (forall i :: 0 <= i < |s.log| && s.log[i].Issued? ==> PairIsWith(s, s.log[i]))
  }

  ghost predicate PairIsWith(s: State, e: Event)
    requires e.Issued?
  {
    var h := e.request;
    || (h in s.replies && s.replies[h].Pair? && s.replies[h].access == e.access && s.replies[h].refresh == e.refresh)
    || (h in s.flights && (s.flights[h].PairMinted? || s.flights[h].AccessStored?)
        && s.flights[h].access == e.access && s.flights[h].refresh == e.refresh)
  }

  lemma PairStepKeepsAnswered(c: Config, s: State, a: Action)
    requires Answered(s) && Enabled(c, s, a) && (a.MintPair? || a.StoreAccess? || a.StoreRefresh?)
    ensures Answered(Apply(c, s, a))
  {
    var s' := Apply(c, s, a);
    forall i | 0 <= i < |s'.log| && s'.log[i].Issued?
      ensures PairIsWith(s', s'.log[i])
    {
      if i < |s.log| {
        assert s'.log[i] == s.log[i];
        assert PairIsWith(s, s.log[i]);
      }
    }
  }

  lemma FrameKeepsAnswered(c: Config, s: State, a: Action, s': State)
    requires Answered(s) && Enabled(c, s, a) && Framed(s, a, s')
    requires !a.MintPair? && !a.StoreAccess? && !a.StoreRefresh?
    ensures Answered(s')
  {
    var h := Mover(s, a);
    assert h in s.flights ==> !s.flights[h].PairMinted? && !s.flights[h].AccessStored?;
    forall i | 0 <= i < |s'.log| && s'.log[i].Issued?
      ensures PairIsWith(s', s'.log[i])
    {
      assert s'.log[i] == s.log[i];
      assert PairIsWith(s, s.log[i]);
    }
  }

  lemma StepKeepsAnswered(c: Config, s: State, a: Action)
    requires Answered(s) && Enabled(c, s, a)
    ensures Answered(Apply(c, s, a))
  {
    if a.MintPair? || a.StoreAccess? || a.StoreRefresh? {
      PairStepKeepsAnswered(c, s, a);
    } else {
      StepFrame(c, s, a);
      FrameKeepsAnswered(c, s, a, Apply(c, s, a));
    }
  }

  lemma {:induction false} RunAnswered(c: Config, run: seq<State>, n: nat)
    requires Run(c, run) && n < |run|
    ensures Answered(run[n])
  {
    if n > 0 {
      RunAnswered(c, run, n - 1);
      var a := LastAction(c, run, n);
      StepKeepsAnswered(c, run[n - 1], a);
    }
  }

  lemma PaidIsNotRefused(s: State, j: nat)
    requires Answered(s) && j < |s.log| && s.log[j].Issued? && s.log[j].request in s.replies
    ensures s.replies[s.log[j].request].Pair?
  {
    assert PairIsWith(s, s.log[j]);
  }

  /** A failed attempt burns the credential: if the request that popped it was answered with an error,
      then no pair has been issued for it, and none can be, because it is in no store. */
  lemma FailedAttemptBurnsCredential(c: Config, run: seq<State>, n: nat, p: nat)
    requires Run(c, run) && n < |run|
    requires var s := run[n];
             && p < |s.log| && s.log[p].Popped?
             && s.log[p].request in s.replies && s.replies[s.log[p].request].Error?
    ensures var s := run[n];
            var cred := s.log[p].cred;
            && !WasIssuedFor(s.log, cred)
            && cred !in s.store.codes && cred !in s.store.refresh
            && (forall h :: h in s.flights ==> Cred(s.flights[h]) != Some(cred))
  {
    var s := run[n];
    var cred, h := s.log[p].cred, s.log[p].request;
    RunInv(c, run, n);
    RunAnswered(c, run, n);
    assert WasPopped(s.log, cred);
    if WasIssuedFor(s.log, cred) {
      var j :| 0 <= j < |s.log| && s.log[j].Issued? && s.log[j].source == cred;
      SingleUse(c, run, n, j, p);
      PaidIsNotRefused(s, j);
    }
    assert Held(s, InCodes(cred)) != Some(cred);
    assert Held(s, InRefresh(cred)) != Some(cred);
    forall k | k in s.flights
      ensures Cred(s.flights[k]) != Some(cred)
    {
      if Cred(s.flights[k]) == Some(cred) {
        SpenderIsThePopper(s, k, cred, p);
      }
    }
  }

  lemma SpenderIsThePopper(s: State, k: nat, cred: string, p: nat)
    requires Inv(s) && k in s.flights && Cred(s.flights[k]) == Some(cred)
    requires p < |s.log| && s.log[p].Popped? && s.log[p].cred == cred
    ensures s.log[p].request == k
  {
    assert Held(s, InFlight(k)) == Some(cred);
    assert WasPopped(s.log, cred);
    assert Spending(s.flights[k]);
    var i :| 0 <= i < |s.log| && s.log[i].Popped? && s.log[i].cred == cred && s.log[i].request == k;
  }

  // --- one chain per login ------------------------------------------------------------------

  /** Later events do not change what lineage an already mentioned credential belongs to. */
  lemma {:induction false} RootStable(log: seq<Event>, n: nat, i: nat, cred: string)
    requires MintedOnce(log) && i < n <= |log| && cred in Mentions(log[i])
    ensures Root(log, cred) == Root(log[..n], cred) && Generation(log, cred) == Generation(log[..n], cred)
  {
    if n == |log| {
      assert log[..n] == log;
    } else {
      var init, last := log[..|log| - 1], log[|log| - 1];
      assert log == init + [last] && init[..n] == log[..n] && init[i] == log[i];
      RootAppend(init, last, cred);
      RootStable(init, n, i, cred);
    }
  }

  /** The event that minted a rooted credential. */
  lemma {:induction false} FindMint(log: seq<Event>, cred: string) returns (m: nat)
    requires Root(log, cred) >= 0
    ensures m < |log| && Mints(log[m], cred)
    ensures log[m].LoggedIn? ==> Root(log, cred) == m && Generation(log, cred) == 0
    ensures log[m].Issued? ==>
              && Root(log, cred) == Root(log[..m], log[m].source)
              && Generation(log, cred) == Generation(log[..m], log[m].source) + 1
  {
    var last, init := log[|log| - 1], log[..|log| - 1];
    if Mints(last, cred) {
      m := |log| - 1;
    } else {
      m := FindMint(init, cred);
      assert init[m] == log[m] && init[..m] == log[..m];
    }
  }

  /** Of one login and one generation there is at most one pair. */
  lemma {:induction false} SameGenerationSamePair(log: seq<Event>, i: nat, j: nat)
    requires SpentOnce(log) && MintedOnce(log)
    requires i < |log| && j < |log| && log[i].Issued? && log[j].Issued?
    requires Root(log, log[i].source) == Root(log, log[j].source) >= 0
    requires Generation(log, log[i].source) == Generation(log, log[j].source)
    ensures i == j
    decreases Generation(log, log[i].source)
  {
    var m := FindMint(log, log[i].source);
    var k := FindMint(log, log[j].source);
    if Generation(log, log[i].source) == 0 {
      assert m == k;
    } else {
      SourceIsStable(log, m);
      SourceIsStable(log, k);
      SameGenerationSamePair(log, m, k);
    }
  }

  lemma SourceIsStable(log: seq<Event>, m: nat)
    requires SpentOnce(log) && MintedOnce(log) && m < |log| && log[m].Issued?
    ensures Root(log, log[m].source) == Root(log[..m], log[m].source)
    ensures Generation(log, log[m].source) == Generation(log[..m], log[m].source)
  {
    var x := log[m].source;
    assert WasPoppedBy(log[..m], x, log[m].request);
    var p :| 0 <= p < m && log[..m][p].Popped? && log[..m][p].cred == x;
    assert log[p] == log[..m][p] && x in Mentions(log[p]);
    RootStable(log, m, p, x);
  }

  /** Every pair was paid with a credential that descends from a login. */
  ghost predicate Rooted(log: seq<Event>) {
    forall i :: 0 <= i < |log| && log[i].Issued? ==> 0 <= Root(log, log[i].source) < |log|
  }

  lemma AppendRooted(s: State, e: Event)
    requires Named(s) && Rooted(s.log)
    requires forall x :: Mints(e, x) ==> x !in s.minted
    requires e.Issued? ==> 0 <= Root(s.log, e.source) <= |s.log| && e.source in s.minted
    ensures Rooted(s.log + [e])
  {
    var log' := s.log + [e];
    forall i | 0 <= i < |log'| && log'[i].Issued?
      ensures 0 <= Root(log', log'[i].source) < |log'|
    {
      var x := log'[i].source;
      if i < |s.log| {
        assert log'[i] == s.log[i] && x in Mentions(s.log[i]);
      }
      RootAppend(s.log, e, x);
    }
  }

  lemma MintPairKeepsRooted(c: Config, s: State, h: nat, access: string, refresh: string)
    requires Inv(s) && Rooted(s.log) && Enabled(c, s, MintPair(h, access, refresh))
    ensures Rooted(DoMintPair(c, s, h, access, refresh).log)
  {
    var f := s.flights[h];
    assert Held(s, InFlight(h)) == Some(f.source);
    HeldIsMinted(s);
    AppendRooted(s, Issued(s.now, h, f.source, access, refresh, f.session.who));
  }

  lemma FrameKeepsRooted(s: State, a: Action, s': State)
    requires Named(s) && Rooted(s.log) && Framed(s, a, s') && !a.MintPair? && !a.LoginMint?
    ensures Rooted(s'.log)
  {
    if s'.log != s.log {
      assert s'.log == s.log + [s'.log[|s.log|]];
      AppendRooted(s, s'.log[|s.log|]);
    }
  }

  lemma StepKeepsRooted(c: Config, s: State, a: Action)
    requires Inv(s) && Rooted(s.log) && Enabled(c, s, a)
    ensures Rooted(Apply(c, s, a).log)
  {
    if a.MintPair? {
      MintPairKeepsRooted(c, s, a.h, a.access, a.refresh);
    } else if a.LoginMint? {
      AppendRooted(s, LoggedIn(s.now, a.h, a.code, s.flights[a.h].form, s.flights[a.h].session.who));
    } else {
      StepFrame(c, s, a);
      FrameKeepsRooted(s, a, Apply(c, s, a));
    }
  }

  lemma {:induction false} RunRooted(c: Config, run: seq<State>, n: nat)
    requires Run(c, run) && n < |run|
    ensures Rooted(run[n].log)
  {
    if n > 0 {
      RunRooted(c, run, n - 1);
      RunInv(c, run, n - 1);
      var a := LastAction(c, run, n);
      StepKeepsRooted(c, run[n - 1], a);
    }
  }

  /** The pairs of one login form a chain: no two have the same generation, so it never branches, and a
      pair of generation k + 1 was paid with the refresh token of the pair of generation k. */
  lemma PairsFormAChain(c: Config, run: seq<State>, n: nat, i: nat, j: nat)
    requires Run(c, run) && n < |run| && i < |run[n].log| && j < |run[n].log|
    requires run[n].log[i].Issued? && run[n].log[j].Issued?
    requires Root(run[n].log, run[n].log[i].source) == Root(run[n].log, run[n].log[j].source)
    ensures var log := run[n].log;
            && (Generation(log, log[i].source) == Generation(log, log[j].source) ==> i == j)
            && (Generation(log, log[j].source) == Generation(log, log[i].source) + 1 ==> log[j].source == log[i].refresh)
  {
    var log := run[n].log;
    RunInv(c, run, n);
    RunRooted(c, run, n);
    if Generation(log, log[i].source) == Generation(log, log[j].source) {
      SameGenerationSamePair(log, i, j);
    }
    if Generation(log, log[j].source) == Generation(log, log[i].source) + 1 {
      var m := FindMint(log, log[j].source);
      SourceIsStable(log, m);
      SameGenerationSamePair(log, i, m);
    }
  }
}
