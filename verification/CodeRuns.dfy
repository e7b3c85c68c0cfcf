/** auth/routes.py:411-470 over whole runs of both backends: when a code that was handed out is honoured. */
module CodeRuns {
  import opened Prelude
  import opened Sessions
  import opened TokenStore
  import opened Pkce
  import opened Grants
  import opened Lineage
  import opened Frames
  import LI = LineageInvariant
  import P = Provenance
  import Chains

  /** The record that a login wrote for its code. */
  function RecordOf(c: Config, e: Event): CodeEntry<Session>
    requires e.LoggedIn?
  {
    CodeEntry(Session(e.who, 0.0), e.form.redirectUri, e.form.clientId, e.at + c.codeTtl as real, e.form.challenge)
  }

  /** Memory purges a code only after its inclusive bound; Redis may drop it in the second before. */
  predicate CodeMayBeLost(c: Config, bound: real, now: real) {
    if c.backend == Memory then bound < now else bound - 1.0 < now
  }

  /** A minted code is on its way into the store, or in it, or was popped, or is late. */
  ghost predicate CodeKept(c: Config, s: State, e: Event)
    requires e.LoggedIn?
  {
    || WasPopped(s.log, e.code)
    || e.code in s.store.codes
    || (e.request in s.flights && s.flights[e.request].LoginMinted? && s.flights[e.request].code == e.code)
    || CodeMayBeLost(c, e.at + c.codeTtl as real, s.now)
  }

  ghost predicate CodesKept(c: Config, s: State) {
    forall i :: 0 <= i < |s.log| && s.log[i].LoggedIn? ==> CodeKept(c, s, s.log[i])
  }

  /** What is stored under a code is the record its login wrote. */
  ghost predicate CodesMatch(c: Config, s: State) {
    forall i :: 0 <= i < |s.log| && s.log[i].LoggedIn? && s.log[i].code in s.store.codes ==>
      s.store.codes[s.log[i].code] == RecordOf(c, s.log[i])
  }

  lemma RunCodesMatch(c: Config, run: seq<State>, n: nat)
    requires Run(c, run) && n < |run|
    ensures CodesMatch(c, run[n])
  {
    var s := run[n];
    LI.RunInv(c, run, n);
    P.RunTraced(c, run, n);
    forall i: nat | i < |s.log| && s.log[i].LoggedIn? && s.log[i].code in s.store.codes
      ensures s.store.codes[s.log[i].code] == RecordOf(c, s.log[i])
    {
      TracedRecord(c, s.log, s.now, s.log[i].code, s.store.codes[s.log[i].code], i);
    }
  }

  lemma TracedRecord(c: Config, log: seq<Event>, now: real, code: string, record: CodeEntry<Session>, i: nat)
    requires MintedOnce(log) && P.CodeTraced(c, log, now, code, record)
    requires i < |log| && log[i].LoggedIn? && log[i].code == code
    ensures record == RecordOf(c, log[i])
  {
    var allowed: nat, login: nat :| P.Founded(c, log, allowed, login, code, record) && log[login].at <= now;
    Chains.MintAtOnePlace(log, login, i, code);
  }

  // --- the steps that move codes ----------------------------------------------------------------

  /** The codes that stay where they are, in the store or in the hands of their login. */
  ghost predicate CodesStay(s: State, s': State) {
    && s.log <= s'.log && s.now <= s'.now
    && s.store.codes.Keys <= s'.store.codes.Keys
    && (forall i :: |s.log| <= i < |s'.log| ==> !s'.log[i].LoggedIn?)
    && forall h :: h in s.flights && s.flights[h].LoginMinted? && s.flights[h].code !in s'.store.codes ==>
         h in s'.flights && s'.flights[h] == s.flights[h]
  }

  lemma StayingKeepsCodes(c: Config, s: State, s': State)
    requires CodesKept(c, s) && CodesStay(s, s')
    ensures CodesKept(c, s')
  {
    forall i | 0 <= i < |s'.log| && s'.log[i].LoggedIn? ensures CodeKept(c, s', s'.log[i]) {
      assert s'.log[i] == s.log[i];
      assert CodeKept(c, s, s.log[i]);
      if WasPopped(s.log, s.log[i].code) {
        Chains.PoppedStays(s.log, s'.log, s.log[i].code);
      }
    }
  }

  lemma FrameLetsCodesStay(c: Config, s: State, a: Action, s': State)
    requires Enabled(c, s, a) && Named(s) && Framed(s, a, s') && s'.store.codes == s.store.codes
    requires !a.LoginMint? && !a.LoginStore?
    ensures CodesStay(s, s')
  {
  }

  lemma StoreLetsCodesStay(s: State, h: nat)
    requires s.At(h) && s.flights[h].LoginMinted?
    ensures CodesStay(s, DoLoginStore(s, h))
  {
  }

  lemma MintKeepsCodes(c: Config, s: State, h: nat, code: string)
    requires CodesKept(c, s) && s.At(h) && s.flights[h].LoginPurged?
    ensures CodesKept(c, DoLoginMint(c, s, h, code))
  {
    var s' := DoLoginMint(c, s, h, code);
    forall i | 0 <= i < |s'.log| && s'.log[i].LoggedIn? ensures CodeKept(c, s', s'.log[i]) {
      if i < |s.log| {
        assert s'.log[i] == s.log[i];
        assert CodeKept(c, s, s.log[i]);
        if WasPopped(s.log, s.log[i].code) {
          Chains.PoppedStays(s.log, s'.log, s.log[i].code);
        }
      }
    }
  }

  lemma TakeKeepsCodes(c: Config, s: State, h: nat)
    requires CodesKept(c, s) && s.At(h) && s.flights[h].CodeRequested?
    ensures CodesKept(c, DoTakeCode(s, h))
  {
    var s' := DoTakeCode(s, h);
    var code := s.flights[h].code;
    forall i | 0 <= i < |s'.log| && s'.log[i].LoggedIn? ensures CodeKept(c, s', s'.log[i]) {
      assert i < |s.log| && s'.log[i] == s.log[i];
      assert CodeKept(c, s, s.log[i]);
      if WasPopped(s.log, s.log[i].code) {
        Chains.PoppedStays(s.log, s'.log, s.log[i].code);
      } else if code in s.store.codes && s.log[i].code == code {
        assert s'.log[|s.log|] == Popped(s.now, h, code);
      }
    }
  }

  lemma PurgeKeepsCodes(c: Config, s: State, h: nat)
    requires CodesKept(c, s) && CodesMatch(c, s) && ReadingsPast(s) && s.At(h) && s.flights[h].LoginValidated?
    ensures CodesKept(c, DoLoginPurge(c, s, h))
  {
    var s' := DoLoginPurge(c, s, h);
    forall i | 0 <= i < |s'.log| && s'.log[i].LoggedIn? ensures CodeKept(c, s', s'.log[i]) {
      assert i < |s.log| && s'.log[i] == s.log[i];
      assert CodeKept(c, s, s.log[i]);
      if WasPopped(s.log, s.log[i].code) {
        Chains.PoppedStays(s.log, s'.log, s.log[i].code);
      }
    }
  }

  lemma TickKeepsCodes(c: Config, s: State, now: Instant, gone: Gone)
    requires CodesKept(c, s) && CodesMatch(c, s) && s.now <= now && MayGo(c, s, now, gone)
    ensures CodesKept(c, s.(now := now, store := Drop(s.store, gone)))
  {
    var s' := s.(now := now, store := Drop(s.store, gone));
    forall i | 0 <= i < |s.log| && s.log[i].LoggedIn? ensures CodeKept(c, s', s.log[i]) {
      assert CodeKept(c, s, s.log[i]);
    }
  }

  lemma StepKeepsCodes(c: Config, s: State, a: Action)
    requires Named(s) && CodesKept(c, s) && CodesMatch(c, s) && ReadingsPast(s) && Enabled(c, s, a)
    ensures CodesKept(c, Apply(c, s, a))
  {
    if a.Tick? {
      TickKeepsCodes(c, s, a.now, a.gone);
    } else if a.LoginMint? {
      MintKeepsCodes(c, s, a.h, a.code);
    } else if a.LoginPurge? {
      PurgeKeepsCodes(c, s, a.h);
    } else if a.TakeCode? {
      TakeKeepsCodes(c, s, a.h);
    } else {
      var s' := Apply(c, s, a);
      if a.LoginStore? {
        StoreLetsCodesStay(s, a.h);
      } else {
        StepFrame(c, s, a);
        FrameLetsCodesStay(c, s, a, s');
      }
      StayingKeepsCodes(c, s, s');
    }
  }

  lemma {:induction false} RunCodesKept(c: Config, run: seq<State>, n: nat)
    requires Run(c, run) && n < |run|
    ensures CodesKept(c, run[n])
  {
    if n > 0 {
      RunCodesKept(c, run, n - 1);
      RunCodesMatch(c, run, n - 1);
      RunReadingsPast(c, run, n - 1);
      LI.RunInv(c, run, n - 1);
      var a := LastAction(c, run, n);
      StepKeepsCodes(c, run[n - 1], a);
    }
  }

  // --- redemption -------------------------------------------------------------------------------

  /** A code that a user agent was sent is taken exactly as its login recorded it, unless it was popped
      before or is late; whoever does not get the record is refused. */
  lemma CodeIsTaken(c: Config, run: seq<State>, n: nat, i: nat, h: nat)
    requires Run(c, run) && n < |run|
    requires i < |run[n].log| && run[n].log[i].LoggedIn? && run[n].log[i].request !in run[n].flights
    requires Enabled(c, run[n], TakeCode(h)) && run[n].flights[h].code == run[n].log[i].code
    ensures var s, e := run[n], run[n].log[i];
            var s' := DoTakeCode(s, h);
            var refused := h !in s'.flights && h in s'.replies && s'.replies[h] == INVALID_GRANT;
            var taken := h in s'.flights && s'.flights[h] == CodeTaken(e.code, RecordOf(c, e), s.flights[h].asked);
            && (WasPopped(s.log, e.code) ==> refused)
            && (!WasPopped(s.log, e.code) && !CodeMayBeLost(c, e.at + c.codeTtl as real, s.now) ==> taken)
            && (refused || taken)
  {
    var s, e := run[n], run[n].log[i];
    RunCodesKept(c, run, n);
    RunCodesMatch(c, run, n);
    LI.RunInv(c, run, n);
    assert CodeKept(c, s, e);
    if WasPopped(s.log, e.code) {
      assert Held(s, InCodes(e.code)) != Some(e.code);
    }
  }

  lemma {:induction false} TakenStays(c: Config, run: seq<State>, n: nat, m: nat, h: nat)
    requires Run(c, run) && n <= m < |run|
    requires h in run[n].flights && run[n].flights[h].CodeTaken? && h < run[n].nextId
    requires h in run[m].flights && run[m].flights[h].CodeTaken?
    ensures run[m].flights[h] == run[n].flights[h]
  {
    if n < m {
      var a := LastAction(c, run, m);
      StepFrame(c, run[m - 1], a);
      TakenWasTaken(c, run, n, m - 1, h, a);
      TakenStays(c, run, n, m - 1, h);
    }
  }

  /** A request enters that stage only from the one before, which it never enters again. */
  lemma TakenWasTaken(c: Config, run: seq<State>, n: nat, m: nat, h: nat, a: Action)
    requires Run(c, run) && n <= m && m + 1 < |run| && Enabled(c, run[m], a) && run[m + 1] == Apply(c, run[m], a)
    requires Framed(run[m], a, run[m + 1])
    requires h in run[n].flights && run[n].flights[h].CodeTaken? && h < run[n].nextId
    requires h in run[m + 1].flights && run[m + 1].flights[h].CodeTaken?
    ensures h in run[m].flights && run[m].flights[h].CodeTaken? && run[m].flights[h] == run[m + 1].flights[h]
  {
    PastRequest(c, run, n, m, h);
  }

  /** A request that has taken its code does not ask for it any more. */
  ghost predicate NotAsking(s: State, h: nat) {
    h < s.nextId && (h in s.flights ==> !s.flights[h].CodeRequested?)
  }

  lemma FrameKeepsNotAsking(c: Config, s: State, a: Action, s': State, h: nat)
    requires NotAsking(s, h) && Enabled(c, s, a) && Framed(s, a, s')
    ensures NotAsking(s', h)
  {
  }

  lemma {:induction false} PastRequest(c: Config, run: seq<State>, n: nat, m: nat, h: nat)
    requires Run(c, run) && n <= m < |run| && NotAsking(run[n], h)
    ensures NotAsking(run[m], h)
  {
    if n < m {
      PastRequest(c, run, n, m - 1, h);
      var a := LastAction(c, run, m);
      StepFrame(c, run[m - 1], a);
      FrameKeepsNotAsking(c, run[m - 1], a, run[m], h);
    }
  }

  /** In every run: a code that was sent out, presented for the first time in its time (with Redis a second
      before its bound), is answered, whenever the check then comes, with a session for exactly the identity
      its login validated if and only if the check finds it still within its bound and presented with
      everything its login bound it to; otherwise with the refusal of `RefusalCodes`. */
  lemma RedeemedIffHonoured(c: Config, run: seq<State>, n: nat, m: nat, i: nat, h: nat)
    requires Run(c, run) && n < m < |run|
    requires i < |run[n].log| && run[n].log[i].LoggedIn? && run[n].log[i].request !in run[n].flights
    requires Enabled(c, run[n], TakeCode(h)) && run[n].flights[h].code == run[n].log[i].code
    requires run[n + 1] == DoTakeCode(run[n], h)
    requires !WasPopped(run[n].log, run[n].log[i].code)
    requires !CodeMayBeLost(c, run[n].log[i].at + c.codeTtl as real, run[n].now)
    requires Enabled(c, run[m], CheckCode(h))
    ensures var e, asked, now := run[n].log[i], run[n].flights[h].asked, run[m].now;
            var s' := DoCheckCode(c, run[m], h);
            if && now <= e.at + c.codeTtl as real && e.form.challenge != "" && OrEmpty(asked.verifier) != ""
               && Honoured(c, e.form.redirectUri, e.form.clientId, e.form.challenge, asked)
            then h in s'.flights && s'.flights[h] == Authorized(e.code, Session(e.who, 0.0))
            else h !in s'.flights && h in s'.replies && Some(s'.replies[h]) == CodeOutcome(c, Some(RecordOf(c, e)), asked, now)
  {
    var e, asked := run[n].log[i], run[n].flights[h].asked;
    CodeIsTaken(c, run, n, i, h);
    LI.RunInv(c, run, n);
    TakenStays(c, run, n + 1, m, h);
    OutcomeMeansHonoured(c, Some(RecordOf(c, e)), asked, run[m].now);
  }
}
