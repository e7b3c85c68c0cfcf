/** The lineage invariant holds initially and every step of every request keeps it. */
module LineageInvariant {
  import opened Prelude
  import opened Sessions
  import opened TokenStore
  import opened Grants
  import opened Lineage

  lemma InitInv(s: State)
    requires Init(s)
    ensures Inv(s)
  {
    assert forall a :: Held(s, a) == None;
  }

  // --- appending one event -----------------------------------------------------------------

  lemma AppendPopped(log: seq<Event>, e: Event, cred: string)
    ensures WasPopped(log + [e], cred) <==> WasPopped(log, cred) || (e.Popped? && e.cred == cred)
  {
    var log' := log + [e];
    if WasPopped(log, cred) {
      var i :| 0 <= i < |log| && log[i].Popped? && log[i].cred == cred;
      assert log'[i] == log[i];
    }
    if e.Popped? && e.cred == cred {
      assert log'[|log|] == e;
    }
  }

  lemma AppendPoppedBy(log: seq<Event>, e: Event, cred: string, h: nat)
    ensures WasPoppedBy(log, cred, h) ==> WasPoppedBy(log + [e], cred, h)
    ensures e.Popped? && e.cred == cred && e.request == h ==> WasPoppedBy(log + [e], cred, h)
  {
    var log' := log + [e];
    if WasPoppedBy(log, cred, h) {
      var i :| 0 <= i < |log| && log[i].Popped? && log[i].cred == cred && log[i].request == h;
      assert log'[i] == log[i];
    }
    assert log'[|log|] == e;
  }

  lemma AppendIssued(log: seq<Event>, e: Event, cred: string)
    ensures WasIssuedFor(log + [e], cred) <==> WasIssuedFor(log, cred) || (e.Issued? && e.source == cred)
  {
    var log' := log + [e];
    if WasIssuedFor(log, cred) {
      var i :| 0 <= i < |log| && log[i].Issued? && log[i].source == cred;
      assert log'[i] == log[i];
    }
    if e.Issued? && e.source == cred {
      assert log'[|log|] == e;
    }
  }

  /** The facts about the log alone, kept by one more event. */
  lemma AppendSpentOnce(log: seq<Event>, e: Event)
    requires SpentOnce(log)
    requires e.Popped? ==> !WasPopped(log, e.cred)
    requires e.Issued? ==> !WasIssuedFor(log, e.source) && WasPoppedBy(log, e.source, e.request)
    ensures SpentOnce(log + [e])
  {
    var log' := log + [e];
    forall j | 0 <= j < |log'| && log'[j].Issued?
      ensures WasPoppedBy(log'[..j], log'[j].source, log'[j].request)
    {
      assert log'[..j] == log[..j];
      if j == |log| {
        assert log[..j] == log;
      }
    }
  }

  lemma AppendMintedOnce(s: State, e: Event)
    requires Named(s) && MintedOnce(s.log)
    requires forall cred :: Mints(e, cred) ==> cred !in s.minted
    ensures MintedOnce(s.log + [e])
  {
    var log' := s.log + [e];
    forall i, j, cred | 0 <= i < j < |log'| && Mints(log'[j], cred)
      ensures cred !in Mentions(log'[i])
    {
      assert log'[i] == s.log[i];
    }
  }

  /** One event more, or none. */
  lemma GrownLog(s: State, s': State)
    requires Grows(s, s')
    ensures s'.log == s.log || s'.log == s.log + [s'.log[|s.log|]]
  {
  }

  // --- quiet steps -------------------------------------------------------------------------

  lemma QuietRoots(s: State, s': State, cred: string)
    requires Quiet(s, s')
    ensures Root(s'.log, cred) == Root(s.log, cred)
    ensures WasPopped(s'.log, cred) <==> WasPopped(s.log, cred)
    ensures WasIssuedFor(s'.log, cred) <==> WasIssuedFor(s.log, cred)
  {
    GrownLog(s, s');
    if s'.log != s.log {
      RootAppend(s.log, s'.log[|s.log|], cred);
      AppendPopped(s.log, s'.log[|s.log|], cred);
      AppendIssued(s.log, s'.log[|s.log|], cred);
    }
  }

  lemma QuietKeepsLinear(s: State, s': State)
    requires Linear(s) && Quiet(s, s')
    ensures Linear(s')
  {
    forall a | Held(s', a).Some?
      ensures Held(s', a) == Held(s, a) && Root(s'.log, Held(s', a).value) == Root(s.log, Held(s, a).value)
    {
      QuietRoots(s, s', Held(s', a).value);
    }
  }

  lemma QuietKeepsUnspent(s: State, s': State)
    requires Unspent(s) && Quiet(s, s')
    ensures Unspent(s')
  {
    forall a | Held(s', a).Some? && !(a.InFlight? && Spending(s'.flights[a.h]))
      ensures !WasPopped(s'.log, Held(s', a).value)
    {
      QuietRoots(s, s', Held(s', a).value);
    }
    forall h | h in s'.flights && Spending(s'.flights[h])
      ensures WasPoppedBy(s'.log, Cred(s'.flights[h]).value, h) && !WasIssuedFor(s'.log, Cred(s'.flights[h]).value)
    {
      assert Held(s', InFlight(h)).Some?;
      var cred := Cred(s'.flights[h]).value;
      QuietRoots(s, s', cred);
      GrownLog(s, s');
      if s'.log != s.log {
        AppendPoppedBy(s.log, s'.log[|s.log|], cred, h);
      }
    }
  }

  lemma QuietKeepsInv(s: State, s': State)
    requires Inv(s) && Quiet(s, s')
    ensures Inv(s')
  {
    QuietKeepsLinear(s, s');
    QuietKeepsUnspent(s, s');
    GrownLog(s, s');
    if s'.log != s.log {
      AppendSpentOnce(s.log, s'.log[|s.log|]);
      AppendMintedOnce(s, s'.log[|s.log|]);
    }
  }

  // --- the steps that move a credential ----------------------------------------------------

  /** One credential moves from one slot to another, staying in its lineage or vanishing, and
      nothing else changes place. */
  ghost predicate Moves(s: State, s': State, source: Slot, target: Slot) {
    && (forall a :: a != target && Held(s', a).Some? ==> a != source && Held(s', a) == Held(s, a))
    && (forall a :: Held(s, a).Some? ==> Root(s'.log, Held(s, a).value) == Root(s.log, Held(s, a).value))
    && (Held(s', target).Some? ==>
          && Held(s, source).Some?
          && Root(s'.log, Held(s', target).value) == Root(s.log, Held(s, source).value))
  }

  lemma MoveKeepsLinear(s: State, s': State, source: Slot, target: Slot)
    requires Linear(s) && Moves(s, s', source, target) && s.log <= s'.log
    ensures Linear(s')
  {
  }

  /** Live credentials differ from each other. */
  lemma DistinctCreds(s: State, a: Slot, b: Slot)
    requires Linear(s) && Held(s, a).Some? && Held(s, b).Some? && a != b
    ensures Held(s, a) != Held(s, b)
  {
  }

  /** What was paid for had been popped. */
  lemma IssuedWasPopped(log: seq<Event>, cred: string)
    requires SpentOnce(log) && WasIssuedFor(log, cred)
    ensures WasPopped(log, cred)
  {
    var j :| 0 <= j < |log| && log[j].Issued? && log[j].source == cred;
    assert WasPoppedBy(log[..j], log[j].source, log[j].request);
    var i :| 0 <= i < j && log[..j][i].Popped? && log[..j][i].cred == cred;
    assert log[i] == log[..j][i];
  }

  /** A pop by request `h`: the credential leaves `slot`, and either the request is now spending it or
      it has ended. */
  ghost predicate Pops(s: State, s': State, h: nat, slot: Slot, cred: string) {
    && !slot.InFlight? && Held(s, slot) == Some(cred)
    && h in s.flights && Cred(s.flights[h]).None?
    && s'.log == s.log + [Popped(s.now, h, cred)]
    && (forall a :: a != InFlight(h) && Held(s', a).Some? ==> a != slot && Held(s', a) == Held(s, a))
    && (forall k :: k != h && k in s'.flights ==> k in s.flights && s'.flights[k] == s.flights[k])
    && (h in s'.flights ==> Spending(s'.flights[h]) && Cred(s'.flights[h]) == Some(cred))
  }

  lemma PopKeepsInv(s: State, s': State, h: nat, slot: Slot, cred: string)
    requires Inv(s) && Named(s') && Pops(s, s', h, slot, cred)
    ensures Inv(s')
  {
    var e := Popped(s.now, h, cred);
    forall x { RootAppend(s.log, e, x); }
    MoveKeepsLinear(s, s', slot, InFlight(h));
    PopKeepsUnspent(s, s', h, slot, cred);
    AppendSpentOnce(s.log, e);
    AppendMintedOnce(s, e);
  }

  lemma PopKeepsUnspent(s: State, s': State, h: nat, slot: Slot, cred: string)
    requires Inv(s) && Pops(s, s', h, slot, cred)
    ensures Unspent(s')
  {
    var e := Popped(s.now, h, cred);
    forall a | Held(s', a).Some? && !(a.InFlight? && Spending(s'.flights[a.h]))
      ensures !WasPopped(s'.log, Held(s', a).value)
    {
      DistinctCreds(s, a, slot);
      AppendPopped(s.log, e, Held(s', a).value);
    }
    forall k | k in s'.flights && Spending(s'.flights[k])
      ensures WasPoppedBy(s'.log, Cred(s'.flights[k]).value, k) && !WasIssuedFor(s'.log, Cred(s'.flights[k]).value)
    {
      var x := Cred(s'.flights[k]).value;
      AppendPoppedBy(s.log, e, x, k);
      AppendIssued(s.log, e, x);
      if WasIssuedFor(s.log, x) {
        IssuedWasPopped(s.log, x);
      }
    }
  }

  lemma TakeCodeKeepsInv(s: State, h: nat)
    requires Inv(s) && s.At(h) && s.flights[h].CodeRequested?
    ensures Inv(DoTakeCode(s, h))
  {
    var f := s.flights[h];
    var s' := DoTakeCode(s, h);
    if f.code in s.store.codes {
      TakeCodeNamed(s, h);
      PopKeepsInv(s, s', h, InCodes(f.code), f.code);
    } else {
      ShrinkQuiet(s, s.store);
      FinishQuiet(s, s, h, INVALID_GRANT);
      QuietKeepsInv(s, s');
    }
  }

  lemma TakeCodeNamed(s: State, h: nat)
    requires Named(s) && s.At(h) && s.flights[h].CodeRequested? && s.flights[h].code in s.store.codes
    ensures Named(DoTakeCode(s, h))
  {
  }

  lemma TakeRefreshKeepsInv(s: State, h: nat)
    requires Inv(s) && s.At(h) && s.flights[h].RefreshRequested?
    ensures Inv(DoTakeRefresh(s, h))
  {
    var token := s.flights[h].token;
    var s' := DoTakeRefresh(s, h);
    if token in s.store.refresh {
      TakeRefreshNamed(s, h);
      PopKeepsInv(s, s', h, InRefresh(token), token);
    } else {
      ShrinkQuiet(s, s.store);
      FinishQuiet(s, s, h, INVALID_GRANT);
      QuietKeepsInv(s, s');
    }
  }

  lemma TakeRefreshNamed(s: State, h: nat)
    requires Named(s) && s.At(h) && s.flights[h].RefreshRequested? && s.flights[h].token in s.store.refresh
    ensures Named(DoTakeRefresh(s, h))
  {
  }

  /** A credential stays live and keeps its standing while it changes place: from a request into the
      store, or within a request. */
  ghost predicate HandsOn(s: State, s': State, h: nat, target: Slot) {
    && Grows(s, s')
    && (|s'.log| > |s.log| ==> s'.log[|s.log|].CodeStored? || s'.log[|s.log|].Redeemed?)
    && h in s.flights && Cred(s.flights[h]).Some?
    && (forall a :: a != target && Held(s', a).Some? ==> a != InFlight(h) && Held(s', a) == Held(s, a))
    && (forall k :: k != h && k in s'.flights ==> k in s.flights && s'.flights[k] == s.flights[k])
    && (Held(s', target).Some? ==> Held(s', target) == Cred(s.flights[h]))
    && (target == InFlight(h) && h in s'.flights ==> (Spending(s'.flights[h]) <==> Spending(s.flights[h])))
    && (target != InFlight(h) ==> !target.InFlight? && !Spending(s.flights[h]))
  }

  lemma CarryKeepsLog(s: State, s': State, h: nat, target: Slot, x: string)
    requires HandsOn(s, s', h, target)
    ensures Root(s'.log, x) == Root(s.log, x)
    ensures WasPopped(s'.log, x) <==> WasPopped(s.log, x)
    ensures WasIssuedFor(s'.log, x) <==> WasIssuedFor(s.log, x)
  {
    GrownLog(s, s');
    if s'.log != s.log {
      RootAppend(s.log, s'.log[|s.log|], x);
      AppendPopped(s.log, s'.log[|s.log|], x);
      AppendIssued(s.log, s'.log[|s.log|], x);
    }
  }

  lemma CarryKeepsUnspent(s: State, s': State, h: nat, target: Slot)
    requires Unspent(s) && HandsOn(s, s', h, target)
    ensures Unspent(s')
  {
    assert Held(s, InFlight(h)) == Cred(s.flights[h]);
    forall a | Held(s', a).Some? && !(a.InFlight? && Spending(s'.flights[a.h]))
      ensures !WasPopped(s'.log, Held(s', a).value)
    {
      CarryKeepsLog(s, s', h, target, Held(s', a).value);
    }
    forall k | k in s'.flights && Spending(s'.flights[k])
      ensures WasPoppedBy(s'.log, Cred(s'.flights[k]).value, k) && !WasIssuedFor(s'.log, Cred(s'.flights[k]).value)
    {
      assert Held(s', InFlight(k)) == Held(s, InFlight(k));
      CarryKeepsLog(s, s', h, target, Cred(s'.flights[k]).value);
      GrownLog(s, s');
      if s'.log != s.log {
        AppendPoppedBy(s.log, s'.log[|s.log|], Cred(s'.flights[k]).value, k);
      }
    }
  }

  lemma CarryKeepsInv(s: State, s': State, h: nat, target: Slot)
    requires Inv(s) && Named(s') && HandsOn(s, s', h, target)
    ensures Inv(s')
  {
    forall x { CarryKeepsLog(s, s', h, target, x); }
    assert Held(s, InFlight(h)) == Cred(s.flights[h]);
    MoveKeepsLinear(s, s', InFlight(h), target);
    CarryKeepsUnspent(s, s', h, target);
    GrownLog(s, s');
    if s'.log != s.log {
      AppendSpentOnce(s.log, s'.log[|s.log|]);
      AppendMintedOnce(s, s'.log[|s.log|]);
    }
  }

  lemma RefusalKeepsInv(s: State, h: nat, r: Reply)
    requires Inv(s)
    ensures Inv(s.Finish(h, r))
  {
    ShrinkQuiet(s, s.store);
    FinishQuiet(s, s, h, r);
    QuietKeepsInv(s, s.Finish(h, r));
  }

  lemma RedemptionKeepsInv(c: Config, s: State, h: nat)
    requires Inv(s) && s.At(h) && s.flights[h].CodeTaken?
    requires CodeOutcome(c, Some(s.flights[h].entry), s.flights[h].asked, s.now) == None
    ensures Inv(DoCheckCode(c, s, h))
  {
    CheckCodeNamed(c, s, h);
    CarryKeepsInv(s, DoCheckCode(c, s, h), h, InFlight(h));
  }

  lemma CheckCodeKeepsInv(c: Config, s: State, h: nat)
    requires Inv(s) && s.At(h) && s.flights[h].CodeTaken?
    ensures Inv(DoCheckCode(c, s, h))
  {
    match CodeOutcome(c, Some(s.flights[h].entry), s.flights[h].asked, s.now)
    case Some(refusal) => RefusalKeepsInv(s, h, refusal);
    case None => RedemptionKeepsInv(c, s, h);
  }

  lemma CheckCodeNamed(c: Config, s: State, h: nat)
    requires Named(s) && s.At(h) && s.flights[h].CodeTaken?
    ensures Named(DoCheckCode(c, s, h)) && Grows(s, DoCheckCode(c, s, h))
  {
    assert s.flights[h].code in HeldTokens(s.flights[h]);
  }

  lemma LoginStoreKeepsInv(s: State, h: nat)
    requires Inv(s) && s.At(h) && s.flights[h].LoginMinted?
    ensures Inv(DoLoginStore(s, h))
  {
    LoginStoreNamed(s, h);
    CarryKeepsInv(s, DoLoginStore(s, h), h, InCodes(s.flights[h].code));
  }

  lemma LoginStoreNamed(s: State, h: nat)
    requires Named(s) && s.At(h) && s.flights[h].LoginMinted?
    ensures Named(DoLoginStore(s, h))
  {
    assert s.flights[h].code in HeldTokens(s.flights[h]);
  }

  lemma StoreAccessKeepsInv(s: State, h: nat)
    requires Inv(s) && s.At(h) && s.flights[h].PairMinted?
    ensures Inv(DoStoreAccess(s, h))
  {
    StoreAccessNamed(s, h);
    CarryKeepsInv(s, DoStoreAccess(s, h), h, InFlight(h));
  }

  lemma StoreAccessNamed(s: State, h: nat)
    requires Named(s) && s.At(h) && s.flights[h].PairMinted?
    ensures Named(DoStoreAccess(s, h))
  {
    assert s.flights[h].access in HeldTokens(s.flights[h]);
  }

  lemma StoreRefreshKeepsInv(c: Config, s: State, h: nat)
    requires Inv(s) && s.At(h) && s.flights[h].AccessStored?
    ensures Inv(DoStoreRefresh(c, s, h))
  {
    StoreRefreshNamed(c, s, h);
    CarryKeepsInv(s, DoStoreRefresh(c, s, h), h, InRefresh(s.flights[h].refresh));
  }

  lemma StoreRefreshNamed(c: Config, s: State, h: nat)
    requires Named(s) && s.At(h) && s.flights[h].AccessStored?
    ensures Named(DoStoreRefresh(c, s, h))
  {
    assert s.flights[h].refresh in HeldTokens(s.flights[h]);
  }

  /** A login founds a new lineage. */
  lemma LoginMintKeepsInv(c: Config, s: State, h: nat, code: string)
    requires Inv(s) && Enabled(c, s, LoginMint(h, code))
    ensures Inv(DoLoginMint(c, s, h, code))
  {
    var s' := DoLoginMint(c, s, h, code);
    var e := LoggedIn(s.now, h, code, s.flights[h].form, s.flights[h].session.who);
    assert s'.log == s.log + [e];
    MintNamed(s, s', h, {code}, e);
    HeldIsMinted(s);
    forall a | Held(s', a).Some?
      ensures Held(s', a) == if a == InFlight(h) then Some(code) else Held(s, a)
    {
    }
    forall x { RootAppend(s.log, e, x); }
    assert Linear(s');
    MintKeepsUnspent(s, s', h, e, code);
    AppendSpentOnce(s.log, e);
    AppendMintedOnce(s, e);
  }

  /** Minting names only new tokens. */
  lemma MintNamed(s: State, s': State, h: nat, tokens: set<string>, e: Event)
    requires Named(s) && h in s.flights && h in s'.flights
    requires s'.store == s.store && s'.minted == s.minted + tokens && s'.nextId == s.nextId
    requires s'.log == s.log + [e] && Mentions(e) <= s'.minted && HeldTokens(s'.flights[h]) <= s'.minted
    requires s'.flights == s.flights[h := s'.flights[h]]
    ensures Named(s')
  {
  }

  lemma HeldIsMinted(s: State)
    requires Named(s)
    ensures forall a :: Held(s, a).Some? ==> Held(s, a).value in s.minted
    ensures forall x :: x !in s.minted ==> !WasPopped(s.log, x) && !WasIssuedFor(s.log, x)
  {
    forall a | Held(s, a).Some?
      ensures Held(s, a).value in s.minted
    {
      if a.InFlight? {
        assert Held(s, a).value in HeldTokens(s.flights[a.h]);
      }
    }
    forall x | x !in s.minted
      ensures !WasPopped(s.log, x) && !WasIssuedFor(s.log, x)
    {
      forall i | 0 <= i < |s.log|
        ensures x !in Mentions(s.log[i])
      {
      }
    }
  }

  /** After a mint by request `h`, its new credential is unspent, and so are all others that were. */
  lemma MintKeepsUnspent(s: State, s': State, h: nat, e: Event, cred: string)
    requires Inv(s) && cred !in s.minted && !e.Popped?
    requires h in s.flights && s'.log == s.log + [e] && s'.store == s.store
    requires h in s'.flights && s'.flights == s.flights[h := s'.flights[h]]
    requires Cred(s'.flights[h]) == Some(cred) && !Spending(s'.flights[h])
    requires e.Issued? ==> Cred(s.flights[h]) == Some(e.source)
    ensures Unspent(s')
  {
    HeldIsMinted(s);
    forall a | Held(s', a).Some? && !(a.InFlight? && Spending(s'.flights[a.h]))
      ensures !WasPopped(s'.log, Held(s', a).value)
    {
      AppendPopped(s.log, e, Held(s', a).value);
      if a != InFlight(h) {
        assert Held(s', a) == Held(s, a);
      }
    }
    forall k | k in s'.flights && Spending(s'.flights[k])
      ensures WasPoppedBy(s'.log, Cred(s'.flights[k]).value, k) && !WasIssuedFor(s'.log, Cred(s'.flights[k]).value)
    {
      var x := Cred(s'.flights[k]).value;
      AppendPoppedBy(s.log, e, x, k);
      AppendIssued(s.log, e, x);
      if e.Issued? {
        DistinctCreds(s, InFlight(k), InFlight(h));
      }
    }
  }

  /** A pair continues the lineage of the credential it was paid with. */
  lemma MintPairKeepsLinear(s: State, s': State, h: nat, source: string, refresh: string, e: Event)
    requires Named(s) && Linear(s) && Held(s, InFlight(h)) == Some(source) && refresh !in s.minted
    requires e.Issued? && e.source == source && e.refresh == refresh && s'.log == s.log + [e]
    requires s'.store == s.store && h in s'.flights && s'.flights == s.flights[h := s'.flights[h]]
    requires Cred(s'.flights[h]) == Some(refresh)
    ensures Linear(s')
  {
    HeldIsMinted(s);
    forall x { RootAppend(s.log, e, x); }
    forall a
      ensures Held(s', a) == if a == InFlight(h) then Some(refresh) else Held(s, a)
    {
    }
    MoveKeepsLinear(s, s', InFlight(h), InFlight(h));
  }

  lemma MintPairKeepsInv(c: Config, s: State, h: nat, access: string, refresh: string)
    requires Inv(s) && Enabled(c, s, MintPair(h, access, refresh))
    ensures Inv(DoMintPair(c, s, h, access, refresh))
  {
    var s' := DoMintPair(c, s, h, access, refresh);
    var f := s.flights[h];
    var e := Issued(s.now, h, f.source, access, refresh, f.session.who);
    assert f.source in HeldTokens(f);
    MintNamed(s, s', h, {access, refresh}, e);
    MintPairKeepsLinear(s, s', h, f.source, refresh, e);
    MintKeepsUnspent(s, s', h, e, refresh);
    IssueWasPaid(s, h, e);
    AppendSpentOnce(s.log, e);
    AppendMintedOnce(s, e);
  }

  lemma IssueWasPaid(s: State, h: nat, e: Event)
    requires Unspent(s) && s.At(h) && s.flights[h].Authorized? && e.Issued? && e.source == s.flights[h].source && e.request == h
    ensures !WasIssuedFor(s.log, e.source) && WasPoppedBy(s.log, e.source, e.request)
  {
    assert Spending(s.flights[h]);
  }

  lemma CredentialStepKeepsInv(c: Config, s: State, a: Action)
    requires Inv(s) && Enabled(c, s, a) && !IsQuiet(a)
    ensures Inv(Apply(c, s, a))
  {
    match a
    case LoginMint(h, code) => LoginMintKeepsInv(c, s, h, code);
    case LoginStore(h) => LoginStoreKeepsInv(s, h);
    case TakeCode(h) => TakeCodeKeepsInv(s, h);
    case CheckCode(h) => CheckCodeKeepsInv(c, s, h);
    case TakeRefresh(h) => TakeRefreshKeepsInv(s, h);
    case MintPair(h, access, refresh) => MintPairKeepsInv(c, s, h, access, refresh);
    case StoreAccess(h) => StoreAccessKeepsInv(s, h);
    case StoreRefresh(h) => StoreRefreshKeepsInv(c, s, h);
  }

  lemma StepKeepsInv(c: Config, s: State, a: Action)
    requires Inv(s) && Enabled(c, s, a)
    ensures Inv(Apply(c, s, a))
  {
    if IsQuiet(a) {
      QuietSteps(c, s, a);
      QuietKeepsInv(s, Apply(c, s, a));
    } else {
      CredentialStepKeepsInv(c, s, a);
    }
  }

  /** Every state of every run satisfies the invariant. */
  lemma {:induction false} RunInv(c: Config, run: seq<State>, n: nat)
    requires Run(c, run) && n < |run|
    ensures Inv(run[n])
  {
    if n == 0 {
      InitInv(run[0]);
    } else {
      RunInv(c, run, n - 1);
      var a := LastAction(c, run, n);
      StepKeepsInv(c, run[n - 1], a);
    }
  }
}
