/** Who holds which `UserSession` object: the argument that lets sessions be mutated in place. */
module Ownership {
  import opened Prelude
  import opened Sessions
  import opened TokenStore
  import opened Grants
  import opened InMemoryTokenStore

  /** A place that can hold one session object: a dictionary entry, the hand of a request, or its
      second hand, where the session behind the next refresh token waits. */
  datatype Place =
    | SessionEntry(token: string)
    | CodeEntryOf(code: string)
    | RefreshEntry(token: string)
    | Hand(h: nat)
    | SecondHand(h: nat)

  /** Every reference to a session, wherever it is. */
  datatype Graph = Graph(
    sessions: map<string, UserSession>,
    codes: map<string, CodeEntry<UserSession>>,
    refresh: map<string, UserSession>,
    flights: map<nat, Flight<UserSession>>)
  {
    ghost function At(p: Place): Option<UserSession> {
      match p
      case SessionEntry(t) => if t in sessions then Some(sessions[t]) else None
      case CodeEntryOf(c) => if c in codes then Some(codes[c].session) else None
      case RefreshEntry(t) => if t in refresh then Some(refresh[t]) else None
      case Hand(h) => if h in flights then InHand(flights[h]) else None
      case SecondHand(h) => if h in flights then InSecondHand(flights[h]) else None
    }

    /** Two places hold different objects, unless they are one place. */
    ghost predicate Apart(p: Place, q: Place) {
      At(p).Some? && At(p) == At(q) ==> p == q
    }

    ghost predicate Within(at: Snapshot) {
      forall p :: At(p).Some? ==> At(p).value in at
    }

    /** No session object is in two places. */
    ghost predicate Unique() {
      forall p, q :: Apart(p, q)
    }
  }

  function InHand(f: Flight<UserSession>): Option<UserSession> {
    match f
    case LoginValidated(_, s, _) => Some(s)
    case LoginPurged(_, s) => Some(s)
    case LoginMinted(_, e) => Some(e.session)
    case CodeTaken(_, e, _) => Some(e.session)
    case Authorized(_, s) => Some(s)
    case PairMinted(_, s, _, _) => Some(s)
    case _ => None
  }

  function InSecondHand(f: Flight<UserSession>): Option<UserSession> {
    match f
    case PairMinted(_, _, _, next) => Some(next)
    case AccessStored(_, _, next) => Some(next)
    case _ => None
  }

  /** Ownership is in order: nobody shares, and every held object is accounted for in `at`. */
  ghost predicate Sole(g: Graph, at: Snapshot) {
    g.Unique() && g.Within(at)
  }

  /** A step that moves one object, and may drop others, keeps ownership in order. */
  lemma MoveKeepsSole(g: Graph, g': Graph, from: Place, to: Place, at: Snapshot)
    requires Sole(g, at)
    requires g'.At(to) == None || g'.At(to) == g.At(from)
    requires from != to ==> g'.At(from) == None
    requires forall p :: p != from && p != to ==> g'.At(p) == None || g'.At(p) == g.At(p)
    ensures Sole(g', at)
  {
    forall p, q ensures g'.Apart(p, q) {
      assert g.Apart(if p == to then from else p, if q == to then from else q);
    }
  }

  /** So does a step that takes in an object that nobody holds. */
  lemma AdoptionKeepsSole(g: Graph, g': Graph, to: Place, s: UserSession, at: Snapshot, at': Snapshot)
    requires Sole(g, at)
    requires s !in at && at'.Keys == at.Keys + {s}
    requires g'.At(to) == Some(s)
    requires forall p :: p != to ==> g'.At(p) == None || g'.At(p) == g.At(p)
    ensures Sole(g', at')
  {
    forall p, q ensures g'.Apart(p, q) {
      assert g.Apart(p, q);
    }
  }

  /** A request moves on with what it has in its hands, or with less. */
  lemma AdvanceKeepsSole(g: Graph, h: nat, f: Flight<UserSession>, at: Snapshot)
    requires Sole(g, at)
    requires InHand(f) == None || InHand(f) == g.At(Hand(h))
    requires InSecondHand(f) == None || InSecondHand(f) == g.At(SecondHand(h))
    ensures Sole(g.(flights := g.flights[h := f]), at)
  {
    MoveKeepsSole(g, g.(flights := g.flights[h := f]), Hand(h), Hand(h), at);
  }

  /** Entries and requests may go, whatever they hold. */
  lemma DroppingKeepsSole(g: Graph, g': Graph, at: Snapshot)
    requires Sole(g, at)
    requires Submap(g'.sessions, g.sessions) && Submap(g'.codes, g.codes)
    requires Submap(g'.refresh, g.refresh) && Submap(g'.flights, g.flights)
    ensures Sole(g', at)
  {
    MoveKeepsSole(g, g', Hand(0), Hand(0), at);
  }

  // ---------------------------------------------------------------------------------------
  // The values behind the references, given what every object holds.
  // ---------------------------------------------------------------------------------------

  /** What each session object holds at one moment. */
  type Snapshot = map<UserSession, Session>

  function Look(at: Snapshot, s: UserSession): Session {
    if s in at then at[s] else Session(s.who, 0.0)
  }

  function SessionValues(m: map<string, UserSession>, at: Snapshot): map<string, Session> {
    map t | t in m :: Look(at, m[t])
  }

  function EntryIn(e: CodeEntry<UserSession>, at: Snapshot): CodeEntry<Session> {
    CodeEntry(Look(at, e.session), e.redirectUri, e.clientId, e.expiresAt, e.challenge)
  }

  function CodeValues(m: map<string, CodeEntry<UserSession>>, at: Snapshot): map<string, CodeEntry<Session>> {
    map c | c in m :: EntryIn(m[c], at)
  }

  function FlightIn(f: Flight<UserSession>, at: Snapshot): Flight<Session> {
    match f
    case LoginStarted(ip, form) => LoginStarted(ip, form)
    case LoginAdmitted(form) => LoginAdmitted(form)
    case LoginAllowed(form) => LoginAllowed(form)
    case LoginValidated(form, s, purgeAt) => LoginValidated(form, Look(at, s), purgeAt)
    case LoginPurged(form, s) => LoginPurged(form, Look(at, s))
    case LoginMinted(code, e) => LoginMinted(code, EntryIn(e, at))
    case CodeRequested(code, asked) => CodeRequested(code, asked)
    case RefreshRequested(token) => RefreshRequested(token)
    case CodeTaken(code, e, asked) => CodeTaken(code, EntryIn(e, at), asked)
    case Authorized(source, s) => Authorized(source, Look(at, s))
    case PairMinted(access, s, refresh, next) => PairMinted(access, Look(at, s), refresh, Look(at, next))
    case AccessStored(access, refresh, next) => AccessStored(access, refresh, Look(at, next))
    case RevokePurging(purgeAt) => RevokePurging(purgeAt)
    case RegisterAdmitted => RegisterAdmitted
    case RegisterMinted(id, client) => RegisterMinted(id, client)
  }

  function FlightValues(m: map<nat, Flight<UserSession>>, at: Snapshot): map<nat, Flight<Session>> {
    map h | h in m :: FlightIn(m[h], at)
  }

  lemma FlightsMove(m: map<nat, Flight<UserSession>>, h: nat, f: Flight<UserSession>, at: Snapshot)
    ensures FlightValues(m[h := f], at) == FlightValues(m, at)[h := FlightIn(f, at)]
    ensures FlightValues(m - {h}, at) == FlightValues(m, at) - {h}
  {
  }

  lemma SessionsMove(m: map<string, UserSession>, t: string, s: UserSession, at: Snapshot)
    ensures SessionValues(m[t := s], at) == SessionValues(m, at)[t := Look(at, s)]
  {
  }

  lemma SessionsDrop(m: map<string, UserSession>, gone: set<string>, at: Snapshot)
    ensures SessionValues(m - gone, at) == SessionValues(m, at) - gone
  {
  }

  lemma CodesMove(m: map<string, CodeEntry<UserSession>>, c: string, e: CodeEntry<UserSession>, at: Snapshot)
    ensures CodeValues(m[c := e], at) == CodeValues(m, at)[c := EntryIn(e, at)]
  {
  }

  lemma CodesDrop(m: map<string, CodeEntry<UserSession>>, gone: set<string>, at: Snapshot)
    ensures CodeValues(m - gone, at) == CodeValues(m, at) - gone
  {
  }

  /** Overwriting one session object in place changes no value but that of its only holder. */
  lemma OverwriteIsLocal(g: Graph, h: nat, s: UserSession, v: Session, at: Snapshot)
    requires Sole(g, at)
    requires s in at ==> g.At(Hand(h)) == Some(s)
    ensures SessionValues(g.sessions, at[s := v]) == SessionValues(g.sessions, at)
    ensures CodeValues(g.codes, at[s := v]) == CodeValues(g.codes, at)
    ensures SessionValues(g.refresh, at[s := v]) == SessionValues(g.refresh, at)
    ensures FlightValues(g.flights - {h}, at[s := v]) == FlightValues(g.flights - {h}, at)
  {
    OnlyInHand(g, h, s, at);
    SessionsIgnore(g.sessions, s, v, at) by {
      forall t | t in g.sessions ensures g.sessions[t] != s { assert g.At(SessionEntry(t)) != Some(s); }
    }
    SessionsIgnore(g.refresh, s, v, at) by {
      forall t | t in g.refresh ensures g.refresh[t] != s { assert g.At(RefreshEntry(t)) != Some(s); }
    }
    forall t | t in g.codes ensures g.codes[t].session != s { assert g.At(CodeEntryOf(t)) != Some(s); }
    FlightsIgnore(g, h, s, v, at);
  }

  lemma OnlyInHand(g: Graph, h: nat, s: UserSession, at: Snapshot)
    requires Sole(g, at)
    requires s in at ==> g.At(Hand(h)) == Some(s)
    ensures forall p :: g.At(p) == Some(s) ==> p == Hand(h)
  {
    forall p | g.At(p) == Some(s) ensures p == Hand(h) {
      assert g.Apart(p, Hand(h));
    }
  }

  lemma SessionsIgnore(m: map<string, UserSession>, s: UserSession, v: Session, at: Snapshot)
    requires forall t :: t in m ==> m[t] != s
    ensures SessionValues(m, at[s := v]) == SessionValues(m, at)
  {
  }

  lemma FlightsIgnore(g: Graph, h: nat, s: UserSession, v: Session, at: Snapshot)
    requires forall p :: g.At(p) == Some(s) ==> p == Hand(h)
    ensures FlightValues(g.flights - {h}, at[s := v]) == FlightValues(g.flights - {h}, at)
  {
    forall k | k in g.flights && k != h ensures FlightIn(g.flights[k], at[s := v]) == FlightIn(g.flights[k], at) {
      assert g.At(Hand(k)) != Some(s) && g.At(SecondHand(k)) != Some(s);
    }
  }

  /** A request's value replaces its old one. */
  lemma FlightsReplace(m: map<nat, Flight<UserSession>>, h: nat, f: Flight<UserSession>, at: Snapshot, at': Snapshot)
    requires FlightValues(m - {h}, at') == FlightValues(m - {h}, at)
    ensures FlightValues(m[h := f], at') == FlightValues(m, at)[h := FlightIn(f, at')]
  {
    FlightsMove(m, h, f, at);
    FlightsMove(m, h, f, at');
    assert FlightValues(m, at')[h := FlightIn(f, at')] == (FlightValues(m, at') - {h})[h := FlightIn(f, at')];
    assert FlightValues(m, at)[h := FlightIn(f, at')] == (FlightValues(m, at) - {h})[h := FlightIn(f, at')];
  }

  /** The expired entries of the heap are the expired entries of its image. */
  lemma DeadAreShown(g: Graph, at: Snapshot, now: real)
    requires Sole(g, at)
    requires forall s :: s in at ==> s.Value() == at[s]
    ensures DeadTokens(g.sessions, now) == set t | t in SessionValues(g.sessions, at) && Expired(SessionValues(g.sessions, at)[t], now)
  {
    forall t | t in g.sessions ensures g.sessions[t] in at { assert g.At(SessionEntry(t)) == Some(g.sessions[t]); }
  }

  // ---------------------------------------------------------------------------------------
  // Steps that hand a session over, seen through the snapshot.
  // ---------------------------------------------------------------------------------------

  /** The graph holds what the state says. */
  ghost predicate Shows(g: Graph, at: Snapshot, s: State) {
    && Sole(g, at)
    && s.store.sessions == SessionValues(g.sessions, at)
    && s.store.codes == CodeValues(g.codes, at)
    && s.store.refresh == SessionValues(g.refresh, at)
    && s.flights == FlightValues(g.flights, at)
  }

  /** The state that has this graph and these lists, and everything else from `s`. */
  ghost function Shown(s: State, g: Graph, at: Snapshot, replies: map<nat, Reply>, log: seq<Event>): State {
    State(s.now, Store(SessionValues(g.sessions, at), CodeValues(g.codes, at), s.store.clients, SessionValues(g.refresh, at), s.store.rate),
          FlightValues(g.flights, at), s.nextId, replies, s.minted, log)
  }

  lemma TakeCodeHandsOver(g: Graph, at: Snapshot, s: State, h: nat)
    requires Shows(g, at, s) && h in g.flights && g.flights[h].CodeRequested?
    ensures var code := g.flights[h].code;
            var flights := if code in g.codes then g.flights[h := CodeTaken(code, g.codes[code], g.flights[h].asked)] else g.flights - {h};
            var g' := g.(codes := g.codes - {code}, flights := flights);
            && Sole(g', at)
            && DoTakeCode(s, h) == Shown(s, g', at, if code in g.codes then s.replies else s.replies[h := INVALID_GRANT],
                                         if code in g.codes then s.log + [Popped(s.now, h, code)] else s.log)
  {
    var CodeRequested(code, asked) := g.flights[h];
    assert s.flights[h] == CodeRequested(code, asked);
    CodesDrop(g.codes, {code}, at);
    FlightsMove(g.flights, h, g.flights[h], at);
    if code in g.codes {
      var f := CodeTaken(code, g.codes[code], asked);
      FlightsMove(g.flights, h, f, at);
      MoveKeepsSole(g, g.(codes := g.codes - {code}, flights := g.flights[h := f]), CodeEntryOf(code), Hand(h), at);
    } else {
      assert g.codes - {code} == g.codes;
      DroppingKeepsSole(g, g.(flights := g.flights - {h}), at);
    }
  }

  lemma TakeRefreshHandsOver(g: Graph, at: Snapshot, s: State, h: nat) returns (g': Graph, live: bool)
    requires Shows(g, at, s) && h in g.flights && g.flights[h].RefreshRequested?
    ensures var token := g.flights[h].token;
            && live == (token in g.refresh && !Expired(Look(at, g.refresh[token]), s.now))
            && (token in g.refresh ==> g.refresh[token] in at)
            && g' == g.(refresh := g.refresh - {token},
                        flights := if live then g.flights[h := Authorized(token, g.refresh[token])] else g.flights - {h})
            && Sole(g', at)
            && DoTakeRefresh(s, h) == Shown(s, g', at, if live then s.replies else s.replies[h := INVALID_GRANT],
                                            if token in g.refresh then s.log + [Popped(s.now, h, token)] else s.log)
  {
    var token := g.flights[h].token;
    assert s.flights[h] == RefreshRequested(token);
    assert token in g.refresh ==> g.At(RefreshEntry(token)) == Some(g.refresh[token]);
    live := token in g.refresh && !Expired(Look(at, g.refresh[token]), s.now);
    g' := g.(refresh := g.refresh - {token},
             flights := if live then g.flights[h := Authorized(token, g.refresh[token])] else g.flights - {h});
    SessionsDrop(g.refresh, {token}, at);
    FlightsMove(g.flights, h, if live then Authorized(token, g.refresh[token]) else g.flights[h], at);
    if live {
      MoveKeepsSole(g, g', RefreshEntry(token), Hand(h), at);
    } else {
      assert token !in g.refresh ==> g.refresh - {token} == g.refresh;
      DroppingKeepsSole(g, g', at);
    }
  }

  lemma LookupLends(g: Graph, at: Snapshot, s: State, token: string)
    requires Shows(g, at, s)
    ensures Sole(g.(sessions := g.sessions - {token}), at)
    ensures token in g.sessions ==> g.sessions[token] in at
    ensures DoLookup(s, token) ==
              if token in g.sessions && !Expired(Look(at, g.sessions[token]), s.now)
              then s.Record(Accepted(s.now, token, Look(at, g.sessions[token])))
              else s.(store := s.store.(sessions := SessionValues(g.sessions - {token}, at)))
  {
    SessionsDrop(g.sessions, {token}, at);
    DroppingKeepsSole(g, g.(sessions := g.sessions - {token}), at);
    if token in g.sessions {
      assert g.At(SessionEntry(token)) == Some(g.sessions[token]);
    } else {
      assert g.sessions - {token} == g.sessions;
    }
  }

  /** A revocation's purge drops the expired entries and answers. */
  lemma RevokePurgeDrops(c: Config, g: Graph, at: Snapshot, s: State, h: nat)
    requires c.backend == Backend.Memory && Shows(g, at, s) && h in g.flights && g.flights[h].RevokePurging?
    requires forall s :: s in at ==> s.Value() == at[s]
    ensures var g' := g.(sessions := g.sessions - DeadTokens(g.sessions, g.flights[h].purgeAt), flights := g.flights - {h});
            Sole(g', at) && DoRevokePurge(c, s, h) == Shown(s, g', at, s.replies[h := Accomplished], s.log)
  {
    var RevokePurging(purgeAt) := g.flights[h];
    var dead := DeadTokens(g.sessions, purgeAt);
    assert s.flights[h] == RevokePurging(purgeAt);
    DeadAreShown(g, at, purgeAt);
    SessionsDrop(g.sessions, dead, at);
    FlightsMove(g.flights, h, g.flights[h], at);
    DroppingKeepsSole(g, g.(sessions := g.sessions - dead, flights := g.flights - {h}), at);
  }

  /** Issuing a pair overwrites the session in hand and takes in a new one. */
  lemma MintPairOverwrites(c: Config, g: Graph, at: Snapshot, s: State, h: nat, f: Flight<UserSession>)
    returns (at': Snapshot, log: seq<Event>)
    requires Shows(g, at, s) && h in g.flights && g.flights[h].Authorized?
    requires f.PairMinted? && f.session == g.flights[h].session && f.next !in at
    requires Look(at, f.session).who == f.session.who
    ensures at' == at[f.session := Session(f.session.who, s.now + c.accessTtl as real)]
                     [f.next := Session(f.session.who, s.now + c.refreshTtl as real)]
    ensures log == s.log + [Issued(s.now, h, g.flights[h].source, f.access, f.refresh, f.session.who)]
    ensures Sole(g.(flights := g.flights[h := f]), at')
    ensures DoMintPair(c, s, h, f.access, f.refresh)
            == Shown(s, g.(flights := g.flights[h := f]), at', s.replies, log).Mint({f.access, f.refresh})
  {
    var session, next := f.session, f.next;
    var v, v' := Session(session.who, s.now + c.accessTtl as real), Session(session.who, s.now + c.refreshTtl as real);
    assert g.At(Hand(h)) == Some(session);
    var at1 := at[session := v];
    at' := at1[next := v'];
    log := s.log + [Issued(s.now, h, g.flights[h].source, f.access, f.refresh, session.who)];
    OverwriteIsLocal(g, h, session, v, at);
    OverwriteIsLocal(g, h, next, v', at1);
    FlightsReplace(g.flights, h, f, at, at');
    AdoptionKeepsSole(g, g.(flights := g.flights[h := f]), SecondHand(h), next, at, at');
    assert s.flights[h] == Authorized(g.flights[h].source, Look(at, session));
  }
}
