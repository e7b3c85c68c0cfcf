/** auth/token_store.py:69-175 as a class. The dictionaries hold session objects, not copies; every method
    is tied to the operation of `TokenStore.Store` with the same name on the values they hold. */
module InMemoryTokenStore {
  import opened Prelude
  import opened Sessions
  import opened TokenStore

  function Values(m: map<string, UserSession>): map<string, Session>
    reads m.Values
  {
    map t | t in m :: m[t].Value()
  }

  function EntryValue(e: CodeEntry<UserSession>): CodeEntry<Session>
    reads e.session
  {
    CodeEntry(e.session.Value(), e.redirectUri, e.clientId, e.expiresAt, e.challenge)
  }

  function EntrySessions(m: map<string, CodeEntry<UserSession>>): set<UserSession> {
    set c | c in m :: m[c].session
  }

  function EntryValues(m: map<string, CodeEntry<UserSession>>): map<string, CodeEntry<Session>>
    reads EntrySessions(m)
  {
    map c | c in m :: EntryValue(m[c])
  }

  /** The tokens whose session is expired, and the codes past their bound, read off the references. */
  ghost function DeadTokens(m: map<string, UserSession>, now: real): set<string>
    reads m.Values
  {
    set t | t in m && Expired(m[t].Value(), now)
  }

  ghost function DeadCodes(m: map<string, CodeEntry<UserSession>>, now: real): set<string> {
    set c | c in m && CodeExpired(m[c], now)
  }

  ghost function Elements(s: seq<string>): set<string> {
    set t | t in s
  }

  ghost predicate Distinct(s: seq<string>) {
    forall i, j :: 0 <= i < j < |s| ==> s[i] != s[j]
  }

  lemma {:induction false} DistinctCount(s: seq<string>)
    requires Distinct(s)
    ensures |Elements(s)| == |s|
  {
    if s != [] {
      var init := s[..|s| - 1];
      DistinctCount(init);
      assert Elements(s) == Elements(init) + {s[|s| - 1]};
    }
  }

  class InMemoryTokenStore {
    var sessions: map<string, UserSession>
    var codes: map<string, CodeEntry<UserSession>>
    var clients: map<string, Client>
    var refresh: map<string, UserSession>
    var rate: map<string, Window>

    constructor ()
      ensures View() == EMPTY && sessions == map[] && codes == map[] && refresh == map[]
    {
      sessions, codes, clients, refresh, rate := map[], map[], map[], map[], map[];
    }

    /** The values behind the references. */
    ghost function View(): Store
      reads this, sessions.Values, EntrySessions(codes), refresh.Values
    {
      Store(Values(sessions), EntryValues(codes), clients, Values(refresh), rate)
    }

    method PutSession(token: string, s: UserSession)
      modifies this`sessions
      ensures sessions == old(sessions)[token := s]
      ensures View() == old(View()).PutSession(token, s.Value())
    {
      sessions := sessions[token := s];
    }

    method GetSession(token: string, clock: real) returns (s: Option<UserSession>)
      modifies this`sessions
      ensures View() == old(View()).GetSession(token, clock).0
      ensures old(View()).GetSession(token, clock).1 == if s.Some? then Some(s.value.Value()) else None
      ensures s == if token in old(sessions) && !Expired(old(sessions[token].Value()), clock) then Some(old(sessions[token])) else None
      ensures sessions == if s == None then old(sessions) - {token} else old(sessions)
    {
      if token !in sessions {
        return None;
      }
      if sessions[token].IsExpired(None, clock) {
        sessions := sessions - {token};
        return None;
      }
      return Some(sessions[token]);
    }

    method DeleteSession(token: string)
      modifies this`sessions
      ensures sessions == old(sessions) - {token}
      ensures View() == old(View()).DeleteSession(token)
    {
      sessions := sessions - {token};
    }

    /** The tokens that `is_expired(now)` picks out, each once. */
    method ExpiredTokens(now: real, clock: real) returns (expired: seq<string>)
      requires 0.0 < now
      ensures Elements(expired) == DeadTokens(sessions, now) && Distinct(expired)
    {
      expired := [];
      var pending := sessions.Keys;
      while pending != {}
        invariant pending <= sessions.Keys && Distinct(expired)
        invariant forall t :: t in expired <==> t in DeadTokens(sessions, now) && t !in pending
        decreases pending
      {
        var t :| t in pending;
        if sessions[t].IsExpired(Some(now), clock) {
          expired := expired + [t];
        }
        pending := pending - {t};
      }
    }

    method PopSessions(keys: seq<string>)
      modifies this`sessions
      ensures sessions == old(sessions) - Elements(keys)
    {
      for i := 0 to |keys|
        invariant sessions == old(sessions) - Elements(keys[..i])
      {
        sessions := sessions - {keys[i]};
      }
      assert keys[..|keys|] == keys;
    }

    /** Collect the expired tokens, then pop them one by one; `now` was read before the lock was taken. */
    method PurgeExpiredSessions(now: real, clock: real) returns (n: nat)
      requires 0.0 < now
      modifies this`sessions
      ensures View() == old(View()).PurgeSessions(now).0 && n == old(View()).PurgeSessions(now).1
      ensures sessions == old(sessions) - old(DeadTokens(sessions, now)) && n == |old(DeadTokens(sessions, now))|
    {
      assert View().ExpiredSessions(now) == DeadTokens(sessions, now);
      var expired := ExpiredTokens(now, clock);
      PopSessions(expired);
      DistinctCount(expired);
      n := |expired|;
    }

    method PutCode(code: string, e: CodeEntry<UserSession>)
      modifies this`codes
      ensures codes == old(codes)[code := e]
      ensures View() == old(View()).PutCode(code, EntryValue(e))
    {
      codes := codes[code := e];
    }

    method PopCode(code: string) returns (e: Option<CodeEntry<UserSession>>)
      modifies this`codes
      ensures View() == old(View()).PopCode(code).0
      ensures old(View()).PopCode(code).1 == if e.Some? then Some(EntryValue(e.value)) else None
      ensures codes == old(codes) - {code}
      ensures e == if code in old(codes) then Some(old(codes)[code]) else None
    {
      e := if code in codes then Some(codes[code]) else None;
      codes := codes - {code};
    }

    /** The codes past their bound, each once. */
    method OverdueCodes(now: real) returns (expired: seq<string>)
      ensures Elements(expired) == DeadCodes(codes, now) && Distinct(expired)
    {
      expired := [];
      var pending := codes.Keys;
      while pending != {}
        invariant pending <= codes.Keys && Distinct(expired)
        invariant forall c :: c in expired <==> c in DeadCodes(codes, now) && c !in pending
        decreases pending
      {
        var c :| c in pending;
        if now > codes[c].expiresAt {
          expired := expired + [c];
        }
        pending := pending - {c};
      }
    }

    method PopCodes(keys: seq<string>)
      modifies this`codes
      ensures codes == old(codes) - Elements(keys)
    {
      for i := 0 to |keys|
        invariant codes == old(codes) - Elements(keys[..i])
      {
        codes := codes - {keys[i]};
      }
      assert keys[..|keys|] == keys;
    }

    method PurgeExpiredCodes(now: real) returns (n: nat)
      modifies this`codes
      ensures View() == old(View()).PurgeCodes(now).0 && n == old(View()).PurgeCodes(now).1
      ensures codes == old(codes) - DeadCodes(old(codes), now) && n == |DeadCodes(old(codes), now)|
    {
      assert View().ExpiredCodes(now) == DeadCodes(codes, now);
      var expired := OverdueCodes(now);
      PopCodes(expired);
      DistinctCount(expired);
      n := |expired|;
    }

    method PutClient(clientId: string, client: Client)
      modifies this`clients
      ensures clients == old(clients)[clientId := client]
      ensures View() == old(View()).PutClient(clientId, client)
    {
      clients := clients[clientId := client];
    }

    method GetClient(clientId: string) returns (client: Option<Client>)
      ensures client == View().GetClient(clientId)
    {
      client := if clientId in clients then Some(clients[clientId]) else None;
    }

    method PutRefresh(token: string, s: UserSession)
      modifies this`refresh
      ensures refresh == old(refresh)[token := s]
      ensures View() == old(View()).PutRefresh(token, s.Value())
    {
      refresh := refresh[token := s];
    }

    method PopRefresh(token: string, clock: real) returns (s: Option<UserSession>)
      modifies this`refresh
      ensures View() == old(View()).PopRefresh(token, clock).0
      ensures old(View()).PopRefresh(token, clock).1 == if s.Some? then Some(s.value.Value()) else None
      ensures s == if token in old(refresh) && !Expired(old(refresh[token].Value()), clock) then Some(old(refresh[token])) else None
      ensures refresh == old(refresh) - {token}
    {
      if token !in refresh {
        assert refresh - {token} == refresh;
        return None;
      }
      s := Some(refresh[token]);
      refresh := refresh - {token};
      if s.value.IsExpired(None, clock) {
        s := None;
      }
    }

    method IncrRate(key: string, seconds: int, clock: real) returns (count: nat)
      modifies this`rate
      ensures rate == old(rate)[key := Bump(RateAt(old(rate), key), seconds, clock)] && count == rate[key].count
      ensures View() == old(View()).IncrRate(key, seconds, clock).0 && count == old(View()).IncrRate(key, seconds, clock).1
    {
      var w := if key in rate then rate[key] else NO_WINDOW;
      if clock >= w.end {
        w := Window(0, clock + seconds as real);
      }
      w := w.(count := w.count + 1);
      rate := rate[key := w];
      count := w.count;
    }
  }
}
