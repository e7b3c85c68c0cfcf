/** auth/store.py: the session record and its expiry test. */
module Sessions {
  import opened Prelude

  /** A clock reading. The code takes a zero reading for a missing one, so the model starts after it. */
  type Instant = t: real | 0.0 < t witness 1.0

  /** The four fields that say whose Redmine account a token stands for. */
  datatype Identity = Identity(url: string, apiKey: string, userId: int, login: string)

  /** What one `UserSession` object holds at one moment. */
  datatype Session = Session(who: Identity, expiresAt: real)

  /** `is_expired`: the upper bound is exclusive, so a session is dead at its own `expires_at`. */
  predicate Expired(s: Session, now: real) {
    now >= s.expiresAt
  }

  /** A dataclass instance. Only `expires_at` is ever reassigned, by the token issuer. */
  class UserSession {
    const who: Identity
    var expiresAt: real

    constructor (who: Identity, expiresAt: real)
      ensures Value() == Session(who, expiresAt)
    {
      this.who := who;
      this.expiresAt := expiresAt;
    }

    function Value(): (s: Session)
      reads this
    {
      Session(who, expiresAt)
    }

    /** `is_expired(now)`. An omitted argument, and also a literal zero, means "read the clock". */
    predicate IsExpired(now: Option<real>, clock: real)
      reads this
      ensures (now == None || now == Some(clock)) ==> (IsExpired(now, clock) <==> Expired(Value(), clock))
      ensures now == Some(0.0) ==> (IsExpired(now, clock) <==> Expired(Value(), clock))
      ensures now.Some? && now.value > 0.0 ==> (IsExpired(now, clock) <==> Expired(Value(), now.value))
    {
      (if now.Some? && now.value != 0.0 then now.value else clock) >= expiresAt
    }
  }
}
