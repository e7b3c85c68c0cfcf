/** auth/token_store_redis.py:28-32 and auth/routes.py:126-128: five kinds of records in one flat
    keyspace, and the text of a rate-limit key. */
module RedisKeys {

  datatype Kind = SessionKind | CodeKind | ClientKind | RefreshKind | RateKind

  function Prefix(kind: Kind): string {
    match kind
    case SessionKind => "mcp:session:"
    case CodeKind => "mcp:code:"
    case ClientKind => "mcp:client:"
    case RefreshKind => "mcp:refresh:"
    case RateKind => "mcp:rate:"
  }

  function Key(kind: Kind, name: string): string {
    Prefix(kind) + name
  }

  /** Two keys coincide only if kind and name do, whatever characters the names hold. */
  lemma KeysDoNotCollide(k1: Kind, n1: string, k2: Kind, n2: string)
    ensures Key(k1, n1) == Key(k2, n2) <==> k1 == k2 && n1 == n2
  {
    if Key(k1, n1) == Key(k2, n2) {
      assert Prefix(k1)[4] == Key(k1, n1)[4] && Prefix(k1)[5] == Key(k1, n1)[5];
      assert Prefix(k2)[4] == Key(k2, n2)[4] && Prefix(k2)[5] == Key(k2, n2)[5];
      assert n1 == Key(k1, n1)[|Prefix(k1)|..];
      assert n2 == Key(k2, n2)[|Prefix(k2)|..];
    }
  }

  // ---------------------------------------------------------------------------------------
  // f"{name}:{window_seconds}:{ip}"
  // ---------------------------------------------------------------------------------------

  function Digit(d: nat): char
    requires d < 10
  {
    "0123456789"[d]
  }

  /** The decimal text of a window length. */
  function Decimal(n: nat): string {
    if n < 10 then [Digit(n)] else Decimal(n / 10) + [Digit(n % 10)]
  }

  function RateKey(name: string, seconds: nat, ip: string): string {
    name + ":" + Decimal(seconds) + ":" + ip
  }

  lemma {:induction false} DecimalInjective(m: nat, n: nat)
    requires Decimal(m) == Decimal(n)
    ensures m == n
  {
    var a, b := Decimal(m), Decimal(n);
    assert a[|a| - 1] == Digit(m % 10) && b[|b| - 1] == Digit(n % 10);
    if m >= 10 && n >= 10 {
      assert a[..|a| - 1] == Decimal(m / 10) && b[..|b| - 1] == Decimal(n / 10);
      DecimalInjective(m / 10, n / 10);
    }
  }

  lemma {:induction false} DecimalHasNoColon(n: nat)
    ensures ':' !in Decimal(n)
  {
    if n >= 10 {
      DecimalHasNoColon(n / 10);
    }
  }

  /** The first colon splits a string in one way only. */
  lemma SplitAtFirstColon(a: string, x: string, b: string, y: string)
    requires ':' !in a && ':' !in b
    requires a + ":" + x == b + ":" + y
    ensures a == b && x == y
  {
    var s := a + ":" + x;
    assert s[|a|] == ':' && s[|b|] == ':';
    assert a == s[..|a|] && b == s[..|b|];
    assert |a| == |b|;
    assert x == s[|a| + 1..] && y == s[|b| + 1..];
  }

  /** One counter per endpoint name, window and client address, even though IPv6 addresses
      contain colons: it is enough that the endpoint names do not. */
  lemma RateKeyInjective(name1: string, seconds1: nat, ip1: string, name2: string, seconds2: nat, ip2: string)
    requires ':' !in name1 && ':' !in name2
    ensures RateKey(name1, seconds1, ip1) == RateKey(name2, seconds2, ip2)
            <==> name1 == name2 && seconds1 == seconds2 && ip1 == ip2
  {
    if RateKey(name1, seconds1, ip1) == RateKey(name2, seconds2, ip2) {
      var r1, r2 := Decimal(seconds1) + ":" + ip1, Decimal(seconds2) + ":" + ip2;
      assert name1 + ":" + r1 == RateKey(name1, seconds1, ip1);
      assert name2 + ":" + r2 == RateKey(name2, seconds2, ip2);
      SplitAtFirstColon(name1, r1, name2, r2);
      DecimalHasNoColon(seconds1);
      DecimalHasNoColon(seconds2);
      SplitAtFirstColon(Decimal(seconds1), ip1, Decimal(seconds2), ip2);
      DecimalInjective(seconds1, seconds2);
    }
  }
}
