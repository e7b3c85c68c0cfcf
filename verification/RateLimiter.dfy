/** auth/token_store.py:154-162 and auth/routes.py:122-142: what the fixed-window counter admits
    over arbitrary intervals of a run. */
module RateLimiter {
  import opened Prelude
  import opened TokenStore

  /** One rate check: request number `request` bumps `key`, whose window lasts `seconds`, at clock reading `at`. */
  datatype Hit = Hit(at: real, request: nat, key: string, seconds: nat)

  /** The counters after a run of checks. */
  function After(hits: seq<Hit>): map<string, Window> {
    if hits == [] then map[]
    else
      var last := hits[|hits| - 1];
      var before := After(hits[..|hits| - 1]);
      before[last.key := Bump(RateAt(before, last.key), last.seconds, last.at)]
  }

  /** `count > limit` is refused. */
  predicate Admitted(hits: seq<Hit>, limit: nat)
    requires hits != []
  {
    RateAt(After(hits), hits[|hits| - 1].key).count <= limit
  }

  predicate LastIsOn(hits: seq<Hit>, key: string, from: real, to: real) {
    hits != [] && hits[|hits| - 1].key == key && from <= hits[|hits| - 1].at < to
  }

  /** How many checks of `key` in the half-open interval [from, to) were admitted. */
  function AdmittedCount(hits: seq<Hit>, key: string, limit: nat, from: real, to: real): nat {
    if hits == [] then 0
    else AdmittedCount(hits[..|hits| - 1], key, limit, from, to)
         + if LastIsOn(hits, key, from, to) && Admitted(hits, limit) then 1 else 0
  }

  /** The requests that were admitted in [from, to). */
  function AdmittedBy(hits: seq<Hit>, key: string, limit: nat, from: real, to: real): set<nat> {
    if hits == [] then {}
    else AdmittedBy(hits[..|hits| - 1], key, limit, from, to)
         + if LastIsOn(hits, key, from, to) && Admitted(hits, limit) then {hits[|hits| - 1].request} else {}
  }

  /** How many windows of `key` have a check in [from, to). */
  function WindowsMet(hits: seq<Hit>, key: string, from: real, to: real): nat {
    if hits == [] then 0
    else
      var n := WindowsMet(hits[..|hits| - 1], key, from, to);
      if LastIsOn(hits, key, from, to) && (n == 0 || RateAt(After(hits), key).count == 1) then n + 1 else n
  }

  /** A run on a positive, nondecreasing clock in which `key` always has the same window. */
  ghost predicate Steady(hits: seq<Hit>, key: string, seconds: nat) {
    && (forall i :: 0 <= i < |hits| ==> 0.0 < hits[i].at && (hits[i].key == key ==> hits[i].seconds == seconds))
    && (forall i, j :: 0 <= i < j < |hits| ==> hits[i].at <= hits[j].at)
  }

  /** No check, admitted or refused, pushes a window further than one window length past itself. */
  lemma {:induction false} WindowNeverExtends(hits: seq<Hit>, key: string, seconds: nat, now: real)
    requires Steady(hits, key, seconds)
    requires forall i :: 0 <= i < |hits| ==> hits[i].at <= now
    ensures key in After(hits) ==> After(hits)[key].end <= now + seconds as real
  {
    if hits != [] {
      WindowNeverExtends(hits[..|hits| - 1], key, seconds, now);
    }
  }

  function Min(a: nat, b: nat): nat { if a < b then a else b }

  /** The accounting that holds while the interval is still open. The windows met start at least a
      window length apart and each admits at most `limit`; and if the first of them was opened before
      the interval, then its opening check, which is always admitted, lies outside. */
  ghost predicate Account(n: nat, admitted: nat, w: Window, limit: nat, seconds: nat, from: real, to: real) {
    && (n == 0 ==> admitted == 0 && (w.count >= 1 || w == NO_WINDOW))
    && (n > 0 ==> w.end < to + seconds as real)
    && (n > 0 ==>
          && w.count >= 1
          && (|| (w.end >= from + Span(n, seconds) && admitted <= limit * (n - 1) + Min(w.count, limit))
              || (w.end > from + Span(n - 1, seconds) && admitted + 1 <= limit * (n - 1) + Min(w.count, limit))))
  }

  /** What is left of the accounting once the interval has closed. */
  ghost predicate Total(n: nat, admitted: nat, limit: nat, seconds: nat, length: real) {
    || (n == 0 && admitted == 0)
    || (admitted <= limit * n && n >= 1 && Span(n - 1, seconds) < length)
    || (admitted + 1 <= limit * n && n >= 1 && (n >= 2 ==> Span(n - 2, seconds) < length))
  }

  /** The length of `n` consecutive windows. */
  function Span(n: nat, seconds: nat): real {
    (n * seconds) as real
  }

  lemma SpanSuccessor(n: nat, seconds: nat)
    ensures Span(n + 1, seconds) == Span(n, seconds) + seconds as real
  {
    assert (n + 1) * seconds == n * seconds + seconds;
  }

  /** A check that opens a window adds one window and, as the limit is positive, one admission. */
  lemma OpeningStep(n: nat, admitted: nat, w: Window, limit: nat, seconds: nat, from: real, at: real, to: real)
    requires Account(n, admitted, w, limit, seconds, from, to)
    requires 0.0 < at && from <= at < to && 0 < limit && w.end <= at
    ensures Account(n + 1, admitted + 1, Window(1, at + seconds as real), limit, seconds, from, to)
  {
    SpanSuccessor(n, seconds);
    if n > 0 {
      assert limit * n == limit * (n - 1) + limit;
    }
  }

  lemma AccountStep(n: nat, admitted: nat, w: Window, limit: nat, seconds: nat, from: real, at: real, to: real)
    requires Account(n, admitted, w, limit, seconds, from, to)
    requires 0.0 < at && from <= at < to && 0 < limit
    requires n == 0 ==> w.end <= at + seconds as real
    ensures var w' := Bump(w, seconds, at);
            var n' := if n == 0 || w'.count == 1 then n + 1 else n;
            var admitted' := admitted + if w'.count <= limit then 1 else 0;
            Account(n', admitted', w', limit, seconds, from, to)
  {
    if at >= w.end {
      OpeningStep(n, admitted, w, limit, seconds, from, at, to);
    }
  }

  lemma AccountTotal(n: nat, admitted: nat, w: Window, limit: nat, seconds: nat, from: real, to: real)
    requires Account(n, admitted, w, limit, seconds, from, to)
    ensures Total(n, admitted, limit, seconds, to - from)
  {
    if n > 0 {
      SpanSuccessor(n - 1, seconds);
      assert limit * n == limit * (n - 1) + limit;
    }
    if n > 1 {
      SpanSuccessor(n - 2, seconds);
    }
  }

  lemma {:induction false} Accounting(hits: seq<Hit>, key: string, limit: nat, seconds: nat, from: real, to: real)
    requires Steady(hits, key, seconds) && 0 < limit
    ensures Total(WindowsMet(hits, key, from, to), AdmittedCount(hits, key, limit, from, to), limit, seconds, to - from)
    ensures (forall i :: 0 <= i < |hits| ==> hits[i].at < to) ==>
              Account(WindowsMet(hits, key, from, to), AdmittedCount(hits, key, limit, from, to),
                RateAt(After(hits), key), limit, seconds, from, to)
  {
    if hits != [] {
      var init, last := hits[..|hits| - 1], hits[|hits| - 1];
      Accounting(init, key, limit, seconds, from, to);
      if LastIsOn(hits, key, from, to) {
        WindowNeverExtends(init, key, seconds, last.at);
        var n, admitted := WindowsMet(init, key, from, to), AdmittedCount(init, key, limit, from, to);
        AccountStep(n, admitted, RateAt(After(init), key), limit, seconds, from, last.at, to);
        AccountTotal(WindowsMet(hits, key, from, to), AdmittedCount(hits, key, limit, from, to),
          RateAt(After(hits), key), limit, seconds, from, to);
      } else if last.key == key && last.at < from {
        NoneBefore(hits, key, limit, from, to);
      }
    }
  }

  lemma {:induction false} NoneBefore(hits: seq<Hit>, key: string, limit: nat, from: real, to: real)
    requires forall i :: 0 <= i < |hits| ==> hits[i].at < from
    ensures WindowsMet(hits, key, from, to) == 0 && AdmittedCount(hits, key, limit, from, to) == 0
  {
    if hits != [] {
      NoneBefore(hits[..|hits| - 1], key, limit, from, to);
    }
  }

  /** The least integer that is not below `x`. */
  function Ceiling(x: real): (n: int)
    ensures n as real - 1.0 < x <= n as real
  {
    -((-x).Floor)
  }

  /** `n` whole windows shorter than an interval are fewer than the interval's length in windows. */
  lemma SpanFits(n: nat, seconds: nat, length: real)
    requires 0 < seconds && Span(n, seconds) < length
    ensures n + 1 <= Ceiling(length / seconds as real)
  {
    var w := seconds as real;
    var q := length / w;
    assert Span(n, seconds) == n as real * w;
    assert length == q * w;
    assert (q - n as real) * w > 0.0;
  }

  /** The largest number of checks that a limiter can admit in an interval of length `length`. */
  function MostAdmitted(limit: nat, seconds: nat, length: real): int
    requires 0 < seconds
  {
    if limit == 0 || length <= 0.0 then 0 else limit * (Ceiling(length / seconds as real) + 1) - 1
  }

  lemma {:induction false} ZeroAdmitsNone(hits: seq<Hit>, key: string, from: real, to: real)
    ensures AdmittedCount(hits, key, 0, from, to) == 0
  {
    if hits != [] {
      ZeroAdmitsNone(hits[..|hits| - 1], key, from, to);
    }
  }

  lemma {:induction false} EmptyAdmitsNone(hits: seq<Hit>, key: string, limit: nat, from: real)
    ensures AdmittedCount(hits, key, limit, from, from) == 0
  {
    if hits != [] {
      EmptyAdmitsNone(hits[..|hits| - 1], key, limit, from);
    }
  }

  lemma MulMonotone(limit: nat, a: int, b: int)
    requires a <= b
    ensures limit * a <= limit * b
  {
  }

  lemma QuotientNonNegative(x: real, y: real)
    requires 0.0 <= x && 0.0 < y
    ensures 0.0 <= x / y
  {
  }

  /** In any run, fewer than limit * (ceil(T / w) + 1) checks of a key are admitted in any half-open
      interval of length T. */
  lemma AdmittedBound(hits: seq<Hit>, key: string, limit: nat, seconds: nat, from: real, to: real)
    requires Steady(hits, key, seconds) && 0 < seconds && from <= to
    ensures AdmittedCount(hits, key, limit, from, to) <= MostAdmitted(limit, seconds, to - from)
  {
    if limit == 0 {
      ZeroAdmitsNone(hits, key, from, to);
    } else if from == to {
      EmptyAdmitsNone(hits, key, limit, from);
    } else {
      Accounting(hits, key, limit, seconds, from, to);
      var n, admitted := WindowsMet(hits, key, from, to), AdmittedCount(hits, key, limit, from, to);
      var fit := Ceiling((to - from) / seconds as real);
      assert fit >= 0 by { QuotientNonNegative(to - from, seconds as real); }
      if admitted == 0 {
        MulMonotone(limit, 1, fit + 1);
      } else if admitted <= limit * n && Span(n - 1, seconds) < to - from {
        SpanFits(n - 1, seconds, to - from);
        MulMonotone(limit, n, fit);
        assert limit * (fit + 1) == limit * fit + limit;
      } else {
        if n >= 2 {
          SpanFits(n - 2, seconds, to - from);
        }
        MulMonotone(limit, n, fit + 1);
      }
    }
  }

  lemma OneWindow(w: real)
    requires 0.0 < w
    ensures Ceiling(w / w) == 1
  {
    var q := w / w;
    assert q * w == w;
    assert (q - 1.0) * w == 0.0;
  }

  /** In particular fewer than twice the limit in any interval of one window length. */
  lemma FewerThanTwiceTheLimit(hits: seq<Hit>, key: string, limit: nat, seconds: nat, from: real)
    requires Steady(hits, key, seconds) && 0 < seconds && 0 < limit
    ensures AdmittedCount(hits, key, limit, from, from + seconds as real) < 2 * limit
  {
    var w := seconds as real;
    AdmittedBound(hits, key, limit, seconds, from, from + w);
    assert from + w - from == w;
    OneWindow(w);
  }

  lemma {:induction false} AdmittedByIsCounted(hits: seq<Hit>, key: string, limit: nat, from: real, to: real)
    ensures |AdmittedBy(hits, key, limit, from, to)| <= AdmittedCount(hits, key, limit, from, to)
  {
    if hits != [] {
      AdmittedByIsCounted(hits[..|hits| - 1], key, limit, from, to);
    }
  }

  lemma OneLayerBound(hits: seq<Hit>, key: string, limit: nat, seconds: nat, from: real, to: real, some: set<nat>)
    requires Steady(hits, key, seconds) && 0 < seconds && from <= to
    requires some <= AdmittedBy(hits, key, limit, from, to)
    ensures |some| <= MostAdmitted(limit, seconds, to - from)
  {
    AdmittedByIsCounted(hits, key, limit, from, to);
    AdmittedBound(hits, key, limit, seconds, from, to);
    SubsetBound(some, AdmittedBy(hits, key, limit, from, to));
  }

  /** Waiting `Retry-After` seconds ends the window that caused the 429, whatever else was checked
      meanwhile: the next check falls into a later window, and opens it if nobody else did. */
  lemma RetryAfterSuffices(hits: seq<Hit>, meanwhile: seq<Hit>, key: string, seconds: nat, limit: nat, retry: Hit)
    requires Steady(hits + meanwhile + [retry], key, seconds) && 0 < seconds
    requires hits != [] && hits[|hits| - 1].key == key && !Admitted(hits, limit)
    requires retry.key == key && retry.at >= hits[|hits| - 1].at + seconds as real
    ensures RateAt(After(hits + meanwhile + [retry]), key).end > RateAt(After(hits), key).end
    ensures meanwhile == [] ==> RateAt(After(hits + meanwhile + [retry]), key).count == 1
  {
    var all := hits + meanwhile + [retry];
    assert all[|all| - 1] == retry && all[..|all| - 1] == hits + meanwhile;
    assert forall i :: 0 <= i < |hits| ==> hits[i] == all[i];
    WindowNeverExtends(hits, key, seconds, hits[|hits| - 1].at);
    if meanwhile == [] {
      assert hits + meanwhile == hits;
    }
  }
}
