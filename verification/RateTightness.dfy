/** The bound of the rate limiter is the best there is: for every limit, window and interval length some run
    of checks reaches it. A window is opened just before the interval, filled inside it, and followed by
    full windows to the end. */
module RateTightness {
  import opened Prelude
  import opened TokenStore
  import opened RateLimiter

  /** A run of checks of one key up to time `t`. */
  ghost predicate UpTo(hits: seq<Hit>, key: string, seconds: nat, t: real) {
    && Steady(hits, key, seconds)
    && forall i :: 0 <= i < |hits| ==> hits[i].key == key && hits[i].at <= t
  }

  function Plus(hits: seq<Hit>, key: string, seconds: nat, at: real): seq<Hit> {
    hits + [Hit(at, 0, key, seconds)]
  }

  function WindowAfter(hits: seq<Hit>, key: string): Window {
    RateAt(After(hits), key)
  }

  /** What one more check does to the window and to the count of admissions. */
  lemma OneMore(hits: seq<Hit>, key: string, seconds: nat, at: real, limit: nat, from: real, to: real)
    ensures var more, w := Plus(hits, key, seconds, at), Bump(WindowAfter(hits, key), seconds, at);
            && WindowAfter(more, key) == w
            && AdmittedCount(more, key, limit, from, to)
               == AdmittedCount(hits, key, limit, from, to) + if from <= at < to && w.count <= limit then 1 else 0
  {
    var more := Plus(hits, key, seconds, at);
    assert more[..|more| - 1] == hits;
  }

  lemma PlusIsUpTo(hits: seq<Hit>, key: string, seconds: nat, t: real, at: real)
    requires UpTo(hits, key, seconds, t) && t <= at && 0.0 < at
    ensures UpTo(Plus(hits, key, seconds, at), key, seconds, at)
  {
  }

  /** The checks so far, what they made of the window, and how many of them were admitted. */
  ghost predicate Reaches(hits: seq<Hit>, key: string, seconds: nat, t: real, w: Window, limit: nat, from: real, to: real, admitted: nat) {
    UpTo(hits, key, seconds, t) && WindowAfter(hits, key) == w && AdmittedCount(hits, key, limit, from, to) == admitted
  }

  lemma Next(hits: seq<Hit>, key: string, seconds: nat, t: real, w: Window, limit: nat, from: real, to: real, admitted: nat, at: real)
    returns (more: seq<Hit>)
    requires Reaches(hits, key, seconds, t, w, limit, from, to, admitted)
    requires t <= at && 0.0 < at && from <= at < to && Bump(w, seconds, at).count <= limit
    ensures Reaches(more, key, seconds, at, Bump(w, seconds, at), limit, from, to, admitted + 1)
  {
    more := Plus(hits, key, seconds, at);
    OneMore(hits, key, seconds, at, limit, from, to);
    PlusIsUpTo(hits, key, seconds, t, at);
  }

  /** A burst of checks that fits into an open window is admitted as a whole. */
  lemma {:induction false} Burst(hits: seq<Hit>, key: string, seconds: nat, t: real, w: Window, limit: nat, from: real, to: real, admitted: nat, at: real, n: nat)
    returns (more: seq<Hit>)
    requires Reaches(hits, key, seconds, t, w, limit, from, to, admitted)
    requires t <= at && 0.0 < at && from <= at < to && at < w.end && w.count + n <= limit
    ensures Reaches(more, key, seconds, at, Window(w.count + n, w.end), limit, from, to, admitted + n)
    decreases n
  {
    if n == 0 {
      more := hits;
      assert UpTo(hits, key, seconds, at);
    } else {
      var one := Next(hits, key, seconds, t, w, limit, from, to, admitted, at);
      more := Burst(one, key, seconds, at, Window(w.count + 1, w.end), limit, from, to, admitted + 1, at, n - 1);
    }
  }

  /** A window opened at `at` and filled at once. */
  lemma Full(hits: seq<Hit>, key: string, seconds: nat, t: real, w: Window, limit: nat, from: real, to: real, admitted: nat, at: real)
    returns (more: seq<Hit>)
    requires Reaches(hits, key, seconds, t, w, limit, from, to, admitted)
    requires t <= at && 0.0 < at && from <= at < to && w.end <= at && 0 < limit && 0 < seconds
    ensures Reaches(more, key, seconds, at, Window(limit, at + seconds as real), limit, from, to, admitted + limit)
  {
    var one := Next(hits, key, seconds, t, w, limit, from, to, admitted, at);
    more := Burst(one, key, seconds, at, Window(1, at + seconds as real), limit, from, to, admitted + 1, at, limit - 1);
  }

  lemma {:induction false} SpanGrows(j: nat, k: nat, seconds: nat)
    requires j <= k
    ensures Span(j, seconds) <= Span(k, seconds)
  {
    if j < k {
      SpanGrows(j, k - 1, seconds);
      SpanSuccessor(k - 1, seconds);
    }
  }

  /** The `k`-th window starts inside the interval, and when the one before it ends. */
  lemma WindowStart(k: nat, seconds: nat, start: real)
    requires 0 < k
    ensures start + Span(k, seconds) == start + Span(k - 1, seconds) + seconds as real
    ensures start + Span(k, seconds) >= start + seconds as real
    ensures Span(k + 1, seconds) == Span(k, seconds) + seconds as real
  {
    SpanSuccessor(k - 1, seconds);
    SpanSuccessor(k, seconds);
    SpanGrows(1, k, seconds);
  }

  /** `k` full windows, the `j`-th opened `j` window lengths after `start`. */
  lemma {:induction false} Windows(hits: seq<Hit>, key: string, seconds: nat, start: real, w: Window, limit: nat, from: real, to: real, admitted: nat, k: nat)
    returns (more: seq<Hit>, t: real, w': Window)
    requires 0 < limit && 0 < seconds && 0.0 < start <= from < start + seconds as real
    requires Reaches(hits, key, seconds, from, w, limit, from, to, admitted) && w.end == start + seconds as real
    requires start + Span(k, seconds) < to
    ensures from <= t && t < start + Span(k, seconds) + seconds as real == w'.end
    ensures Reaches(more, key, seconds, t, w', limit, from, to, admitted + k * limit)
  {
    if k == 0 {
      assert Span(0, seconds) == 0.0;
      more, t, w' := hits, from, w;
    } else {
      WindowStart(k, seconds, start);
      more, t, w' := Windows(hits, key, seconds, start, w, limit, from, to, admitted, k - 1);
      more := Full(more, key, seconds, t, w', limit, from, to, admitted + (k - 1) * limit, start + Span(k, seconds));
      t, w' := start + Span(k, seconds), Window(limit, start + Span(k, seconds) + seconds as real);
      assert k * limit == (k - 1) * limit + limit;
    }
  }

  lemma QuotientTimes(x: real, q: real, w: real)
    requires 0.0 < w && q == x / w
    ensures q * w == x
  {
  }

  lemma SpanIsProduct(n: nat, seconds: nat)
    ensures Span(n, seconds) == n as real * seconds as real
  {
  }

  /** A positive length is covered by `n` windows, and not by `n - 1`. */
  lemma WindowsToCover(length: real, seconds: nat) returns (n: nat)
    requires 0.0 < length && 0 < seconds
    ensures n == Ceiling(length / seconds as real)
    ensures Span(n, seconds) - seconds as real < length <= Span(n, seconds)
  {
    QuotientNonNegative(length, seconds as real);
    n := Ceiling(length / seconds as real);
    SpanCovers(length, length / seconds as real, seconds, n);
  }

  lemma SpanCovers(length: real, x: real, seconds: nat, n: nat)
    requires 0 < seconds && x == length / seconds as real && n as real - 1.0 < x <= n as real
    ensures Span(n, seconds) - seconds as real < length <= Span(n, seconds)
  {
    var w := seconds as real;
    QuotientTimes(length, x, w);
    SpanIsProduct(n, seconds);
    CoverBounds(x, length, w, n as real, Span(n, seconds));
  }

  lemma CoverBounds(x: real, length: real, w: real, k: real, span: real)
    requires 0.0 < w && k - 1.0 < x <= k && x * w == length && span == k * w
    ensures span - w < length <= span
  {
    var above, below := x - (k - 1.0), k - x;
    var aboveW, belowW := above * w, below * w;
    assert aboveW > 0.0 && belowW >= 0.0;
    assert aboveW == length - span + w;
    assert belowW == span - length;
  }

  /** For every limit, window and interval length, some run admits exactly `MostAdmitted` checks. */
  lemma BoundIsReached(key: string, limit: nat, seconds: nat, length: real) returns (hits: seq<Hit>, from: real)
    requires 0 < seconds && 0.0 <= length
    ensures Steady(hits, key, seconds)
    ensures AdmittedCount(hits, key, limit, from, from + length) == MostAdmitted(limit, seconds, length)
  {
    var w := seconds as real;
    from := w + 1.0;
    if limit == 0 || length == 0.0 {
      hits := [];
    } else {
      var n := WindowsToCover(length, seconds);
      var gap := Span(n, seconds) - length;
      var start := from - (gap + w) / 2.0;
      hits := Reaching(key, limit, seconds, start, from, n, from + length);
      assert limit * (n + 1) == n * limit + limit;
    }
  }

  lemma Reaching(key: string, limit: nat, seconds: nat, start: real, from: real, n: nat, to: real) returns (hits: seq<Hit>)
    requires 0 < limit && 0 < seconds && 0.0 < start < from < start + seconds as real
    requires start + Span(n, seconds) < to && from < to
    ensures Steady(hits, key, seconds)
    ensures AdmittedCount(hits, key, limit, from, to) == limit - 1 + n * limit
  {
    var opening, w := Plus([], key, seconds, start), Window(1, start + seconds as real);
    OneMore([], key, seconds, start, limit, from, to);
    assert Reaches(opening, key, seconds, start, w, limit, from, to, 0);
    var filled := Burst(opening, key, seconds, start, w, limit, from, to, 0, from, limit - 1);
    var t, w';
    hits, t, w' := Windows(filled, key, seconds, start, Window(limit, w.end), limit, from, to, limit - 1, n);
  }

  /** In particular one fewer than twice the limit is reached in one window length, for every positive limit. */
  lemma TwiceTheLimitMinusOneIsReached(key: string, limit: nat, seconds: nat) returns (hits: seq<Hit>, from: real)
    requires 0 < limit && 0 < seconds
    ensures Steady(hits, key, seconds)
    ensures AdmittedCount(hits, key, limit, from, from + seconds as real) == 2 * limit - 1
  {
    hits, from := BoundIsReached(key, limit, seconds, seconds as real);
    OneWindow(seconds as real);
  }
}
