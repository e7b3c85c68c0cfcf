/** How long after a login its tokens can be accepted, however often they were refreshed. */
module Lifetime {
  import opened Prelude
  import opened Sessions
  import opened TokenStore
  import opened Grants
  import opened Provenance

  /** On every link of the chain, at most `delay` passed between the check and the issue. */
  ghost predicate Prompt(log: seq<Event>, p: Path, delay: real)
    decreases p
  {
    && p.issue < |log| && LastOf(p.title) < |log| && log[p.issue].Issued?
    && log[p.issue].at - TimeOf(log[LastOf(p.title)]) <= delay
    && (p.title.ByRefresh? ==> Prompt(log, p.title.prev, delay))
  }

  /** The latest issue time of a pair after `n` refreshes, counted from the login. */
  function Latest(c: Config, n: nat, delay: real): real {
    c.codeTtl as real + n as real * c.refreshTtl as real + (n + 1) as real * delay
  }

  lemma LatestStep(c: Config, n: nat, delay: real)
    ensures Latest(c, n + 1, delay) == Latest(c, n, delay) + c.refreshTtl as real + delay
  {
    var k, r := n as real, c.refreshTtl as real;
    assert (n + 1) as real == k + 1.0 && (n + 2) as real == k + 2.0;
    assert (k + 1.0) * r == k * r + r;
    assert (k + 2.0) * delay == (k + 1.0) * delay + delay;
  }

  /** The code may be redeemed up to and including its bound, each refresh token strictly before its
      own: with at least one refresh the bound is strict. */
  lemma {:induction false} IssueBound(c: Config, log: seq<Event>, p: Path, delay: real)
    requires Sound(c, log, p) && Prompt(log, p, delay)
    ensures LoginOf(p) < |log| && log[LoginOf(p)].LoggedIn?
    ensures log[p.issue].at <= log[LoginOf(p)].at + Latest(c, Refreshes(p), delay)
    ensures Refreshes(p) > 0 ==> log[p.issue].at < log[LoginOf(p)].at + Latest(c, Refreshes(p), delay)
  {
    if p.title.ByRefresh? {
      IssueBound(c, log, p.title.prev, delay);
      LatestStep(c, Refreshes(p.title.prev), delay);
    }
  }

  /** Whatever was accepted descends from a login by some number k of refreshes, and was accepted before
      that login's time + code_ttl + k * refresh_ttl + access_ttl, plus k + 1 times the largest delay
      between a check and the issue that followed it. */
  lemma AcceptedWithinLifetime(c: Config, run: seq<State>, n: nat, i: nat) returns (p: Path)
    requires Run(c, run) && n < |run| && i < |run[n].log| && run[n].log[i].Accepted?
    ensures var log := run[n].log;
            && Sound(c, log, p) && log[p.issue].access == log[i].token
            && LoginOf(p) < |log| && log[LoginOf(p)].LoggedIn?
            && (forall delay :: Prompt(log, p, delay) ==>
                  log[i].at < log[LoginOf(p)].at + Latest(c, Refreshes(p), delay) + c.accessTtl as real)
  {
    p := AcceptedTokensHaveProvenance(c, run, n, i);
    forall delay | Prompt(run[n].log, p, delay)
      ensures run[n].log[i].at < run[n].log[LoginOf(p)].at + Latest(c, Refreshes(p), delay) + c.accessTtl as real
    {
      IssueBound(c, run[n].log, p, delay);
    }
  }
}
