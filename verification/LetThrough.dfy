// Which failures a strategy lets through, and exactly when (crawloop/access.py): in terms of the
// URLs the network's redirects lead to, hop by hop and try by try.
module LetThrough {
  import opened Wrappers
  import opened Failures
  import opened Access

  /** The answer to GET number `t` redirects an allowlisted URL. */
  ghost predicate MovesOn(cfg: Config, net: Network, t: nat, url: string) {
    cfg.authorized(url) && net(t, url).Replied? && Redirects(net(t, url).r)
  }

  /** The URL of hop `i` of a chain whose first GET is number `t`. */
  ghost function HopUrl(cfg: Config, net: Network, t: nat, url: string, i: nat): string {
    if i == 0 then url
    else
      var before := HopUrl(cfg, net, t, url, i - 1);
      if MovesOn(cfg, net, t + i - 1, before) then cfg.join(before, net(t + i - 1, before).r.location.value) else before
  }

  /** Hop `i` is allowlisted and redirects. */
  ghost predicate HopMoves(cfg: Config, net: Network, t: nat, url: string, i: nat) {
    MovesOn(cfg, net, t + i, HopUrl(cfg, net, t, url, i))
  }

  /** Every hop the client allows redirects. */
  ghost predicate RunsOut(cfg: Config, net: Network, t: nat, url: string, hops: nat) {
    forall i: nat :: i < hops ==> HopMoves(cfg, net, t, url, i)
  }

  /** Redirects lead, within the allowed hops, to a URL off the allowlist. */
  ghost predicate LedAstray(cfg: Config, net: Network, t: nat, url: string, hops: nat) {
    exists i: nat :: i < hops && RunsOut(cfg, net, t, url, i) && !cfg.authorized(HopUrl(cfg, net, t, url, i))
  }

  /** After `i` redirects, what is left to follow is hop `i`'s URL. */
  lemma {:induction false} FollowReaches(cfg: Config, net: Network, t: nat, url: string, hops: nat, i: nat)
    requires i <= hops && RunsOut(cfg, net, t, url, i)
    ensures Follow(cfg, net, t, url, hops) == Follow(cfg, net, t + i, HopUrl(cfg, net, t, url, i), hops - i)
  {
    if i > 0 {
      assert HopMoves(cfg, net, t, url, i - 1);
      FollowReaches(cfg, net, t, url, hops, i - 1);
    }
  }

  /** The first hop that does not redirect, if there is one. */
  lemma {:induction false} FirstStop(cfg: Config, net: Network, t: nat, url: string, hops: nat) returns (i: nat)
    ensures i <= hops && RunsOut(cfg, net, t, url, i)
    ensures i < hops ==> !HopMoves(cfg, net, t, url, i)
  {
    i := 0;
    while i < hops && HopMoves(cfg, net, t, url, i)
      invariant i <= hops && RunsOut(cfg, net, t, url, i)
    {
      i := i + 1;
    }
  }

  /** Following redirects lets through the redirect limit exactly when all the allowed hops redirect,
      the policy stop exactly when they lead off the allowlist, and nothing else. */
  lemma FollowPropagates(cfg: Config, net: Network, t: nat, url: string, hops: nat, failure: Failure)
    ensures Follow(cfg, net, t, url, hops).0 == Propagates(failure) <==>
      || (failure == FetchError(None) && RunsOut(cfg, net, t, url, hops))
      || (failure == UnauthorizedDomain && LedAstray(cfg, net, t, url, hops))
  {
    var i := FirstStop(cfg, net, t, url, hops);
    FollowReaches(cfg, net, t, url, hops, i);
    if k: nat :| k < hops && RunsOut(cfg, net, t, url, k) && !cfg.authorized(HopUrl(cfg, net, t, url, k)) {
      assert !HopMoves(cfg, net, t, url, k);
    }
  }

  // ---- strategies ----

  /** The number of the first GET of try `k`, when all the tries before were made. */
  ghost function TryMoment(cfg: Config, net: Network, t: nat, url: string, k: nat): nat {
    if k == 0 then t else PlainOf(cfg, net, TryMoment(cfg, net, t, url, k - 1), url).1
  }

  /** The tries before try `k` all end in a transient outcome. */
  ghost predicate TriesReach(cfg: Config, net: Network, t: nat, url: string, k: nat) {
    forall m: nat :: m < k ==> ShouldRetry(PlainOf(cfg, net, TryMoment(cfg, net, t, url, m), url).0)
  }

  /** A plain fetch lets `failure` through: its redirects run out, or lead off the allowlist. */
  ghost predicate PlainLets(cfg: Config, net: Network, t: nat, url: string, failure: Failure) {
    || (failure == FetchError(None) && RunsOut(cfg, net, t, url, MAX_REDIRECTS + 1))
    || (failure == UnauthorizedDomain && LedAstray(cfg, net, t, url, MAX_REDIRECTS + 1))
  }

  /** A strategy lets `failure` through: one that fetches plainly when that does, backoff when some
      try does that is reached within its budget, the browser and the captcha boundary never. */
  ghost predicate LetsThrough(cfg: Config, net: Network, s: Strategy, t: nat, url: string, failure: Failure) {
    match s
    case Backoff => exists k: nat ::
      k < TRIES && TriesReach(cfg, net, t, url, k) && PlainLets(cfg, net, TryMoment(cfg, net, t, url, k), url, failure)
    case Browser(_) => false
    case CaptchaSolver(_) => false
    case _ => PlainLets(cfg, net, t, url, failure)
  }

  lemma PlainLetsExactly(cfg: Config, net: Network, t: nat, url: string, failure: Failure)
    ensures PlainOf(cfg, net, t, url).0 == Through(failure) <==> PlainLets(cfg, net, t, url, failure)
  {
    FollowPropagates(cfg, net, t, url, MAX_REDIRECTS + 1, failure);
  }

  /** After `k` transient tries, what is left is a retry of try `k`'s outcome. */
  lemma {:induction false} RetriedReaches(cfg: Config, net: Network, t: nat, url: string, k: nat)
    requires k < TRIES && TriesReach(cfg, net, t, url, k)
    ensures var (f, next) := PlainOf(cfg, net, t, url);
      var (fk, nextk) := PlainOf(cfg, net, TryMoment(cfg, net, t, url, k), url);
      Retried(cfg, net, f, next, url, TRIES - 1) == Retried(cfg, net, fk, nextk, url, TRIES - 1 - k)
  {
    if k > 0 {
      RetriedReaches(cfg, net, t, url, k - 1);
      assert ShouldRetry(PlainOf(cfg, net, TryMoment(cfg, net, t, url, k - 1), url).0);
    }
  }

  /** The last try made. */
  lemma {:induction false} LastTry(cfg: Config, net: Network, t: nat, url: string) returns (k: nat)
    ensures k < TRIES && TriesReach(cfg, net, t, url, k)
    ensures k + 1 < TRIES ==> !ShouldRetry(PlainOf(cfg, net, TryMoment(cfg, net, t, url, k), url).0)
  {
    k := 0;
    while k + 1 < TRIES && ShouldRetry(PlainOf(cfg, net, TryMoment(cfg, net, t, url, k), url).0)
      invariant k < TRIES && TriesReach(cfg, net, t, url, k)
    {
      k := k + 1;
    }
  }

  lemma BackoffLetsExactly(
    cfg: Config, net: Network, render: (string, bool) -> Option<string>, t: nat, url: string, failure: Failure)
    ensures FetchOf(cfg, net, render, Backoff, t, url).0 == Through(failure) <==>
      LetsThrough(cfg, net, Backoff, t, url, failure)
  {
    var last := LastTry(cfg, net, t, url);
    RetriedReaches(cfg, net, t, url, last);
    PlainLetsExactly(cfg, net, TryMoment(cfg, net, t, url, last), url, failure);
    assert FetchOf(cfg, net, render, Backoff, t, url).0 == PlainOf(cfg, net, TryMoment(cfg, net, t, url, last), url).0;
    if LetsThrough(cfg, net, Backoff, t, url, failure) {
      var k: nat :| k < TRIES && TriesReach(cfg, net, t, url, k)
        && PlainLets(cfg, net, TryMoment(cfg, net, t, url, k), url, failure);
      PlainLetsExactly(cfg, net, TryMoment(cfg, net, t, url, k), url, failure);
      assert k < last ==> ShouldRetry(PlainOf(cfg, net, TryMoment(cfg, net, t, url, k), url).0);
      assert k == last;
    }
  }

  /** What comes through a strategy, and exactly when. */
  lemma LetsThroughExactly(
    cfg: Config, net: Network, render: (string, bool) -> Option<string>, s: Strategy, t: nat, url: string,
    failure: Failure)
    ensures FetchOf(cfg, net, render, s, t, url).0 == Through(failure) <==> LetsThrough(cfg, net, s, t, url, failure)
  {
    if s.Backoff? {
      BackoffLetsExactly(cfg, net, render, t, url, failure);
    } else {
      PlainLetsExactly(cfg, net, t, url, failure);
    }
  }
}
