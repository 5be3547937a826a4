// The engine's own page fetches (crawloop/access.py, RealFetchContext): one strategy, chosen by
// what worked before and what is configured, through the guarded client.
module FetchContext {
  import opened Wrappers
  import opened Failures
  import opened Access
  import opened LetThrough
  import opened AccessRecovery

  /** A page's HTML, or a typed failure. */
  datatype PageFetch = Html(html: string) | NotFetched(failure: Failure)

  /** GETs one page fetch may send. */
  const PAGE_GETS: nat := TRIES * (MAX_REDIRECTS + 1)

  predicate BrowserKind(kind: string) {
    kind == "browser" || kind == "stealth_browser"
  }

  /** The rung `_fast_strategy` builds: the saved strategy with its configured parameters; without
      one a browser where pages need rendering and the first rung is none; otherwise the first rung. */
  function FastRung(configured: seq<(string, Params)>, renderJs: bool, saved: Option<string>): Option<(string, Params)> {
    if saved.Some? then Some((saved.value, ParamsFor(configured, saved.value)))
    else if configured == [] then None
    else if renderJs && !BrowserKind(configured[0].0) then
      Some((if HasKind(configured, "stealth_browser") then "stealth_browser" else "browser", Params(None, false)))
    else Some(configured[0])
  }

  function FastRungFor(cfg: Config, url: string, saved: Option<string>): Option<(string, Params)> {
    var host := cfg.host(url);
    FastRung(cfg.strategies(host), cfg.renderJs(host), saved)
  }

  /** `_unwrap`, and what a strategy raises. */
  function Unwrapped(f: Fetched): PageFetch {
    match f
    case Ended(Page(html)) => Html(html)
    case Ended(BlockedBy(marker)) => NotFetched(FetchBlocked(marker))
    case Ended(Failed(status)) => NotFetched(FetchError(status))
    case NotEnabled => NotFetched(CaptchaNotEnabled)
    case Through(failure) => NotFetched(failure)
  }

  /** A page fetch whose first GET is number `t`; with the number of the next one. */
  function PageOf(
    cfg: Config, net: Network, render: (string, bool) -> Option<string>, saved: Option<string>, t: nat, url: string):
    (PageFetch, nat)
  {
    if !cfg.authorized(url) then (NotFetched(UnauthorizedDomain), t)
    else match FastRungFor(cfg, url, saved)
      case None => (NotFetched(NoStrategy), t)
      case Some((kind, params)) =>
        match BuildStrategy(kind, params)
        case None => (NotFetched(BuildFailure), t)
        case Some(s) =>
          var (f, next) := FetchOf(cfg, net, render, s, t, url);
          (Unwrapped(f), next)
  }

  /** `RealFetchContext.fetch`. */
  method FetchPage(
    client: GuardedClient, saved: Option<string>, url: string, render: (string, bool) -> Option<string>)
    returns (page: PageFetch)
    requires client.Valid()
    modifies client
    ensures client.Valid() && old(client.log) <= client.log
    ensures (page, client.sent) == PageOf(client.cfg, client.answers, render, saved, old(client.sent), url)
    ensures client.sent <= old(client.sent) + PAGE_GETS
  {
    if !client.cfg.authorized(url) {
      return NotFetched(UnauthorizedDomain);
    }
    var rung := FastRungFor(client.cfg, url, saved);
    if rung.None? {
      return NotFetched(NoStrategy);
    }
    var strategy := BuildStrategy(rung.value.0, rung.value.1);
    if strategy.None? {
      return NotFetched(BuildFailure);
    }
    var f := Fetch(client, strategy.value, url, render);
    page := Unwrapped(f);
  }

  /** A page fetch the engine gives up on, rather than letting the error through. */
  predicate GivenUp(f: Failure) {
    f.FetchBlocked? || f.FetchError?
  }

  /** An error nobody gives up on, and which is not the policy stop. */
  predicate Odd(f: Failure) {
    !GivenUp(f) && f != UnauthorizedDomain
  }

  /** The configuration gives the host no usable fast strategy: none at all, one that cannot be
      built, or captcha solving that is not enabled. */
  predicate Misconfigured(cfg: Config, url: string, saved: Option<string>) {
    match FastRungFor(cfg, url, saved)
    case None => true
    case Some((kind, params)) =>
      var s := BuildStrategy(kind, params);
      s.None? || s == Some(CaptchaSolver(false))
  }

  /** A page fetch is stopped by policy exactly when its URL, or one its redirects lead to in a try
      that is made, is off the allowlist; any other error that is not given up on is the
      configuration's doing, whatever the network answers. */
  lemma PageFails(
    cfg: Config, net: Network, render: (string, bool) -> Option<string>, saved: Option<string>, t: nat, url: string)
    ensures var page := PageOf(cfg, net, render, saved, t, url).0;
      && (page.NotFetched? && Odd(page.failure) <==> cfg.authorized(url) && Misconfigured(cfg, url, saved))
      && (page == NotFetched(UnauthorizedDomain) <==>
            || !cfg.authorized(url)
            || (!Misconfigured(cfg, url, saved)
                && var rung := FastRungFor(cfg, url, saved).value;
                LetsThrough(cfg, net, BuildStrategy(rung.0, rung.1).value, t, url, UnauthorizedDomain)))
  {
    if cfg.authorized(url) && FastRungFor(cfg, url, saved).Some? {
      var rung := FastRungFor(cfg, url, saved).value;
      var built := BuildStrategy(rung.0, rung.1);
      if built.Some? {
        var f := FetchOf(cfg, net, render, built.value, t, url).0;
        forall failure ensures f == Through(failure) <==> LetsThrough(cfg, net, built.value, t, url, failure) {
          LetsThroughExactly(cfg, net, render, built.value, t, url, failure);
        }
        NotEnabledExactly(cfg, net, render, built.value, t, url);
      }
    }
  }

  /** Only an unauthorized captcha rung is reported unavailable. */
  lemma {:induction false} RetriedEnabled(cfg: Config, net: Network, f: Fetched, t: nat, url: string, left: nat)
    requires !f.NotEnabled?
    ensures !Retried(cfg, net, f, t, url, left).0.NotEnabled?
    decreases left
  {
    if left > 0 && ShouldRetry(f) {
      var (again, next) := PlainOf(cfg, net, t, url);
      RetriedEnabled(cfg, net, again, next, url, left - 1);
    }
  }

  lemma NotEnabledExactly(
    cfg: Config, net: Network, render: (string, bool) -> Option<string>, s: Strategy, t: nat, url: string)
    ensures FetchOf(cfg, net, render, s, t, url).0.NotEnabled? <==> s == CaptchaSolver(false)
  {
    if s.Backoff? {
      var (f, next) := PlainOf(cfg, net, t, url);
      RetriedEnabled(cfg, net, f, next, url, TRIES - 1);
    }
  }

  /** Where pages need rendering and neither a saved strategy nor a browser as first rung says how, a
      browser fetches, the stealth one if it is configured, and nothing is sent. */
  lemma RenderedHosts(
    cfg: Config, net: Network, render: (string, bool) -> Option<string>, t: nat, url: string)
    requires cfg.authorized(url) && cfg.renderJs(cfg.host(url)) && cfg.strategies(cfg.host(url)) != []
    requires !BrowserKind(cfg.strategies(cfg.host(url))[0].0)
    ensures var html := render(url, HasKind(cfg.strategies(cfg.host(url)), "stealth_browser"));
      PageOf(cfg, net, render, None, t, url) ==
        (if html.Some? then Html(html.value) else NotFetched(FetchError(None)), t)
  {
  }

  /** Otherwise a host without a saved strategy is fetched with its first rung. */
  lemma FirstRungFetches(
    cfg: Config, net: Network, render: (string, bool) -> Option<string>, t: nat, url: string, s: Strategy)
    requires cfg.authorized(url) && cfg.strategies(cfg.host(url)) != []
    requires var rung := cfg.strategies(cfg.host(url))[0];
      (cfg.renderJs(cfg.host(url)) ==> BrowserKind(rung.0)) && BuildStrategy(rung.0, rung.1) == Some(s)
    ensures var (page, next) := PageOf(cfg, net, render, None, t, url);
      var (f, after) := FetchOf(cfg, net, render, s, t, url);
      && next == after
      && (page.Html? <==> f.Ended? && f.outcome.Page?)
      && (page.Html? ==> page.html == f.outcome.html)
      && (forall m :: f == Ended(BlockedBy(m)) ==> page == NotFetched(FetchBlocked(m)))
      && (forall status :: f == Ended(Failed(status)) ==> page == NotFetched(FetchError(status)))
      && (forall failure :: f == Through(failure) ==> page == NotFetched(failure))
  {
  }

  /** So on a host with a plain first rung a page that does not redirect is what its one answer says. */
  lemma PlainPage(
    cfg: Config, net: Network, render: (string, bool) -> Option<string>, t: nat, url: string, r: Response)
    requires cfg.authorized(url) && cfg.strategies(cfg.host(url)) != [] && !cfg.renderJs(cfg.host(url))
    requires cfg.strategies(cfg.host(url))[0].0 == "plain"
    requires net(t, url) == Replied(r) && !Redirects(r)
    ensures var (page, next) := PageOf(cfg, net, render, None, t, url);
      && next == t + 1
      && (200 <= r.status < 300 ==> page == Html(r.text))
      && (r.status == 429 ==> page == NotFetched(FetchBlocked(Rate)))
      && (r.status == 404 ==> page == NotFetched(FetchError(Some(404))))
      && (r.status >= 500 ==> page == NotFetched(FetchError(Some(r.status))))
  {
    FirstAnswerDecides(cfg, net, t, url, r);
    FirstRungFetches(cfg, net, render, t, url, Plain);
  }

  // ---- what recovery leaves for the next fetch ----

  lemma {:induction false} ParamsForSnoc(rungs: seq<(string, Params)>, last: (string, Params), kind: string)
    ensures ParamsFor(rungs + [last], kind) ==
      if HasKind(rungs, kind) then ParamsFor(rungs, kind)
      else if last.0 == kind then last.1 else Params(None, false)
  {
    if rungs == [] {
      assert rungs + [last] == [last];
    } else {
      assert (rungs + [last])[1..] == rungs[1..] + [last];
      ParamsForSnoc(rungs[1..], last, kind);
      if HasKind(rungs, kind) && rungs[0].0 != kind {
        var i :| 0 <= i < |rungs| && rungs[i].0 == kind;
        assert rungs[1..][i - 1].0 == kind;
      }
      if HasKind(rungs[1..], kind) {
        var i :| 0 <= i < |rungs[1..]| && rungs[1..][i].0 == kind;
        assert rungs[i + 1].0 == kind;
      }
    }
  }

  /** A strategy built as the first of its kind among `rungs`. */
  ghost predicate FirstOfKind(s: Strategy, rungs: seq<(string, Params)>) {
    HasKind(rungs, s.Name()) && BuildStrategy(s.Name(), ParamsFor(rungs, s.Name())) == Some(s)
  }

  lemma StaysFirst(s: Strategy, rungs: seq<(string, Params)>, last: (string, Params))
    requires FirstOfKind(s, rungs)
    ensures FirstOfKind(s, rungs + [last])
  {
    ParamsForSnoc(rungs, last, s.Name());
    var i :| 0 <= i < |rungs| && rungs[i].0 == s.Name();
    assert (rungs + [last])[i].0 == s.Name();
  }

  lemma ArrivesFirst(s: Strategy, rungs: seq<(string, Params)>, last: (string, Params))
    requires !HasKind(rungs, s.Name()) && last.0 == s.Name() && BuildStrategy(last.0, last.1) == Some(s)
    ensures FirstOfKind(s, rungs + [last])
  {
    ParamsForSnoc(rungs, last, s.Name());
    assert (rungs + [last])[|rungs|].0 == s.Name();
  }

  /** Each rung of a ladder is the first of its kind. */
  lemma {:induction false} LadderOfFirsts(rungs: seq<(string, Params)>)
    requires LadderOf(rungs).Some?
    ensures forall s :: s in LadderOf(rungs).value ==> FirstOfKind(s, rungs)
  {
    if rungs != [] {
      var n := |rungs| - 1;
      var front, last := rungs[..n], rungs[n];
      var before := LadderOf(front).value;
      LadderOfFirsts(front);
      LadderCovers(front);
      assert rungs == front + [last];
      forall s | s in LadderOf(rungs).value ensures FirstOfKind(s, rungs) {
        if s in before {
          StaysFirst(s, front, last);
        } else {
          assert s.Name() !in Names(before);
          ArrivesFirst(s, front, last);
        }
      }
    }
  }

  /** Putting the saved strategy first changes no kind's parameters. */
  lemma OrderedParams(configured: seq<(string, Params)>, saved: Option<string>, kind: string)
    ensures ParamsFor(Ordered(configured, saved), kind) == ParamsFor(configured, kind)
  {
    var ordered := Ordered(configured, saved);
    if saved.Some? {
      assert ordered[1..] == configured;
    } else {
      assert ordered == configured;
    }
  }

  /** After a recovery the page fetches of the host run the very strategy that got through. */
  lemma RecoveredIsNext(
    cfg: Config, net: Network, render: (string, bool) -> Option<string>, saved: Option<string>, t: nat,
    url: string, maxRounds: nat)
    requires RecoveryOf(cfg, net, render, saved, t, url, maxRounds).Returned?
    requires RecoveryOf(cfg, net, render, saved, t, url, maxRounds).r.ok
    ensures var name := RecoveryOf(cfg, net, render, saved, t, url, maxRounds).r.strategy;
      var ladder, rung := DomainLadder(cfg, url, saved), FastRungFor(cfg, url, name);
      var w := Search(cfg, net, render, ladder.value, t, url, 1, maxRounds).0;
      && w.GotThrough? && w.rung < |ladder.value|
      && rung.Some? && BuildStrategy(rung.value.0, rung.value.1) == Some(ladder.value[w.rung])
  {
    var configured := cfg.strategies(cfg.host(url));
    var ladder := DomainLadder(cfg, url, saved).value;
    SearchTriesInOrder(cfg, net, render, ladder, t, url, 1, maxRounds);
    LadderOfFirsts(Ordered(configured, saved));
    var w := Search(cfg, net, render, ladder, t, url, 1, maxRounds).0;
    OrderedParams(configured, saved, ladder[w.rung].Name());
    assert ladder[w.rung] in ladder;
  }
}
