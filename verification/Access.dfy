// Outbound access (crawloop/access.py): the guarded client every GET goes through, and the
// strategies built on it. The network is an arbitrary sequence of answers.
module Access {
  import opened Wrappers
  import opened Failures

  datatype Response = Response(status: int, location: Option<string>, challenge: bool, text: string)

  /** What one GET yields: a response, or a transport error. */
  datatype Answer = Replied(r: Response) | Broken

  datatype Params = Params(header: Option<string>, authorized: bool)

  /** The allowlist, the host of a URL, redirect resolution, and each host's configured rungs and
      whether its pages need rendering. */
  datatype Config = Config(
    authorized: string -> bool, host: string -> string, join: (string, string) -> string,
    strategies: string -> seq<(string, Params)>, renderJs: string -> bool)

  /** What the client did, in order. */
  datatype Event = Checked(url: string) | Granted(host: string) | Sent(url: string)

  const MAX_REDIRECTS: nat := 5
  const TRIES: nat := 3

  function SentCount(log: seq<Event>): nat {
    if log == [] then 0 else SentCount(log[..|log| - 1]) + if log[|log| - 1].Sent? then 1 else 0
  }

  /** If event `i` is a GET, its own URL passed the allowlist and its host's limiter right before. */
  ghost predicate GuardedAt(log: seq<Event>, i: nat, cfg: Config)
    requires i < |log|
  {
    log[i].Sent? ==>
      && i >= 2 && cfg.authorized(log[i].url)
      && log[i - 1] == Granted(cfg.host(log[i].url)) && log[i - 2] == Checked(log[i].url)
  }

  /** Every GET went out right after its own URL passed the allowlist and its host's limiter. */
  ghost predicate Guarded(log: seq<Event>, cfg: Config) {
    forall i :: 0 <= i < |log| ==> GuardedAt(log, i, cfg)
  }

  /** A log stays guarded when one more guarded event is appended. */
  lemma GuardedMore(log: seq<Event>, e: Event, cfg: Config)
    requires Guarded(log, cfg) && GuardedAt(log + [e], |log|, cfg)
    ensures Guarded(log + [e], cfg)
  {
    forall i | 0 <= i < |log| ensures GuardedAt(log + [e], i, cfg) {
      assert GuardedAt(log, i, cfg);
    }
  }

  lemma StillGrown(first: seq<Event>, before: seq<Event>, after: seq<Event>)
    requires first <= before <= after
    ensures first <= after
  {
  }

  /** Check, grant, send: a guarded log stays guarded and has sent one more. */
  lemma GuardedHop(log: seq<Event>, url: string, cfg: Config)
    requires Guarded(log, cfg) && cfg.authorized(url)
    ensures var after := log + [Checked(url)] + [Granted(cfg.host(url))] + [Sent(url)];
      Guarded(after, cfg) && SentCount(after) == SentCount(log) + 1 && log <= after
  {
    var one := log + [Checked(url)];
    var two := one + [Granted(cfg.host(url))];
    OneMoreEvent(log, Checked(url));
    OneMoreEvent(one, Granted(cfg.host(url)));
    OneMoreEvent(two, Sent(url));
    GuardedMore(log, Checked(url), cfg);
    GuardedMore(one, Granted(cfg.host(url)), cfg);
    GuardedMore(two, Sent(url), cfg);
  }

  lemma OneMoreEvent(log: seq<Event>, e: Event)
    ensures SentCount(log + [e]) == SentCount(log) + if e.Sent? then 1 else 0
  {
    assert (log + [e])[..|log|] == log;
  }

  datatype GetResult = Got(r: Response) | TransportError | Propagates(failure: Failure)

  type Network = (nat, string) -> Answer

  predicate Redirects(r: Response) {
    300 <= r.status < 400 && r.location.Some? && r.location.value != ""
  }

  /** Following redirects from `url` for at most `hops` GETs, the first of them GET number `t`; with
      the number of the next one. */
  function Follow(cfg: Config, net: Network, t: nat, url: string, hops: nat): (GetResult, nat)
    decreases hops
  {
    if hops == 0 then (Propagates(FetchError(None)), t)
    else if !cfg.authorized(url) then (Propagates(UnauthorizedDomain), t)
    else match net(t, url)
      case Broken => (TransportError, t + 1)
      case Replied(r) =>
        if Redirects(r) then Follow(cfg, net, t + 1, cfg.join(url, r.location.value), hops - 1)
        else (Got(r), t + 1)
  }

  /** What following `url` comes to, `whole`, is what following `current` from GET `t` on comes to. */
  ghost predicate Pending(cfg: Config, net: Network, whole: (GetResult, nat), t: nat, current: string, left: nat) {
    whole == Follow(cfg, net, t, current, left)
  }

  /** One hop decides, or passes the question on; and so does the limit. */
  lemma HopDecides(cfg: Config, net: Network, whole: (GetResult, nat), t: nat, current: string, left: nat)
    requires Pending(cfg, net, whole, t, current, left)
    ensures
      if left == 0 then whole == (Propagates(FetchError(None)), t)
      else if !cfg.authorized(current) then whole == (Propagates(UnauthorizedDomain), t)
      else match net(t, current)
        case Broken => whole == (TransportError, t + 1)
        case Replied(r) =>
          if Redirects(r) then Pending(cfg, net, whole, t + 1, cfg.join(current, r.location.value), left - 1)
          else whole == (Got(r), t + 1)
  {
  }

  /** At most `hops` GETs, all of them when the redirect limit is what ends it; otherwise only a policy
      stop goes through. */
  lemma {:induction false} FollowEnds(cfg: Config, net: Network, t: nat, url: string, hops: nat)
    ensures var (r, next) := Follow(cfg, net, t, url, hops);
      && t <= next <= t + hops
      && (r.Propagates? ==> r.failure == UnauthorizedDomain || r.failure == FetchError(None))
      && (r == Propagates(FetchError(None)) ==> next == t + hops)
    decreases hops
  {
    if hops > 0 && cfg.authorized(url) && net(t, url).Replied? && Redirects(net(t, url).r) {
      FollowEnds(cfg, net, t + 1, cfg.join(url, net(t, url).r.location.value), hops - 1);
    }
  }

  /** A page that keeps redirecting to itself runs to the redirect limit, and is not returned. */
  lemma {:induction false} RedirectCycle(cfg: Config, net: Network, t: nat, url: string, hops: nat)
    requires cfg.authorized(url)
    requires forall k :: k >= t ==>
      net(k, url).Replied? && Redirects(net(k, url).r) && cfg.join(url, net(k, url).r.location.value) == url
    ensures Follow(cfg, net, t, url, hops) == (Propagates(FetchError(None)), t + hops)
    decreases hops
  {
    if hops > 0 {
      RedirectCycle(cfg, net, t + 1, url, hops - 1);
    }
  }

  class GuardedClient {
    const cfg: Config
    const answers: Network
    var log: seq<Event>
    var sent: nat

    constructor (cfg: Config, answers: Network)
      ensures this.cfg == cfg && this.answers == answers && log == [] && sent == 0
    {
      this.cfg, this.answers := cfg, answers;
      log, sent := [], 0;
    }

    ghost predicate Valid()
      reads this
    {
      Guarded(log, cfg) && sent == SentCount(log)
    }

    /** One hop: allowlist, then limiter, then the GET. `None` is the allowlist refusing. */
    method Hop(url: string) returns (a: Option<Answer>)
      requires Valid()
      modifies this
      ensures Valid() && old(log) <= log
      ensures a.Some? <==> cfg.authorized(url)
      ensures sent == old(sent) + if a.Some? then 1 else 0
      ensures a.Some? ==> a.value == answers(old(sent), url)
    {
      if !cfg.authorized(url) {
        return None;
      }
      GuardedHop(log, url, cfg);
      log := log + [Checked(url)];
      log := log + [Granted(cfg.host(url))];
      log := log + [Sent(url)];
      a := Some(answers(sent, url));
      sent := sent + 1;
    }

    /** One hop of the loop: what it decides, or the URL it redirects to. */
    method FollowHop(url: string, ghost whole: (GetResult, nat), ghost left: nat)
      returns (end: Option<GetResult>, next: string)
      requires Valid() && left > 0 && Pending(cfg, answers, whole, sent, url, left)
      modifies this
      ensures Valid() && old(log) <= log
      ensures end.Some? ==> whole == (end.value, sent)
      ensures end.None? ==> sent == old(sent) + 1 && Pending(cfg, answers, whole, sent, next, left - 1)
    {
      next := url;
      HopDecides(cfg, answers, whole, sent, url, left);
      var a := Hop(url);
      if a.None? {
        return Some(Propagates(UnauthorizedDomain)), next;
      }
      if a.value.Broken? {
        return Some(TransportError), next;
      }
      var resp := a.value.r;
      if !Redirects(resp) {
        return Some(Got(resp)), next;
      }
      end, next := None, cfg.join(url, resp.location.value);
    }

    /** `get`: at most six hops, each guarded; a cycle ends in a FetchError. */
    method Get(url: string) returns (r: GetResult)
      requires Valid()
      modifies this
      ensures Valid() && old(log) <= log
      ensures (r, sent) == Follow(cfg, answers, old(sent), url, MAX_REDIRECTS + 1)
      ensures sent <= old(sent) + MAX_REDIRECTS + 1
      ensures r.Propagates? ==> r.failure == UnauthorizedDomain || r.failure == FetchError(None)
      ensures !cfg.authorized(url) ==> r == Propagates(UnauthorizedDomain) && sent == old(sent)
      ensures r == Propagates(FetchError(None)) ==> sent == old(sent) + MAX_REDIRECTS + 1
    {
      var limit := MAX_REDIRECTS + 1;
      ghost var first, whole := log, Follow(cfg, answers, sent, url, limit);
      FollowEnds(cfg, answers, sent, url, limit);
      HopDecides(cfg, answers, whole, sent, url, limit);
      var current := url;
      for hop := 0 to limit
        invariant Valid() && first <= log
        invariant Pending(cfg, answers, whole, sent, current, limit - hop)
      {
        ghost var before := log;
        var end, next := FollowHop(current, whole, limit - hop);
        StillGrown(first, before, log);
        if end.Some? {
          return end.value;
        }
        current := next;
      }
      HopDecides(cfg, answers, whole, sent, current, 0);
      r := Propagates(FetchError(None));
    }
  }

  // ---- strategies ----

  datatype Outcome = Page(html: string) | BlockedBy(marker: Marker) | Failed(status: Option<int>)

  /** `_map_response`. */
  function MapResponse(r: Response): Outcome {
    if 200 <= r.status < 300 then Page(r.text)
    else if r.status == 429 then BlockedBy(Rate)
    else if r.status == 401 || r.status == 403 then BlockedBy(if r.challenge then Challenge else Auth)
    else Failed(Some(r.status))
  }

  datatype Strategy =
    | Plain
    | Backoff
    | Browser(stealth: bool)
    | Session
    | BypassToken(header: string)
    | CaptchaSolver(authorized: bool)
  {
    function Name(): string {
      match this
      case Plain => "plain"
      case Backoff => "backoff"
      case Browser(stealth) => if stealth then "stealth_browser" else "browser"
      case Session => "session"
      case BypassToken(_) => "bypass_token"
      case CaptchaSolver(_) => "captcha_solver"
    }

    /** GETs one fetch may send. */
    function Cost(): nat {
      match this
      case Backoff => TRIES * (MAX_REDIRECTS + 1)
      case Browser(_) => 0
      case CaptchaSolver(_) => 0
      case _ => MAX_REDIRECTS + 1
    }
  }

  /** `build_strategy`; `None` stands for its ValueError or KeyError. */
  function BuildStrategy(kind: string, params: Params): (r: Option<Strategy>)
    ensures r.Some? ==> r.value.Name() == kind
  {
    if kind == "plain" then Some(Plain)
    else if kind == "backoff" then Some(Backoff)
    else if kind == "browser" then Some(Browser(false))
    else if kind == "stealth_browser" then Some(Browser(true))
    else if kind == "session" then Some(Session)
    else if kind == "bypass_token" then
      if params.header.Some? then Some(BypassToken(params.header.value)) else None
    else if kind == "captcha_solver" then Some(CaptchaSolver(params.authorized))
    else None
  }

  /** A fetch yields an outcome, reports the rung unavailable, or lets a failure through. */
  datatype Fetched = Ended(outcome: Outcome) | NotEnabled | Through(failure: Failure)

  /** A plain fetch whose first GET is number `t`; with the number of the next one. */
  function PlainOf(cfg: Config, net: Network, t: nat, url: string): (Fetched, nat) {
    var (got, next) := Follow(cfg, net, t, url, MAX_REDIRECTS + 1);
    match got
    case Got(r) => (Ended(MapResponse(r)), next)
    case TransportError => (Ended(Failed(None)), next)
    case Propagates(failure) => (Through(failure), next)
  }

  /** What the first answer means when it does not redirect: a success is the page, 429 a rate block,
      401 and 403 a login or a challenge, anything else a failure with that status; only the last and
      a rate block are worth another try. */
  lemma FirstAnswerDecides(cfg: Config, net: Network, t: nat, url: string, r: Response)
    requires cfg.authorized(url) && net(t, url) == Replied(r) && !Redirects(r)
    ensures var f := PlainOf(cfg, net, t, url).0;
      && f.Ended? && PlainOf(cfg, net, t, url).1 == t + 1
      && (200 <= r.status < 300 <==> f.outcome == Page(r.text))
      && (r.status == 429 <==> f.outcome == BlockedBy(Rate))
      && ((r.status == 401 || r.status == 403) && r.challenge <==> f.outcome == BlockedBy(Challenge))
      && ((r.status == 401 || r.status == 403) && !r.challenge <==> f.outcome == BlockedBy(Auth))
      && (f.outcome.Failed? ==> f.outcome.status == Some(r.status))
      && (ShouldRetry(f) <==> r.status !in {401, 403} && !(200 <= r.status < 300))
  {
  }

  /** Transient: worth another try with the same strategy. */
  predicate ShouldRetry(f: Fetched) {
    f.Ended? && (f.outcome.Failed? || f.outcome == BlockedBy(Rate))
  }

  /** At most `left` further plain fetches after `f`, as long as the last one was transient. */
  function Retried(cfg: Config, net: Network, f: Fetched, t: nat, url: string, left: nat): (Fetched, nat)
    decreases left
  {
    if left == 0 || !ShouldRetry(f) then (f, t)
    else
      var (again, next) := PlainOf(cfg, net, t, url);
      Retried(cfg, net, again, next, url, left - 1)
  }

  /** One fetch of a strategy. `render` answers for the browser driver, which never goes through
      the client. */
  function FetchOf(
    cfg: Config, net: Network, render: (string, bool) -> Option<string>, s: Strategy, t: nat, url: string): (Fetched, nat)
  {
    match s
    case Backoff =>
      var (f, next) := PlainOf(cfg, net, t, url);
      Retried(cfg, net, f, next, url, TRIES - 1)
    case Browser(stealth) =>
      var html := render(url, stealth);
      (Ended(if html.Some? then Page(html.value) else Failed(None)), t)
    case CaptchaSolver(authorized) => (if authorized then Ended(Failed(None)) else NotEnabled, t)
    case _ => PlainOf(cfg, net, t, url)
  }

  /** An outcome that is not transient is final; whatever comes back is what the last fetch gave. */
  lemma {:induction false} RetriesEnd(cfg: Config, net: Network, f: Fetched, t: nat, url: string, left: nat)
    ensures var (r, next) := Retried(cfg, net, f, t, url, left);
      && t <= next
      && (!ShouldRetry(f) ==> r == f && next == t)
      && ((r, next) == (f, t) || exists k :: t <= k && PlainOf(cfg, net, k, url) == (r, next))
    decreases left
  {
    if left > 0 && ShouldRetry(f) {
      FollowEnds(cfg, net, t, url, MAX_REDIRECTS + 1);
      var (again, next) := PlainOf(cfg, net, t, url);
      RetriesEnd(cfg, net, again, next, url, left - 1);
    }
  }

  /** `PlainHTTP.fetch`: only transport errors are caught. */
  method PlainFetch(client: GuardedClient, url: string) returns (f: Fetched)
    requires client.Valid()
    modifies client
    ensures client.Valid() && old(client.log) <= client.log
    ensures (f, client.sent) == PlainOf(client.cfg, client.answers, old(client.sent), url)
    ensures client.sent <= old(client.sent) + MAX_REDIRECTS + 1
  {
    var got := client.Get(url);
    match got {
      case Got(resp) => f := Ended(MapResponse(resp));
      case TransportError => f := Ended(Failed(None));
      case Propagates(failure) => f := Through(failure);
    }
  }

  /** `BackoffRetry.fetch` around a plain fetch: transient outcomes are retried, up to three tries. */
  method BackoffFetch(client: GuardedClient, url: string, ghost render: (string, bool) -> Option<string>)
    returns (f: Fetched)
    requires client.Valid()
    modifies client
    ensures client.Valid() && old(client.log) <= client.log
    ensures (f, client.sent) == FetchOf(client.cfg, client.answers, render, Backoff, old(client.sent), url)
    ensures client.sent <= old(client.sent) + TRIES * (MAX_REDIRECTS + 1)
  {
    f := PlainFetch(client, url);
    for attempt := 0 to TRIES - 1
      invariant client.Valid() && old(client.log) <= client.log
      invariant FetchOf(client.cfg, client.answers, render, Backoff, old(client.sent), url)
        == Retried(client.cfg, client.answers, f, client.sent, url, TRIES - 1 - attempt)
      invariant client.sent <= old(client.sent) + (attempt + 1) * (MAX_REDIRECTS + 1)
    {
      if !ShouldRetry(f) {
        return;
      }
      f := PlainFetch(client, url);
    }
  }

  /** `strategy.fetch`. */
  method Fetch(client: GuardedClient, s: Strategy, url: string, render: (string, bool) -> Option<string>)
    returns (f: Fetched)
    requires client.Valid()
    modifies client
    ensures client.Valid() && old(client.log) <= client.log
    ensures (f, client.sent) == FetchOf(client.cfg, client.answers, render, s, old(client.sent), url)
    ensures client.sent <= old(client.sent) + s.Cost()
  {
    match s {
      case Backoff => f := BackoffFetch(client, url, render);
      case Browser(stealth) =>
        var html := render(url, stealth);
        f := Ended(if html.Some? then Page(html.value) else Failed(None));
      case CaptchaSolver(authorized) =>
        f := if authorized then Ended(Failed(None)) else NotEnabled;
      case _ => f := PlainFetch(client, url);
    }
  }
}
