// Two requests that leave the engine with an error its documentation does not mention
// (crawloop/engine.py, crawloop/access.py): a redirect cycle met in recovery, and a configured
// strategy that cannot be built. Everything in them is concrete.
module EscapeWitnesses {
  import opened Wrappers
  import opened Pages
  import opened Sorting
  import opened Values
  import opened Failures
  import opened Validator
  import opened Gauntlet
  import opened Llm
  import opened Ladder
  import opened Registry
  import Access
  import AccessRecovery
  import opened FetchContext
  import Executor
  import Sampler
  import LoopCourse
  import opened Answers
  import Engine

  const WEB: Sampler.Web := Sampler.Web(_ => Sampler.Failed, _ => [], (_, _) => None, u => u)

  const TOOLS: LoopCourse.Tools := LoopCourse.Tools(
    WEB, _ => None, _ => None, (_, _) => None, _ => false, (_, _, _) => None, (_, _, _) => None)

  /** One family, "f", which every URL routes to once it is registered. */
  const OUTSIDE: Engine.Outside := Engine.Outside(
    (_, families) => if "f" in families then Some("f") else None,
    _ => "f", _ => "", _ => Schema([], {}, {}, _ => true), _ => "s", _ => None, (_, _) => None, (_, _) => None,
    (_, _) => [], TOOLS, LoopCourse.Config(0, 0, 0, 0, AGREEMENT_BAR))

  const SETTINGS: Engine.Settings := Engine.Settings(false, false, false, 0, "", false)

  const NO_PARAMS: Access.Params := Access.Params(None, false)
  const PLAIN: seq<(string, Access.Params)> := [("plain", NO_PARAMS)]
  const PLAIN_THEN_TOKEN: seq<(string, Access.Params)> := [("plain", NO_PARAMS), ("bypass_token", NO_PARAMS)]

  /** Everything is allowlisted; each host is configured with the given rungs. */
  function Configured(rungs: seq<(string, Access.Params)>): Access.Config {
    Access.Config(_ => true, u => u, (_, location) => location, _ => rungs, _ => false)
  }

  /** The first GET is answered 429; after that every page redirects to itself. */
  function BlockedThenCycling(): Access.Network {
    (t, u) => Access.Replied(
      if t == 0 then Access.Response(429, None, false, "") else Access.Response(302, Some(u), false, ""))
  }

  lemma OnePlainRung(url: string)
    ensures AccessRecovery.DomainLadder(Configured(PLAIN), url, None) == Some([Access.Plain])
  {
    assert AccessRecovery.Ordered(PLAIN, None) == PLAIN;
    assert PLAIN[..0] == [];
    assert AccessRecovery.LadderOf(PLAIN[..0]) == Some([]);
    AccessRecovery.LadderNext(PLAIN, 0, []);
    assert PLAIN[..1] == PLAIN && [] + [Access.Plain] == [Access.Plain];
  }

  lemma NoTokenRung(url: string)
    ensures AccessRecovery.DomainLadder(Configured(PLAIN_THEN_TOKEN), url, None) == None
  {
    assert AccessRecovery.Ordered(PLAIN_THEN_TOKEN, None) == PLAIN_THEN_TOKEN;
    AccessRecovery.UnbuildableRung(PLAIN_THEN_TOKEN, 1);
  }

  lemma CycleStopsRecovery(url: string)
    requires url != ""
    ensures AccessRecovery.RecoveryOf(Configured(PLAIN), BlockedThenCycling(), (_, _) => None, None, 1, url, 2)
      == AccessRecovery.RecoveryRaised(FetchError(None))
  {
    OnePlainRung(url);
    AccessRecovery.CycleRaises(Configured(PLAIN), BlockedThenCycling(), (_, _) => None, None, 1, url, 2);
  }

  /** With a plain first rung the first page fetch is one GET, and blocked. */
  lemma FirstPageBlocked(rungs: seq<(string, Access.Params)>, url: string)
    requires rungs != [] && rungs[0].0 == "plain"
    ensures PageOf(Configured(rungs), BlockedThenCycling(), OUTSIDE.render, None, 0, url)
      == (NotFetched(FetchBlocked(Rate)), 1)
  {
    var cfg, net := Configured(rungs), BlockedThenCycling();
    assert Access.Follow(cfg, net, 0, url, Access.MAX_REDIRECTS + 1) == (Access.Got(Access.Response(429, None, false, "")), 1);
    assert Access.PlainOf(cfg, net, 0, url) == (Access.Ended(Access.BlockedBy(Rate)), 1);
    assert FastRungFor(cfg, url, None) == Some(rungs[0]);
  }

  /** An engine with the family registered and no version yet. */
  method SetUp(rungs: seq<(string, Access.Params)>) returns (engine: Engine.Engine)
    ensures fresh(engine) && fresh(engine.reg) && fresh(engine.c) && fresh(engine.client) && fresh(engine.site)
    ensures engine.settings == SETTINGS && engine.outside == OUTSIDE
    ensures engine.reg.versions == [] && "f" in engine.reg.families && engine.reg.domains == map[]
    ensures engine.client.Valid() && engine.client.cfg == Configured(rungs)
    ensures engine.client.answers == BlockedThenCycling() && engine.client.sent == 0
  {
    var reg := new Registry(_ => true);
    reg.UpsertFamily("f", [], "s");
    var c := new Completer(_ => ProviderError);
    var client := new Access.GuardedClient(Configured(rungs), BlockedThenCycling());
    var site := new Executor.Site((_, _, _) => Executor.Crashed(OtherError));
    engine := new Engine.Engine(SETTINGS, OUTSIDE, reg, c, client, site);
  }

  /** With nothing on the ladder and the page blocked, the answer is recovery's. */
  lemma BlockedFacts(engine: Engine.Engine)
    requires engine.reg.versions == [] && "f" in engine.reg.families && engine.reg.domains == map[]
    requires engine.PageFrom(None, engine.client.sent, "u") == (NotFetched(FetchBlocked(Rate)), 1)
    ensures var facts := engine.FactsNow("u", "f", None);
      forall loop :: KnownAnswer(facts.(loop := loop), "f") ==
        BlockedAnswer(engine.RecoveryFrom(None, 1, "u"), Executor.NoneServed, "f")
  {
    engine.NothingToRun(engine.site.clock, "u", "f");
    var facts := engine.FactsNow("u", "f", None);
    assert RouteOf(facts.run, facts.page) == BlockedAway;
  }

  /** The route of a URL of the one family. */
  lemma AllRouted(engine: Engine.Engine)
    requires engine.outside == OUTSIDE
    ensures engine.RoutesToKnown()
  {
  }

  /** What the one request is answered with. */
  method Serve(rungs: seq<(string, Access.Params)>) returns (o: Outcome)
    requires rungs != [] && rungs[0].0 == "plain"
    ensures o == BlockedAnswer(
      AccessRecovery.RecoveryOf(
        Configured(rungs), BlockedThenCycling(), OUTSIDE.render, None, 1, "u", Engine.RECOVERY_ROUNDS),
      Executor.NoneServed, "f")
  {
    var engine := SetUp(rungs);
    FirstPageBlocked(rungs, "u");
    BlockedFacts(engine);
    AllRouted(engine);
    ghost var loop: Option<LoopRun>;
    o, loop := engine.Request("u", None);
  }

  /** A page that is blocked at first, and then redirects to itself, leaves the engine as a fetch error. */
  method RedirectCycleEscapes() returns (o: Outcome)
    ensures o == Escaped(FetchError(None))
  {
    CycleStopsRecovery("u");
    o := Serve(PLAIN);
  }

  /** A blocked page on a host whose second rung lacks its header leaves the engine as a build error. */
  method UnbuildableRungEscapes() returns (o: Outcome)
    ensures o == Escaped(BuildFailure)
  {
    NoTokenRung("u");
    o := Serve(PLAIN_THEN_TOKEN);
  }
}
