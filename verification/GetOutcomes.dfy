// What each of many coroutines in one guarded client gets (crawloop/access.py, GuardedClient.get):
// what following redirects on its own answers gives.
module GetOutcomes {
  import opened Wrappers
  import opened Failures
  import opened Access
  import opened GuardedGets
  import RateLimiter

  /** The coroutine after hearing `heard`, started on `url`. */
  function Progress(cfg: Config, url: string, heard: seq<Answer>): Pc {
    if heard == [] then Checking(url, MAX_REDIRECTS + 1)
    else
      var before := Progress(cfg, url, heard[..|heard| - 1]);
      if before.Checking? && before.hops > 0
      then AfterAnswer(cfg, before.url, before.hops, heard[|heard| - 1]) else before
  }

  /** A network that says what the coroutine heard. */
  ghost predicate Says(net: Network, cfg: Config, url: string, heard: seq<Answer>) {
    forall k :: 0 <= k < |heard| && Progress(cfg, url, heard[..k]).Checking? ==>
      net(k, Progress(cfg, url, heard[..k]).url) == heard[k]
  }

  /** Every URL asked for on the way was allowlisted. */
  ghost predicate AllChecked(cfg: Config, url: string, heard: seq<Answer>) {
    forall k :: 0 <= k < |heard| ==>
      Progress(cfg, url, heard[..k]).Checking? && cfg.authorized(Progress(cfg, url, heard[..k]).url)
  }

  lemma ProgressOneMore(cfg: Config, url: string, before: seq<Answer>, answer: Answer)
    ensures Progress(cfg, url, before + [answer]) ==
      var pc := Progress(cfg, url, before);
      if pc.Checking? && pc.hops > 0 then AfterAnswer(cfg, pc.url, pc.hops, answer) else pc
  {
    assert (before + [answer])[..|before|] == before;
  }

  lemma CheckedOneMore(cfg: Config, url: string, before: seq<Answer>, answer: Answer)
    requires AllChecked(cfg, url, before)
    requires Progress(cfg, url, before).Checking? && cfg.authorized(Progress(cfg, url, before).url)
    ensures AllChecked(cfg, url, before + [answer])
  {
    var after := before + [answer];
    forall k | 0 <= k < |after|
      ensures Progress(cfg, url, after[..k]).Checking? && cfg.authorized(Progress(cfg, url, after[..k]).url)
    {
      assert after[..k] == before[..k];
      assert before[..|before|] == before;
    }
  }

  lemma PrefixChecked(cfg: Config, net: Network, url: string, heard: seq<Answer>, n: nat)
    requires n < |heard| && AllChecked(cfg, url, heard) && Says(net, cfg, url, heard)
    ensures AllChecked(cfg, url, heard[..n]) && Says(net, cfg, url, heard[..n])
    ensures var pc := Progress(cfg, url, heard[..n]);
      pc.Checking? && cfg.authorized(pc.url) && net(n, pc.url) == heard[n]
  {
    assert forall k :: 0 <= k < n ==> heard[..n][..k] == heard[..k];
  }

  /** A coroutine alone in the client, with the same answers, goes the same way: following redirects
      from the start is following them from where the coroutine is now. */
  lemma {:induction false} ProgressFollows(cfg: Config, net: Network, url: string, heard: seq<Answer>)
    requires AllChecked(cfg, url, heard) && Says(net, cfg, url, heard)
    ensures FollowsFrom(cfg, net, url, Progress(cfg, url, heard), |heard|)
  {
    if heard != [] {
      var n := |heard| - 1;
      PrefixChecked(cfg, net, url, heard, n);
      ProgressFollows(cfg, net, url, heard[..n]);
      assert heard == heard[..n] + [heard[n]];
      FollowsOneMore(cfg, net, url, heard[..n], heard[n]);
    }
  }

  lemma FollowsOneMore(cfg: Config, net: Network, url: string, before: seq<Answer>, answer: Answer)
    requires FollowsFrom(cfg, net, url, Progress(cfg, url, before), |before|)
    requires var pc := Progress(cfg, url, before);
      pc.Checking? && cfg.authorized(pc.url) && net(|before|, pc.url) == answer
    ensures FollowsFrom(cfg, net, url, Progress(cfg, url, before + [answer]), |before| + 1)
  {
    ProgressOneMore(cfg, url, before, answer);
    FollowsNext(cfg, net, url, Progress(cfg, url, before), |before|);
  }

  /** What following from the start comes to, seen from where the coroutine is after `n` answers. */
  ghost predicate FollowsFrom(cfg: Config, net: Network, url: string, pc: Pc, n: nat) {
    match pc
    case Checking(u, hops) =>
      hops > 0 && Follow(cfg, net, 0, url, MAX_REDIRECTS + 1) == Follow(cfg, net, n, u, hops)
    case Done(r) => Follow(cfg, net, 0, url, MAX_REDIRECTS + 1) == (r, n)
    case _ => false
  }

  lemma FollowsNext(cfg: Config, net: Network, url: string, pc: Pc, n: nat)
    requires FollowsFrom(cfg, net, url, pc, n) && pc.Checking? && cfg.authorized(pc.url)
    ensures FollowsFrom(cfg, net, url, AfterAnswer(cfg, pc.url, pc.hops, net(n, pc.url)), n + 1)
  {
  }

  /** Where the coroutine is, is where its answers led it. */
  ghost predicate OnCourse(s: State, t: Task, cfg: Config) {
    var pc, led := s.PcOf(t), Progress(cfg, s.Began(t), s.HeardBy(t));
    match pc
    case Out => true
    case Checking(_, _) => AllChecked(cfg, s.Began(t), s.HeardBy(t)) && led == pc
    case Waiting(url, hops) =>
      AllChecked(cfg, s.Began(t), s.HeardBy(t)) && led == Checking(url, hops) && cfg.authorized(url)
    case Replying(url, hops) =>
      AllChecked(cfg, s.Began(t), s.HeardBy(t)) && led == Checking(url, hops) && cfg.authorized(url)
    case Done(r) =>
      && AllChecked(cfg, s.Began(t), s.HeardBy(t))
      && (led == pc || (led.Checking? && !cfg.authorized(led.url) && r == Propagates(UnauthorizedDomain)))
  }

  /** Where a coroutine is after hearing one more answer. */
  lemma ProgressHears(cfg: Config, url: string, heard: seq<Answer>, at: string, hops: nat, answer: Answer)
    requires AllChecked(cfg, url, heard) && Progress(cfg, url, heard) == Checking(at, hops)
    requires cfg.authorized(at) && hops > 0
    ensures AllChecked(cfg, url, heard + [answer])
    ensures Progress(cfg, url, heard + [answer]) == AfterAnswer(cfg, at, hops, answer)
  {
    CheckedOneMore(cfg, url, heard, answer);
    ProgressOneMore(cfg, url, heard, answer);
  }

  lemma HearsOnCourse(s: State, t: Task, answer: Answer, cfg: Config, rps: string -> RateLimiter.Rate)
    requires OnCourse(s, t, cfg) && s.PcOf(t).Replying? && s.PcOf(t).hops > 0
    ensures OnCourse(Next(s, Hear(t, answer), cfg, rps), t, cfg)
  {
    var pc := s.PcOf(t);
    ProgressHears(cfg, s.Began(t), s.HeardBy(t), pc.url, pc.hops, answer);
    var s' := Next(s, Hear(t, answer), cfg, rps);
    assert s'.PcOf(t) == AfterAnswer(cfg, pc.url, pc.hops, answer);
    assert s'.HeardBy(t) == s.HeardBy(t) + [answer] && s'.Began(t) == s.Began(t);
  }

  /** A step of another coroutine, or of the limiter. */
  lemma ElsewhereOnCourse(s: State, a: Action, t: Task, cfg: Config, rps: string -> RateLimiter.Rate)
    requires OnCourse(s, t, cfg) && (a.Limit? || a.t != t)
    ensures OnCourse(Next(s, a, cfg, rps), t, cfg)
  {
    var s' := Next(s, a, cfg, rps);
    assert s'.PcOf(t) == s.PcOf(t) && s'.HeardBy(t) == s.HeardBy(t) && s'.Began(t) == s.Began(t);
  }

  lemma CheckOnCourse(s: State, t: Task, cfg: Config, rps: string -> RateLimiter.Rate)
    requires OnCourse(s, t, cfg)
    ensures OnCourse(Next(s, Check(t), cfg, rps), t, cfg)
  {
    var s' := Next(s, Check(t), cfg, rps);
    assert s'.HeardBy(t) == s.HeardBy(t) && s'.Began(t) == s.Began(t);
  }

  lemma SendOnCourse(s: State, t: Task, cfg: Config, rps: string -> RateLimiter.Rate)
    requires OnCourse(s, t, cfg)
    ensures OnCourse(Next(s, Send(t), cfg, rps), t, cfg)
  {
    var s' := Next(s, Send(t), cfg, rps);
    assert s'.HeardBy(t) == s.HeardBy(t) && s'.Began(t) == s.Began(t);
  }

  lemma StartOnCourse(s: State, t: Task, url: string, cfg: Config, rps: string -> RateLimiter.Rate)
    requires OnCourse(s, t, cfg)
    ensures OnCourse(Next(s, Start(t, url), cfg, rps), t, cfg)
  {
    assert AllChecked(cfg, url, []);
  }

  lemma StepOnCourse(s: State, a: Action, t: Task, cfg: Config, rps: string -> RateLimiter.Rate)
    requires OnCourse(s, t, cfg)
    ensures OnCourse(Next(s, a, cfg, rps), t, cfg)
  {
    if a.Limit? || a.t != t {
      ElsewhereOnCourse(s, a, t, cfg, rps);
    } else {
      match a
      case Start(_, url) => StartOnCourse(s, t, url, cfg, rps);
      case Check(_) => CheckOnCourse(s, t, cfg, rps);
      case Send(_) => SendOnCourse(s, t, cfg, rps);
      case Hear(_, answer) =>
        if s.PcOf(t).Replying? && s.PcOf(t).hops > 0 {
          HearsOnCourse(s, t, answer, cfg, rps);
        }
      case Abort(_) => assert Next(s, a, cfg, rps).PcOf(t).Out?;
    }
  }

  lemma {:induction false} RunOnCourse(actions: seq<Action>, t: Task, cfg: Config, rps: string -> RateLimiter.Rate)
    ensures OnCourse(Run(actions, cfg, rps), t, cfg)
  {
    if actions != [] {
      RunOnCourse(actions[..|actions| - 1], t, cfg, rps);
      StepOnCourse(Run(actions[..|actions| - 1], cfg, rps), actions[|actions| - 1], t, cfg, rps);
    }
  }

  /** Whatever the others do, a coroutine that is done got what following redirects on its own
      answers gives, the policy stop and the redirect limit included. */
  lemma EachGetsItsOwn(actions: seq<Action>, t: Task, net: Network, cfg: Config, rps: string -> RateLimiter.Rate)
    requires var s := Run(actions, cfg, rps); s.PcOf(t).Done? && Says(net, cfg, s.Began(t), s.HeardBy(t))
    ensures var s := Run(actions, cfg, rps);
      Follow(cfg, net, 0, s.Began(t), MAX_REDIRECTS + 1).0 == s.PcOf(t).r
  {
    var s := Run(actions, cfg, rps);
    RunOnCourse(actions, t, cfg, rps);
    ProgressFollows(cfg, net, s.Began(t), s.HeardBy(t));
  }
}
