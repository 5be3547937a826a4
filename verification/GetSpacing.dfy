// How far apart the GETs to one host are (crawloop/access.py), over every coroutine in the client.
module GetSpacing {
  import opened Wrappers
  import opened Access
  import opened GuardedGets
  import RateLimiter

  /** When GETs to `h` were sent, in order, by whichever coroutine. */
  function SendTimes(log: seq<Entry>, h: string, cfg: Config): seq<real> {
    if log == [] then []
    else
      var last := log[|log| - 1];
      SendTimes(log[..|log| - 1], h, cfg)
      + if last.event.Sent? && cfg.host(last.event.url) == h then [last.time] else []
  }

  lemma SendTimesOneMore(log: seq<Entry>, e: Entry, h: string, cfg: Config)
    ensures SendTimes(log + [e], h, cfg) ==
      SendTimes(log, h, cfg) + if e.event.Sent? && cfg.host(e.event.url) == h then [e.time] else []
  {
    assert (log + [e])[..|log|] == log;
  }

  lemma SendTimesAfterSend(s: State, t: Task, h: string, cfg: Config, rps: string -> RateLimiter.Rate)
    requires Inv(s, cfg, rps)
    requires s.PcOf(t).Waiting? && s.lim.PhaseOf(t).Cleared?
    requires SendTimes(s.log, h, cfg) == RateLimiter.Times(s.lim.grants, h)
    ensures var s' := Next(s, Send(t), cfg, rps); SendTimes(s'.log, h, cfg) == RateLimiter.Times(s'.lim.grants, h)
  {
    var url, s' := s.PcOf(t).url, Next(s, Send(t), cfg, rps);
    assert TaskInv(s, t, cfg);
    var grant, sent := Entry(t, Granted(cfg.host(url)), s.lim.clock), Entry(t, Sent(url), s.lim.clock);
    assert s'.log == s.log + [grant] + [sent];
    SendTimesOneMore(s.log, grant, h, cfg);
    SendTimesOneMore(s.log + [grant], sent, h, cfg);
    RateLimiter.TimesOfNewGrant(s.lim.grants, RateLimiter.Grant(cfg.host(url), s.lim.clock), h);
  }

  /** No grant was given, and nothing was logged. */
  ghost predicate Quiet(s: State, s': State) {
    s'.lim.grants == s.lim.grants && s'.log == s.log
  }

  lemma QuietStart(s: State, t: Task, url: string, cfg: Config, rps: string -> RateLimiter.Rate)
    ensures Quiet(s, Next(s, Start(t, url), cfg, rps))
  {
  }

  lemma QuietHear(s: State, t: Task, answer: Answer, cfg: Config, rps: string -> RateLimiter.Rate)
    ensures Quiet(s, Next(s, Hear(t, answer), cfg, rps))
  {
  }

  /** Only the end of `acquire` gives a grant. */
  lemma QuietLimiter(lim: RateLimiter.State, a: RateLimiter.Action, rps: string -> RateLimiter.Rate)
    requires !a.Stamp?
    ensures RateLimiter.Next(lim, a, rps).grants == lim.grants
  {
  }

  lemma QuietLimit(s: State, a: RateLimiter.Action, cfg: Config, rps: string -> RateLimiter.Rate)
    ensures Quiet(s, Next(s, Limit(a), cfg, rps))
  {
    if Inner(a) {
      QuietLimiter(s.lim, a, rps);
    }
  }

  lemma QuietAbort(s: State, t: Task, cfg: Config, rps: string -> RateLimiter.Rate)
    ensures Quiet(s, Next(s, Abort(t), cfg, rps))
  {
    QuietLimiter(s.lim, RateLimiter.Cancel(t), rps);
  }

  /** A check logs no GET. */
  lemma QuietCheck(s: State, t: Task, h: string, cfg: Config, rps: string -> RateLimiter.Rate)
    ensures var s' := Next(s, Check(t), cfg, rps);
      s'.lim.grants == s.lim.grants && SendTimes(s'.log, h, cfg) == SendTimes(s.log, h, cfg)
  {
    if s.PcOf(t).Checking? && cfg.authorized(s.PcOf(t).url) {
      var url := s.PcOf(t).url;
      QuietLimiter(s.lim, RateLimiter.Call(t, cfg.host(url)), rps);
      SendTimesOneMore(s.log, Entry(t, Checked(url), s.lim.clock), h, cfg);
    }
  }

  lemma QuietSendTimes(s: State, a: Action, h: string, cfg: Config, rps: string -> RateLimiter.Rate)
    requires SendTimes(s.log, h, cfg) == RateLimiter.Times(s.lim.grants, h)
    requires !a.Send? || !(s.PcOf(a.t).Waiting? && s.lim.PhaseOf(a.t).Cleared?)
    ensures var s' := Next(s, a, cfg, rps); SendTimes(s'.log, h, cfg) == RateLimiter.Times(s'.lim.grants, h)
  {
    match a
    case Start(t, url) => QuietStart(s, t, url, cfg, rps);
    case Check(t) => QuietCheck(s, t, h, cfg, rps);
    case Limit(inner) => QuietLimit(s, inner, cfg, rps);
    case Send(t) => assert Quiet(s, Next(s, a, cfg, rps));
    case Hear(t, answer) => QuietHear(s, t, answer, cfg, rps);
    case Abort(t) => QuietAbort(s, t, cfg, rps);
  }

  /** GETs and grants of a host happen at the same times: every grant is spent on one GET. */
  lemma {:induction false} SendsAreGrants(actions: seq<Action>, h: string, cfg: Config, rps: string -> RateLimiter.Rate)
    ensures var s := Run(actions, cfg, rps); SendTimes(s.log, h, cfg) == RateLimiter.Times(s.lim.grants, h)
  {
    if actions != [] {
      var before, a := Run(actions[..|actions| - 1], cfg, rps), actions[|actions| - 1];
      SendsAreGrants(actions[..|actions| - 1], h, cfg, rps);
      RunKeeps(actions[..|actions| - 1], cfg, rps);
      if a.Send? && before.PcOf(a.t).Waiting? && before.lim.PhaseOf(a.t).Cleared? {
        SendTimesAfterSend(before, a.t, h, cfg, rps);
      } else {
        QuietSendTimes(before, a, h, cfg, rps);
      }
    }
  }

  /** GETs to one host are at least 1 / max_rps apart, over all coroutines, redirects and retries. */
  lemma SendsSpaced(actions: seq<Action>, h: string, cfg: Config, rps: string -> RateLimiter.Rate)
    ensures RateLimiter.Spaced(SendTimes(Run(actions, cfg, rps).log, h, cfg), RateLimiter.Interval(rps, h))
  {
    SendsAreGrants(actions, h, cfg, rps);
    RunKeeps(actions, cfg, rps);
  }

  lemma SpacedWindow(ts: seq<real>, h: string, rps: string -> RateLimiter.Rate, lo: real, length: real)
    requires length >= 0.0 && RateLimiter.Spaced(ts, RateLimiter.Interval(rps, h))
    ensures RateLimiter.CountWithin(ts, lo, lo + length) <= (length * rps(h)).Floor + 1
  {
    RateLimiter.WindowOfSpaced(ts, rps(h), lo, length);
  }

  /** So any window of length `length` sees at most floor(length * max_rps) + 1 of them. */
  lemma SendWindow(actions: seq<Action>, h: string, cfg: Config, rps: string -> RateLimiter.Rate, lo: real, length: real)
    requires length >= 0.0
    ensures RateLimiter.CountWithin(SendTimes(Run(actions, cfg, rps).log, h, cfg), lo, lo + length)
      <= (length * rps(h)).Floor + 1
  {
    SendsSpaced(actions, h, cfg, rps);
    SpacedWindow(SendTimes(Run(actions, cfg, rps).log, h, cfg), h, rps, lo, length);
  }
}
