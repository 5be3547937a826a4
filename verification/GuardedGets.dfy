// Many coroutines in one guarded client (crawloop/access.py, GuardedClient.get over
// RateLimiter.acquire): each runs its own `get`, and their steps interleave freely. A step is an
// atomic stretch between awaits. The end of `acquire` and the start of the GET are one stretch: no
// await lies between them.
module GuardedGets {
  import opened Wrappers
  import opened Failures
  import opened Access
  import RateLimiter

  type Task = RateLimiter.Task

  /** Where a coroutine is inside `get`: at most `hops` GETs are left, the next one to `url`. */
  datatype Pc =
    | Out
    | Checking(url: string, hops: nat)
    | Waiting(url: string, hops: nat)
    | Replying(url: string, hops: nat)
    | Done(r: GetResult)

  /** An event and the coroutine it belongs to. */
  datatype Entry = Entry(task: Task, event: Event, time: real)

  /** The limiters, where each coroutine is, what URL it began on and what it heard since, and the log. */
  datatype State = State(
    lim: RateLimiter.State, pcs: map<Task, Pc>, began: map<Task, string>, heard: map<Task, seq<Answer>>,
    log: seq<Entry>)
  {
    function PcOf(t: Task): Pc {
      if t in pcs then pcs[t] else Out
    }

    function Began(t: Task): string {
      if t in began then began[t] else ""
    }

    function HeardBy(t: Task): seq<Answer> {
      if t in heard then heard[t] else []
    }
  }

  datatype Action =
    | Start(t: Task, url: string)
    | Check(t: Task)
    | Limit(a: RateLimiter.Action)
    | Send(t: Task)
    | Hear(t: Task, answer: Answer)
    | Abort(t: Task)

  /** The limiter's own steps: the clock, and what happens inside `acquire` before it ends. */
  predicate Inner(a: RateLimiter.Action) {
    a.Tick? || a.TakeLock? || a.ReadClock? || a.Wake?
  }

  /** What follows an answer to the GET of `url`, of `hops` that were left. */
  function AfterAnswer(cfg: Config, url: string, hops: nat, answer: Answer): Pc
    requires hops > 0
  {
    match answer
    case Broken => Done(TransportError)
    case Replied(r) =>
      if !Redirects(r) then Done(Got(r))
      else if hops == 1 then Done(Propagates(FetchError(None)))
      else Checking(cfg.join(url, r.location.value), hops - 1)
  }

  /** One step; an action that is not enabled leaves the state alone. */
  ghost function Next(s: State, a: Action, cfg: Config, rps: string -> RateLimiter.Rate): State
  {
    match a
    case Start(t, url) =>
      if s.PcOf(t).Out? || s.PcOf(t).Done? then
        s.(pcs := s.pcs[t := Checking(url, MAX_REDIRECTS + 1)], began := s.began[t := url],
          heard := s.heard[t := []])
      else s
    case Check(t) =>
      var pc := s.PcOf(t);
      if !pc.Checking? then s
      else if !cfg.authorized(pc.url) then s.(pcs := s.pcs[t := Done(Propagates(UnauthorizedDomain))])
      else s.(lim := RateLimiter.Next(s.lim, RateLimiter.Call(t, cfg.host(pc.url)), rps),
              pcs := s.pcs[t := Waiting(pc.url, pc.hops)],
              log := s.log + [Entry(t, Checked(pc.url), s.lim.clock)])
    case Limit(inner) => if Inner(inner) then s.(lim := RateLimiter.Next(s.lim, inner, rps)) else s
    case Send(t) =>
      var pc := s.PcOf(t);
      if pc.Waiting? && s.lim.PhaseOf(t).Cleared? then
        s.(lim := RateLimiter.Next(s.lim, RateLimiter.Stamp(t), rps),
           pcs := s.pcs[t := Replying(pc.url, pc.hops)],
           log := s.log + [Entry(t, Granted(cfg.host(pc.url)), s.lim.clock), Entry(t, Sent(pc.url), s.lim.clock)])
      else s
    case Hear(t, answer) =>
      var pc := s.PcOf(t);
      if pc.Replying? && pc.hops > 0 then
        s.(pcs := s.pcs[t := AfterAnswer(cfg, pc.url, pc.hops, answer)],
           heard := s.heard[t := s.HeardBy(t) + [answer]])
      else s
    case Abort(t) =>
      s.(lim := RateLimiter.Next(s.lim, RateLimiter.Cancel(t), rps), pcs := s.pcs[t := Out])
  }

  const START: State := State(RateLimiter.START, map[], map[], map[], [])

  ghost function Run(actions: seq<Action>, cfg: Config, rps: string -> RateLimiter.Rate): State
  {
    if actions == [] then START
    else Next(Run(actions[..|actions| - 1], cfg, rps), actions[|actions| - 1], cfg, rps)
  }

  // ---- one coroutine's part of the log ----

  /** The events of one coroutine, in order. */
  function LogOf(log: seq<Entry>, t: Task): seq<Event> {
    if log == [] then []
    else
      var last := log[|log| - 1];
      LogOf(log[..|log| - 1], t) + if last.task == t then [last.event] else []
  }

  lemma LogOfOneMore(log: seq<Entry>, e: Entry, t: Task)
    ensures LogOf(log + [e], t) == LogOf(log, t) + if e.task == t then [e.event] else []
  {
    assert (log + [e])[..|log|] == log;
  }

  /** `acquire` of the coroutine's own host is where the limiter has it. */
  ghost predicate InLimiter(s: State, t: Task, cfg: Config) {
    var pc := s.PcOf(t);
    if pc.Waiting? then
      && cfg.authorized(pc.url) && !s.lim.PhaseOf(t).Idle? && s.lim.PhaseOf(t).host == cfg.host(pc.url)
      && LogOf(s.log, t) != [] && LogOf(s.log, t)[|LogOf(s.log, t)| - 1] == Checked(pc.url)
    else s.lim.PhaseOf(t).Idle?
  }

  ghost predicate TaskInv(s: State, t: Task, cfg: Config) {
    && InLimiter(s, t, cfg)
    && Guarded(LogOf(s.log, t), cfg)
    && (s.PcOf(t).Checking? || s.PcOf(t).Waiting? || s.PcOf(t).Replying? ==> s.PcOf(t).hops > 0)
  }

  ghost predicate Inv(s: State, cfg: Config, rps: string -> RateLimiter.Rate)
  {
    && RateLimiter.Inv(s.lim, rps)
    && forall t :: TaskInv(s, t, cfg)
  }

  /** A limiter step of one coroutine leaves the phases of the others alone. */
  lemma OthersPhases(lim: RateLimiter.State, a: RateLimiter.Action, t: Task, u: Task, rps: string -> RateLimiter.Rate)
    requires u != t
    requires a == RateLimiter.Stamp(t) || a == RateLimiter.Cancel(t)
      || (a.Call? && a.t == t) || (a.TakeLock? && a.t == t) || (a.ReadClock? && a.t == t) || (a.Wake? && a.t == t)
    ensures RateLimiter.Next(lim, a, rps).PhaseOf(u) == lim.PhaseOf(u)
  {
  }

  /** The limiter's inner steps keep every coroutine in, or out of, `acquire` of its host. */
  lemma InnerKeepsHost(lim: RateLimiter.State, a: RateLimiter.Action, t: Task, rps: string -> RateLimiter.Rate)
    requires Inner(a)
    ensures var before, after := lim.PhaseOf(t), RateLimiter.Next(lim, a, rps).PhaseOf(t);
      (before.Idle? <==> after.Idle?) && (!before.Idle? ==> after.host == before.host)
  {
  }

  lemma InnerKeeps(s: State, a: RateLimiter.Action, cfg: Config, rps: string -> RateLimiter.Rate)
    requires Inv(s, cfg, rps) && Inner(a)
    ensures Inv(Next(s, Limit(a), cfg, rps), cfg, rps)
  {
    RateLimiter.QuietKeeps(s.lim, a, rps);
    var s' := Next(s, Limit(a), cfg, rps);
    forall t ensures TaskInv(s', t, cfg) {
      assert TaskInv(s, t, cfg);
      InnerKeepsHost(s.lim, a, t, rps);
      assert s'.PcOf(t) == s.PcOf(t);
    }
  }

  lemma StartKeeps(s: State, t: Task, url: string, cfg: Config, rps: string -> RateLimiter.Rate)
    requires Inv(s, cfg, rps)
    ensures Inv(Next(s, Start(t, url), cfg, rps), cfg, rps)
  {
    var s' := Next(s, Start(t, url), cfg, rps);
    forall u ensures TaskInv(s', u, cfg) {
      assert TaskInv(s, u, cfg);
    }
  }

  lemma HearKeeps(s: State, t: Task, answer: Answer, cfg: Config, rps: string -> RateLimiter.Rate)
    requires Inv(s, cfg, rps)
    ensures Inv(Next(s, Hear(t, answer), cfg, rps), cfg, rps)
  {
    var s' := Next(s, Hear(t, answer), cfg, rps);
    forall u ensures TaskInv(s', u, cfg) {
      assert TaskInv(s, u, cfg);
    }
  }

  lemma AbortKeepsOther(s: State, t: Task, u: Task, cfg: Config, rps: string -> RateLimiter.Rate)
    requires TaskInv(s, u, cfg) && u != t
    ensures TaskInv(Next(s, Abort(t), cfg, rps), u, cfg)
  {
    OthersPhases(s.lim, RateLimiter.Cancel(t), t, u, rps);
  }

  lemma AbortKeepsAborted(s: State, t: Task, cfg: Config, rps: string -> RateLimiter.Rate)
    requires TaskInv(s, t, cfg)
    ensures TaskInv(Next(s, Abort(t), cfg, rps), t, cfg)
  {
    assert RateLimiter.Next(s.lim, RateLimiter.Cancel(t), rps).PhaseOf(t).Idle?;
  }

  lemma AbortKeeps(s: State, t: Task, cfg: Config, rps: string -> RateLimiter.Rate)
    requires Inv(s, cfg, rps)
    ensures Inv(Next(s, Abort(t), cfg, rps), cfg, rps)
  {
    RateLimiter.QuietKeeps(s.lim, RateLimiter.Cancel(t), rps);
    forall u ensures TaskInv(Next(s, Abort(t), cfg, rps), u, cfg) {
      if u == t {
        AbortKeepsAborted(s, t, cfg, rps);
      } else {
        AbortKeepsOther(s, t, u, cfg, rps);
      }
    }
  }

  lemma CheckKeepsChecker(s: State, t: Task, cfg: Config, rps: string -> RateLimiter.Rate)
    requires TaskInv(s, t, cfg) && s.PcOf(t).Checking?
    ensures TaskInv(Next(s, Check(t), cfg, rps), t, cfg)
  {
    var s', url := Next(s, Check(t), cfg, rps), s.PcOf(t).url;
    LogOfOneMore(s.log, Entry(t, Checked(url), s.lim.clock), t);
    GuardedMore(LogOf(s.log, t), Checked(url), cfg);
    if cfg.authorized(url) {
      assert s'.lim.PhaseOf(t) == RateLimiter.Queued(cfg.host(url));
      assert LogOf(s'.log, t) == LogOf(s.log, t) + [Checked(url)];
    }
  }

  lemma CheckKeepsOther(s: State, t: Task, u: Task, cfg: Config, rps: string -> RateLimiter.Rate)
    requires TaskInv(s, u, cfg) && u != t && s.PcOf(t).Checking?
    ensures TaskInv(Next(s, Check(t), cfg, rps), u, cfg)
  {
    var url := s.PcOf(t).url;
    LogOfOneMore(s.log, Entry(t, Checked(url), s.lim.clock), u);
    assert LogOf(s.log, u) + [] == LogOf(s.log, u);
    OthersPhases(s.lim, RateLimiter.Call(t, cfg.host(url)), t, u, rps);
    var s' := Next(s, Check(t), cfg, rps);
    assert s'.PcOf(u) == s.PcOf(u) && s'.lim.PhaseOf(u) == s.lim.PhaseOf(u) && LogOf(s'.log, u) == LogOf(s.log, u);
  }

  lemma CheckKeeps(s: State, t: Task, cfg: Config, rps: string -> RateLimiter.Rate)
    requires Inv(s, cfg, rps)
    ensures Inv(Next(s, Check(t), cfg, rps), cfg, rps)
  {
    if s.PcOf(t).Checking? {
      RateLimiter.QuietKeeps(s.lim, RateLimiter.Call(t, cfg.host(s.PcOf(t).url)), rps);
      forall u ensures TaskInv(Next(s, Check(t), cfg, rps), u, cfg) {
        if u == t {
          CheckKeepsChecker(s, t, cfg, rps);
        } else {
          CheckKeepsOther(s, t, u, cfg, rps);
        }
      }
    }
  }

  /** The grant and the GET complete what the check began: the coroutine's own log stays guarded. */
  lemma GuardedSend(log: seq<Event>, url: string, cfg: Config)
    requires Guarded(log, cfg) && cfg.authorized(url) && log != [] && log[|log| - 1] == Checked(url)
    ensures Guarded(log + [Granted(cfg.host(url))] + [Sent(url)], cfg)
  {
    GuardedMore(log, Granted(cfg.host(url)), cfg);
    GuardedMore(log + [Granted(cfg.host(url))], Sent(url), cfg);
  }

  lemma LogAfterSend(s: State, t: Task, u: Task, cfg: Config, rps: string -> RateLimiter.Rate)
    requires s.PcOf(t).Waiting? && s.lim.PhaseOf(t).Cleared?
    ensures var url, s' := s.PcOf(t).url, Next(s, Send(t), cfg, rps);
      LogOf(s'.log, u) == LogOf(s.log, u) + if u == t then [Granted(cfg.host(url))] + [Sent(url)] else []
  {
    var url, s' := s.PcOf(t).url, Next(s, Send(t), cfg, rps);
    var grant, sent := Entry(t, Granted(cfg.host(url)), s.lim.clock), Entry(t, Sent(url), s.lim.clock);
    assert s'.log == s.log + [grant] + [sent];
    LogOfOneMore(s.log, grant, u);
    LogOfOneMore(s.log + [grant], sent, u);
  }

  lemma SendKeepsSender(s: State, t: Task, cfg: Config, rps: string -> RateLimiter.Rate)
    requires TaskInv(s, t, cfg)
    requires s.PcOf(t).Waiting? && s.lim.PhaseOf(t).Cleared?
    ensures TaskInv(Next(s, Send(t), cfg, rps), t, cfg)
  {
    var s', url := Next(s, Send(t), cfg, rps), s.PcOf(t).url;
    LogAfterSend(s, t, t, cfg, rps);
    GuardedSend(LogOf(s.log, t), url, cfg);
    assert LogOf(s'.log, t) == LogOf(s.log, t) + [Granted(cfg.host(url))] + [Sent(url)];
    assert s'.lim.PhaseOf(t).Idle?;
  }

  lemma SendKeepsOther(s: State, t: Task, u: Task, cfg: Config, rps: string -> RateLimiter.Rate)
    requires TaskInv(s, u, cfg) && u != t
    requires s.PcOf(t).Waiting? && s.lim.PhaseOf(t).Cleared?
    ensures TaskInv(Next(s, Send(t), cfg, rps), u, cfg)
  {
    LogAfterSend(s, t, u, cfg, rps);
    OthersPhases(s.lim, RateLimiter.Stamp(t), t, u, rps);
    assert LogOf(s.log, u) + [] == LogOf(s.log, u);
  }

  lemma SendKeeps(s: State, t: Task, cfg: Config, rps: string -> RateLimiter.Rate)
    requires Inv(s, cfg, rps)
    ensures Inv(Next(s, Send(t), cfg, rps), cfg, rps)
  {
    if s.PcOf(t).Waiting? && s.lim.PhaseOf(t).Cleared? {
      RateLimiter.StampKeeps(s.lim, t, rps);
      forall u ensures TaskInv(Next(s, Send(t), cfg, rps), u, cfg) {
        if u == t {
          SendKeepsSender(s, t, cfg, rps);
        } else {
          SendKeepsOther(s, t, u, cfg, rps);
        }
      }
    }
  }

  lemma NextKeeps(s: State, a: Action, cfg: Config, rps: string -> RateLimiter.Rate)
    requires Inv(s, cfg, rps)
    ensures Inv(Next(s, a, cfg, rps), cfg, rps)
  {
    match a
    case Start(t, url) => StartKeeps(s, t, url, cfg, rps);
    case Check(t) => CheckKeeps(s, t, cfg, rps);
    case Limit(inner) =>
      if Inner(inner) {
        InnerKeeps(s, inner, cfg, rps);
      }
    case Send(t) => SendKeeps(s, t, cfg, rps);
    case Hear(t, answer) => HearKeeps(s, t, answer, cfg, rps);
    case Abort(t) => AbortKeeps(s, t, cfg, rps);
  }

  lemma {:induction false} RunKeeps(actions: seq<Action>, cfg: Config, rps: string -> RateLimiter.Rate)
    ensures Inv(Run(actions, cfg, rps), cfg, rps)
  {
    if actions != [] {
      RunKeeps(actions[..|actions| - 1], cfg, rps);
      NextKeeps(Run(actions[..|actions| - 1], cfg, rps), actions[|actions| - 1], cfg, rps);
    }
  }

  /** In every interleaving each coroutine sends only right after its own check of that URL and its
      own grant for its host. */
  lemma EverySendIsGuarded(actions: seq<Action>, t: Task, cfg: Config, rps: string -> RateLimiter.Rate)
    ensures Guarded(LogOf(Run(actions, cfg, rps).log, t), cfg)
  {
    RunKeeps(actions, cfg, rps);
    assert TaskInv(Run(actions, cfg, rps), t, cfg);
  }

  // ---- adjacent in the coroutine's log, not in the client's ----

  /** One host, everything allowlisted, two coroutines that check before either sends. */
  const CROSSED: seq<Action> := [
    Start(0, "a"), Start(1, "b"), Check(0), Check(1),
    Limit(RateLimiter.TakeLock(0)), Limit(RateLimiter.ReadClock(0)), Send(0)]

  function AllEvents(log: seq<Entry>): seq<Event> {
    seq(|log|, i requires 0 <= i < |log| => log[i].event)
  }

  lemma {:induction false} RunNext(actions: seq<Action>, a: Action, cfg: Config, rps: string -> RateLimiter.Rate)
    ensures Run(actions + [a], cfg, rps) == Next(Run(actions, cfg, rps), a, cfg, rps)
  {
    assert (actions + [a])[..|actions|] == actions;
  }

  lemma CrossedChecks(cfg: Config, rps: string -> RateLimiter.Rate)
    requires (forall u :: cfg.authorized(u)) && (forall u :: cfg.host(u) == "h")
    ensures var s := Run(CROSSED[..4], cfg, rps);
      && s.PcOf(0) == Waiting("a", 6) && s.lim.PhaseOf(0) == RateLimiter.Queued("h")
      && s.lim.owner == map[] && s.lim.last == map[]
      && s.log == [Entry(0, Checked("a"), 0.0), Entry(1, Checked("b"), 0.0)]
  {
    assert CROSSED[..1] == [] + [CROSSED[0]];
    RunNext([], CROSSED[0], cfg, rps);
    assert CROSSED[..2] == CROSSED[..1] + [CROSSED[1]];
    RunNext(CROSSED[..1], CROSSED[1], cfg, rps);
    assert CROSSED[..3] == CROSSED[..2] + [CROSSED[2]];
    RunNext(CROSSED[..2], CROSSED[2], cfg, rps);
    assert CROSSED[..4] == CROSSED[..3] + [CROSSED[3]];
    RunNext(CROSSED[..3], CROSSED[3], cfg, rps);
  }

  /** The client's whole log is not guarded in the adjacent sense: another check can come between. */
  lemma AdjacencyIsPerTask(cfg: Config, rps: string -> RateLimiter.Rate)
    requires (forall u :: cfg.authorized(u)) && (forall u :: cfg.host(u) == "h")
    ensures !Guarded(AllEvents(Run(CROSSED, cfg, rps).log), cfg)
  {
    CrossedChecks(cfg, rps);
    assert CROSSED[..5] == CROSSED[..4] + [CROSSED[4]];
    RunNext(CROSSED[..4], CROSSED[4], cfg, rps);
    assert CROSSED[..6] == CROSSED[..5] + [CROSSED[5]];
    RunNext(CROSSED[..5], CROSSED[5], cfg, rps);
    assert CROSSED == CROSSED[..6] + [CROSSED[6]];
    RunNext(CROSSED[..6], CROSSED[6], cfg, rps);
    var events := AllEvents(Run(CROSSED, cfg, rps).log);
    assert events[3] == Sent("a") && events[1] == Checked("b");
    assert !GuardedAt(events, 3, cfg);
  }
}
