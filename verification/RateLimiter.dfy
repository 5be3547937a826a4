// The per-host minimum-interval gate (crawloop/access.py, RateLimiter.acquire) under every
// interleaving of coroutines. Each atomic stretch between two awaits is one step; the clock
// never goes back, a coroutine asleep for d wakes once at least d has passed, and a cancelled
// one leaves the lock without a grant.
module RateLimiter {
  import opened Wrappers

  type Host = string
  type Task = nat

  /** Where a coroutine is inside `acquire`. */
  datatype Phase =
    | Idle
    | Queued(host: Host)
    | Locked(host: Host)
    | Sleeping(host: Host, until: real)
    | Cleared(host: Host)

  datatype Grant = Grant(host: Host, time: real)

  datatype State = State(
    clock: real, owner: map<Host, Task>, last: map<Host, real>, phases: map<Task, Phase>, grants: seq<Grant>)
  {
    function PhaseOf(t: Task): Phase {
      if t in phases then phases[t] else Idle
    }
  }

  datatype Action =
    | Tick(d: real)
    | Call(t: Task, host: Host)
    | TakeLock(t: Task)
    | ReadClock(t: Task)
    | Wake(t: Task)
    | Stamp(t: Task)
    | Cancel(t: Task)

  /** A configured rate is positive: the constructor refuses others. */
  type Rate = r: real | r > 0.0 witness 1.0

  function Interval(rps: Host -> Rate, h: Host): real {
    1.0 / rps(h)
  }

  /** One step; an action that is not enabled leaves the state alone. */
  ghost function Next(s: State, a: Action, rps: Host -> Rate): State
  {
    match a
    case Tick(d) => if d >= 0.0 then s.(clock := s.clock + d) else s
    case Call(t, h) => if s.PhaseOf(t).Idle? then s.(phases := s.phases[t := Queued(h)]) else s
    case TakeLock(t) =>
      var p := s.PhaseOf(t);
      if p.Queued? && p.host !in s.owner then
        s.(owner := s.owner[p.host := t], phases := s.phases[t := Locked(p.host)])
      else s
    case ReadClock(t) =>
      var p := s.PhaseOf(t);
      if !p.Locked? then s
      else if p.host !in s.last then s.(phases := s.phases[t := Cleared(p.host)])
      else
        var wait := Interval(rps, p.host) - (s.clock - s.last[p.host]);
        s.(phases := s.phases[t := if wait > 0.0 then Sleeping(p.host, s.clock + wait) else Cleared(p.host)])
    case Wake(t) =>
      var p := s.PhaseOf(t);
      if p.Sleeping? && s.clock >= p.until then s.(phases := s.phases[t := Cleared(p.host)]) else s
    case Stamp(t) =>
      var p := s.PhaseOf(t);
      if p.Cleared? then
        State(s.clock, s.owner - {p.host}, s.last[p.host := s.clock], s.phases[t := Idle],
              s.grants + [Grant(p.host, s.clock)])
      else s
    case Cancel(t) =>
      var p := s.PhaseOf(t);
      if p.Idle? then s
      else s.(phases := s.phases[t := Idle], owner := if p.Queued? then s.owner else s.owner - {p.host})
  }

  ghost function Run(s: State, actions: seq<Action>, rps: Host -> Rate): State
  {
    if actions == [] then s
    else Next(Run(s, actions[..|actions| - 1], rps), actions[|actions| - 1], rps)
  }

  /** The times at which `h` was granted, in order. */
  function Times(grants: seq<Grant>, h: Host): seq<real> {
    if grants == [] then []
    else
      var g := grants[|grants| - 1];
      Times(grants[..|grants| - 1], h) + if g.host == h then [g.time] else []
  }

  /** Successive times are at least `gap` apart. */
  ghost predicate Spaced(ts: seq<real>, gap: real) {
    forall i :: 0 <= i < |ts| - 1 ==> ts[i + 1] - ts[i] >= gap
  }

  /** A coroutine past the lock owns its host. */
  predicate Inside(p: Phase, h: Host) {
    (p.Locked? || p.Sleeping? || p.Cleared?) && p.host == h
  }

  ghost predicate OwnersInside(s: State) {
    forall t, h :: Inside(s.PhaseOf(t), h) <==> h in s.owner && s.owner[h] == t
  }

  /** Whoever sleeps, sleeps past the interval; whoever is cleared, has waited it out. */
  ghost predicate WaitsLongEnough(s: State, rps: Host -> Rate)
  {
    forall t :: var p := s.PhaseOf(t);
      && (p.Sleeping? && p.host in s.last ==> p.until >= s.last[p.host] + Interval(rps, p.host))
      && (p.Cleared? && p.host in s.last ==> s.clock >= s.last[p.host] + Interval(rps, p.host))
  }

  /** The recorded timestamp is that of the host's latest grant, and it is past. */
  ghost predicate LastIsLatest(s: State, h: Host) {
    var ts := Times(s.grants, h);
    && (h in s.last <==> ts != [])
    && (h in s.last ==> s.last[h] == ts[|ts| - 1] <= s.clock)
  }

  ghost predicate Inv(s: State, rps: Host -> Rate)
  {
    && OwnersInside(s)
    && WaitsLongEnough(s, rps)
    && forall h :: LastIsLatest(s, h) && Spaced(Times(s.grants, h), Interval(rps, h))
  }

  lemma TimesOfNewGrant(grants: seq<Grant>, g: Grant, h: Host)
    ensures Times(grants + [g], h) == Times(grants, h) + if g.host == h then [g.time] else []
  {
    assert (grants + [g])[..|grants|] == grants;
  }

  /** The lock is exclusive: at most one coroutine is inside a host. */
  lemma OneInside(s: State, t: Task, u: Task, h: Host)
    requires OwnersInside(s) && Inside(s.PhaseOf(t), h) && Inside(s.PhaseOf(u), h)
    ensures t == u
  {
    assert s.owner[h] == t && s.owner[h] == u;
  }

  lemma StampOwners(s: State, t: Task, rps: Host -> Rate)
    requires OwnersInside(s) && s.PhaseOf(t).Cleared?
    ensures OwnersInside(Next(s, Stamp(t), rps))
  {
    var h := s.PhaseOf(t).host;
    var s' := Next(s, Stamp(t), rps);
    forall u, g ensures Inside(s'.PhaseOf(u), g) <==> g in s'.owner && s'.owner[g] == u {
      assert Inside(s.PhaseOf(u), g) <==> g in s.owner && s.owner[g] == u;
      if u != t && g == h && Inside(s.PhaseOf(u), h) {
        OneInside(s, t, u, h);
      }
    }
  }

  /** Nobody else is inside the host just stamped, so nobody's wait is cut short. */
  lemma StampWaits(s: State, t: Task, rps: Host -> Rate)
    requires OwnersInside(s) && WaitsLongEnough(s, rps) && s.PhaseOf(t).Cleared?
    ensures WaitsLongEnough(Next(s, Stamp(t), rps), rps)
  {
    var h := s.PhaseOf(t).host;
    var s' := Next(s, Stamp(t), rps);
    forall u ensures var p := s'.PhaseOf(u);
      && (p.Sleeping? && p.host in s'.last ==> p.until >= s'.last[p.host] + Interval(rps, p.host))
      && (p.Cleared? && p.host in s'.last ==> s'.clock >= s'.last[p.host] + Interval(rps, p.host))
    {
      var p := s.PhaseOf(u);
      if u != t && Inside(p, h) {
        OneInside(s, t, u, h);
      }
    }
  }

  lemma StampGrants(s: State, t: Task, rps: Host -> Rate, g: Host)
    requires WaitsLongEnough(s, rps) && s.PhaseOf(t).Cleared?
    requires LastIsLatest(s, g) && Spaced(Times(s.grants, g), Interval(rps, g))
    ensures var s' := Next(s, Stamp(t), rps);
      LastIsLatest(s', g) && Spaced(Times(s'.grants, g), Interval(rps, g))
  {
    var h := s.PhaseOf(t).host;
    TimesOfNewGrant(s.grants, Grant(h, s.clock), g);
    if g == h {
      SpacedWithOneMore(Times(s.grants, h), s.clock, Interval(rps, h));
    }
  }

  lemma SpacedWithOneMore(ts: seq<real>, time: real, gap: real)
    requires Spaced(ts, gap) && (ts != [] ==> time >= ts[|ts| - 1] + gap)
    ensures Spaced(ts + [time], gap)
  {
    var more := ts + [time];
    forall i | 0 <= i < |more| - 1 ensures more[i + 1] - more[i] >= gap {
      if i < |ts| - 1 {
        assert ts[i + 1] - ts[i] >= gap;
      }
    }
  }

  lemma StampKeeps(s: State, t: Task, rps: Host -> Rate)
    requires Inv(s, rps) && s.PhaseOf(t).Cleared?
    ensures Inv(Next(s, Stamp(t), rps), rps)
  {
    StampOwners(s, t, rps);
    StampWaits(s, t, rps);
    forall g ensures var s' := Next(s, Stamp(t), rps);
      LastIsLatest(s', g) && Spaced(Times(s'.grants, g), Interval(rps, g))
    {
      StampGrants(s, t, rps, g);
    }
  }

  lemma QuietOwners(s: State, a: Action, rps: Host -> Rate)
    requires OwnersInside(s) && !a.Stamp?
    ensures OwnersInside(Next(s, a, rps))
  {
    var s' := Next(s, a, rps);
    forall u, g ensures Inside(s'.PhaseOf(u), g) <==> g in s'.owner && s'.owner[g] == u {
      assert Inside(s.PhaseOf(u), g) <==> g in s.owner && s.owner[g] == u;
      if a.Cancel? && Inside(s.PhaseOf(a.t), g) && Inside(s.PhaseOf(u), g) {
        OneInside(s, a.t, u, g);
      }
    }
  }

  lemma QuietGrants(s: State, a: Action, rps: Host -> Rate, h: Host)
    requires !a.Stamp? && LastIsLatest(s, h)
    ensures LastIsLatest(Next(s, a, rps), h) && Next(s, a, rps).grants == s.grants
  {
  }

  lemma QuietKeeps(s: State, a: Action, rps: Host -> Rate)
    requires Inv(s, rps) && !a.Stamp?
    ensures Inv(Next(s, a, rps), rps)
  {
    QuietOwners(s, a, rps);
    QuietWaits(s, a, rps);
    forall h ensures var s' := Next(s, a, rps);
      LastIsLatest(s', h) && Spaced(Times(s'.grants, h), Interval(rps, h))
    {
      QuietGrants(s, a, rps, h);
    }
  }

  lemma QuietWaits(s: State, a: Action, rps: Host -> Rate)
    requires WaitsLongEnough(s, rps) && !a.Stamp?
    ensures WaitsLongEnough(Next(s, a, rps), rps)
  {
    var s' := Next(s, a, rps);
    forall t ensures var p := s'.PhaseOf(t);
      && (p.Sleeping? && p.host in s'.last ==> p.until >= s'.last[p.host] + Interval(rps, p.host))
      && (p.Cleared? && p.host in s'.last ==> s'.clock >= s'.last[p.host] + Interval(rps, p.host))
    {
      var before := s.PhaseOf(t);
    }
  }

  lemma {:induction false} RunKeeps(s: State, actions: seq<Action>, rps: Host -> Rate)
    requires Inv(s, rps)
    ensures Inv(Run(s, actions, rps), rps)
  {
    if actions != [] {
      var n := |actions| - 1;
      RunKeeps(s, actions[..n], rps);
      var before := Run(s, actions[..n], rps);
      if actions[n].Stamp? && before.PhaseOf(actions[n].t).Cleared? {
        StampKeeps(before, actions[n].t, rps);
      } else if !actions[n].Stamp? {
        QuietKeeps(before, actions[n], rps);
      }
    }
  }

  const START: State := State(0.0, map[], map[], map[], [])

  /** In every interleaving, grants for one host are at least 1 / max_rps apart. */
  lemma GrantsSpaced(actions: seq<Action>, rps: Host -> Rate, h: Host)
    ensures Spaced(Times(Run(START, actions, rps).grants, h), Interval(rps, h))
  {
    RunKeeps(START, actions, rps);
  }

  // ---- windows ----

  function CountWithin(ts: seq<real>, lo: real, hi: real): nat {
    if ts == [] then 0
    else CountWithin(ts[..|ts| - 1], lo, hi) + if lo <= ts[|ts| - 1] <= hi then 1 else 0
  }

  lemma {:induction false} SpacedFrom(ts: seq<real>, gap: real, j: nat)
    requires Spaced(ts, gap) && gap > 0.0 && j < |ts| - 1
    ensures ts[|ts| - 1] - ts[j] >= gap
  {
    var n := |ts| - 1;
    if j < n - 1 {
      SpacedFrom(ts[..n], gap, j);
      assert ts[n - 1 + 1] - ts[n - 1] >= gap;
    } else {
      assert ts[j + 1] - ts[j] >= gap;
    }
  }

  /** `n` intervals. */
  function Gaps(n: nat, gap: real): real {
    if n == 0 then 0.0 else Gaps(n - 1, gap) + gap
  }

  /** The times counted in a window span at least (count - 1) gaps of it. */
  lemma {:induction false} CountSpans(ts: seq<real>, gap: real, lo: real, hi: real)
    returns (i: nat, j: nat)
    requires Spaced(ts, gap) && gap > 0.0 && CountWithin(ts, lo, hi) > 0
    ensures i < |ts| && j < |ts| && lo <= ts[i] && ts[j] <= hi
    ensures ts[j] - ts[i] >= Gaps(CountWithin(ts, lo, hi) - 1, gap)
  {
    var n := |ts| - 1;
    if CountWithin(ts[..n], lo, hi) == 0 {
      i, j := n, n;
    } else {
      i, j := CountSpans(ts[..n], gap, lo, hi);
      if lo <= ts[n] <= hi {
        SpacedFrom(ts, gap, j);
        j := n;
      }
    }
  }

  lemma IntervalTimesRate(r: real)
    requires r > 0.0
    ensures 1.0 / r > 0.0 && (1.0 / r) * r == 1.0
  {
  }

  lemma AddGap(a: real, gap: real, r: real, c: nat)
    requires gap * r == 1.0 && a * r == c as real
    ensures (a + gap) * r == (c + 1) as real
  {
    assert (a + gap) * r == a * r + gap * r;
  }

  lemma {:induction false} GapsTimesRate(n: nat, r: real)
    requires r > 0.0
    ensures Gaps(n, 1.0 / r) * r == n as real
  {
    if n > 0 {
      GapsTimesRate(n - 1, r);
      IntervalTimesRate(r);
      AddGap(Gaps(n - 1, 1.0 / r), 1.0 / r, r, n - 1);
    }
  }

  lemma Monotone(x: real, y: real, r: real)
    requires x <= y && r > 0.0
    ensures x * r <= y * r
  {
    assert (y - x) * r >= 0.0;
  }

  /** Any window of length `length` holds at most floor(length * max_rps) + 1 grants. */
  lemma WindowBound(actions: seq<Action>, rps: Host -> Rate, h: Host, lo: real, length: real)
    requires length >= 0.0
    ensures CountWithin(Times(Run(START, actions, rps).grants, h), lo, lo + length)
      <= (length * rps(h)).Floor + 1
  {
    GrantsSpaced(actions, rps, h);
    WindowOfSpaced(Times(Run(START, actions, rps).grants, h), rps(h), lo, length);
  }

  lemma WindowOfSpaced(ts: seq<real>, r: real, lo: real, length: real)
    requires r > 0.0 && length >= 0.0 && Spaced(ts, 1.0 / r)
    ensures CountWithin(ts, lo, lo + length) <= (length * r).Floor + 1
  {
    var c := CountWithin(ts, lo, lo + length);
    IntervalTimesRate(r);
    if c > 0 {
      var i, j := CountSpans(ts, 1.0 / r, lo, lo + length);
      GapsInLength(c - 1, r, length);
    } else {
      GapsInLength(0, r, length);
    }
  }

  lemma GapsInLength(n: nat, r: real, length: real)
    requires r > 0.0 && Gaps(n, 1.0 / r) <= length
    ensures n <= (length * r).Floor
  {
    GapsTimesRate(n, r);
    Monotone(Gaps(n, 1.0 / r), length, r);
    FloorAtLeast(length * r, n);
  }

  lemma FloorAtLeast(x: real, n: nat)
    requires n as real <= x
    ensures n <= x.Floor
  {
  }

  // ---- hosts are independent ----

  /** The host an action concerns. */
  function HostOf(s: State, a: Action): Option<Host> {
    match a
    case Tick(_) => None
    case Call(_, h) => Some(h)
    case TakeLock(t) => HostOfPhase(s.PhaseOf(t))
    case ReadClock(t) => HostOfPhase(s.PhaseOf(t))
    case Wake(t) => HostOfPhase(s.PhaseOf(t))
    case Stamp(t) => HostOfPhase(s.PhaseOf(t))
    case Cancel(t) => HostOfPhase(s.PhaseOf(t))
  }

  function HostOfPhase(p: Phase): Option<Host> {
    if p.Idle? then None else Some(p.host)
  }

  /** A step for one host changes nothing another host's limiter holds. */
  lemma StepsAreLocal(s: State, a: Action, rps: Host -> Rate, g: Host)
    requires HostOf(s, a) != Some(g)
    ensures var s' := Next(s, a, rps);
      && (g in s'.last <==> g in s.last) && (g in s.last ==> s'.last[g] == s.last[g])
      && (g in s'.owner <==> g in s.owner) && (g in s.owner ==> s'.owner[g] == s.owner[g])
      && Times(s'.grants, g) == Times(s.grants, g)
  {
    if a.Stamp? && s.PhaseOf(a.t).Cleared? {
      TimesOfNewGrant(s.grants, Grant(s.PhaseOf(a.t).host, s.clock), g);
    }
  }
}
