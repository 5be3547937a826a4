// The regeneration loop (crawloop/loop/driver.py): sample, ask the oracle, generate, judge,
// promote or escalate; and its retry with a stronger model.
module Driver {
  import opened Wrappers
  import opened Pages
  import opened PyText
  import opened Values
  import opened Validator
  import opened Gauntlet
  import opened Hybrid
  import opened Llm
  import opened Failures
  import opened Fallback
  import opened LoopCourse
  import Sampler
  import opened Ladder
  import opened Registry

  /** The reason text of an audit entry. */
  function ReasonText(r: LoopReason): string {
    match r
    case Promoted => "promoted"
    case NoSamples => "no samples"
    case InsufficientOracles(got, need) =>
      "insufficient oracles: got " + IntText(got) + ", need " + IntText(need)
    case MaxRoundsExhausted => "max rounds exhausted"
  }

  datatype LoopResult = LoopResult(
    ok: bool, version: Option<int>, rounds: int, escalated: bool, reason: LoopReason)

  /** A loop returns a result, or lets a provider or gate error through. */
  datatype LoopOutcome = Returned(result: LoopResult) | LoopRaised(failure: Failure)

  predicate Won(r: LoopOutcome) {
    r.Returned? && r.result.ok
  }

  /** What a loop is asked to do. */
  datatype Job = Job(
    family: string, schemaRef: string, sc: Schema, seeds: seq<string>, tools: Tools, cfg: Config,
    fixtures: seq<Fixture>)

  /** Model calls one tier may make: repairs for each sample, one map proposal, `k` per round. */
  function TierBudget(cfg: Config): nat {
    (1 + MAX_REPAIRS) * cfg.nSamples + 1 + cfg.k * cfg.maxRounds
  }

  // ---- the steps ----

  /** The oracle step: one extraction per page, pages without one dropped. */
  method AskOracle(c: Completer, tools: Tools, sc: Schema, pages: seq<Page>) returns (asked: Asked)
    modifies c
    ensures asked == AskAll(c.answers, old(c.calls), pages, tools.parseItems, sc)
    ensures c.calls == asked.next
    ensures c.calls <= old(c.calls) + (1 + MAX_REPAIRS) * |pages|
  {
    ghost var start := c.calls;
    asked := Asked(false, [], [], c.calls);
    for i := 0 to |pages|
      invariant c.calls == asked.next <= start + (1 + MAX_REPAIRS) * i
      invariant !asked.raised && asked == AskAll(c.answers, start, pages[..i], tools.parseItems, sc)
    {
      assert pages[..i + 1][..i] == pages[..i];
      var oracle := DirectExtract(c, sc, tools.parseItems, MAX_REPAIRS);
      match oracle {
        case ModelRaised =>
          asked := asked.(raised := true, next := c.calls);
          AskingStops(c.answers, start, pages, i + 1, tools.parseItems, sc);
          return;
        case ExtractionFailed =>
          asked := asked.(next := c.calls);
        case Extracted(items) =>
          asked := Asked(false, asked.samples + [pages[i]], asked.oracles + [items], c.calls);
      }
    }
    assert pages[..|pages|] == pages;
  }

  /** `generate_candidates`: `k` completions, of which the gate-passing code is kept. */
  method GenerateCandidates(c: Completer, codeOf: string -> Option<Source>, k: nat)
    returns (kept: Option<seq<Source>>)
    modifies c
    ensures kept == Kept(c.answers, codeOf, old(c.calls), k)
    ensures c.calls <= old(c.calls) + k && (kept.Some? ==> c.calls == old(c.calls) + k)
  {
    ghost var start := c.calls;
    var sources := [];
    for i := 0 to k
      invariant c.calls == start + i && Kept(c.answers, codeOf, start, i) == Some(sources)
    {
      var completion := c.Complete();
      if completion.ProviderError? {
        KeepingStops(c.answers, codeOf, start, i + 1, k);
        return None;
      }
      sources := sources + Listed(codeOf(completion.text));
    }
    kept := Some(sources);
  }

  /** `_path_map_candidate`: at most one call, and every error means "no candidate". */
  method PathMapCandidate(c: Completer, tools: Tools, samples: seq<Page>, oracles: seq<seq<Record>>)
    returns (source: Option<Source>)
    modifies c
    ensures (source, c.calls) == Proposal(c.answers, old(c.calls), tools, samples, oracles)
    ensures c.calls <= old(c.calls) + 1
  {
    if samples == [] || !tools.hasIsland(samples[0]) {
      return None;
    }
    var answer := c.Complete();
    if answer.ProviderError? {
      return None;
    }
    source := tools.pathMap(answer.text, samples[0], if oracles == [] then [] else oracles[0]);
  }

  /** `_escalate`: audit the reason and mark the family, creating its row if needed. */
  method Escalate(reg: Registry, job: Job, reason: LoopReason, rounds: int) returns (r: LoopOutcome)
    modifies reg`audit, reg`families
    ensures r == Returned(LoopResult(false, None, rounds, true, reason))
    ensures reg.audit == old(reg.audit) + [Note(job.family, reason)]
    ensures reg.families == FamiliesAfter(old(reg.families), job, r)
  {
    reg.WriteAudit(Some(job.family), Escalation(ReasonText(reason)));
    if job.family !in reg.families {
      reg.UpsertFamily(job.family, [], job.schemaRef);
    }
    var found := reg.SetFamilyStatus(job.family, FamilyStatus.Escalated);
    r := Returned(LoopResult(false, None, rounds, true, reason));
  }

  // ---- what a tier does to the registry ----

  /** The versions table and the audit trail: the state promotions act on. */
  datatype State = State(versions: seq<Version>, audit: seq<Audit>)

  ghost function StateOf(reg: Registry): State
    reads reg`versions, reg`audit
  {
    State(reg.versions, reg.audit)
  }

  function Note(family: string, reason: LoopReason): Audit {
    Audit(Some(family), Escalation(ReasonText(reason)))
  }

  /** The number the family's next version gets. */
  function NextN(s: State, family: string): int {
    MaxN(RowsOf(s.versions, family)) + 1
  }

  /** Promotion: append, activate, audit. */
  function AfterPromotion(s: State, family: string, source: Source, residual: seq<string>): State {
    var n := NextN(s, family);
    State(Activated(Added(s.versions, family, source), family, n),
          s.audit + [Audit(Some(family), Promotion(n, residual))])
  }

  /** The families table: a promotion needs a row, an escalation marks it, an error leaves it. */
  function FamiliesAfter(families: map<string, Family>, job: Job, r: LoopOutcome): map<string, Family> {
    var known := job.family in families;
    if r.LoopRaised? || (r.result.ok && known) then families
    else if r.result.ok then families[job.family := Family([], "", Healthy)]
    else families[job.family :=
      if known then families[job.family].(status := FamilyStatus.Escalated)
      else Family([], job.schemaRef, FamilyStatus.Escalated)]
  }

  /** A course carried out: the winner promoted with the residual set of its own outputs (unless
      the registry's gate refuses it), the reason noted, or nothing at all. */
  ghost predicate Carried(
    course: Course, b: Bench, gate: string -> bool, family: string, before: State, after: State, r: LoopOutcome)
    requires |b.samples| == |b.oracles|
  {
    match course
    case Raises(failure) => r == LoopRaised(failure) && after == before
    case Ends(reason, rounds) =>
      && r == Returned(LoopResult(false, None, rounds, true, reason))
      && after == before.(audit := before.audit + [Note(family, reason)])
    case Wins(round, source) =>
      if !gate(source) then r == LoopRaised(GateRefusal) && after == before
      else
        && r == Returned(LoopResult(true, Some(NextN(before, family)), round, false, Promoted))
        && after == AfterPromotion(before, family, source, WinnerResidual(source, b))
  }

  // ---- one tier ----

  /** Carrying a course out is the last thing a tier does. */
  method CarryOut(job: Job, course: Course, b: Bench, reg: Registry) returns (r: LoopOutcome)
    requires |b.samples| == |b.oracles|
    modifies reg`families, reg`versions, reg`audit
    ensures Carried(course, b, reg.gate, job.family, old(StateOf(reg)), StateOf(reg), r)
    ensures reg.families == FamiliesAfter(old(reg.families), job, r)
  {
    match course {
      case Raises(failure) => r := LoopRaised(failure);
      case Ends(reason, rounds) => r := Escalate(reg, job, reason, rounds);
      case Wins(round, source) => r := PromoteWinner(job, b, round, source, reg);
    }
  }

  /** Promotion of the winner, with the residual set of its own outputs. */
  method PromoteWinner(job: Job, b: Bench, round: int, source: Source, reg: Registry) returns (r: LoopOutcome)
    requires |b.samples| == |b.oracles|
    modifies reg`families, reg`versions, reg`audit
    ensures Carried(Wins(round, source), b, reg.gate, job.family, old(StateOf(reg)), StateOf(reg), r)
    ensures reg.families == FamiliesAfter(old(reg.families), job, r)
  {
    var residual := ComputeWinnerResidual(source, b);
    var n := reg.PromoteSource(job.family, source, residual);
    r := if n.None? then LoopRaised(GateRefusal) else Returned(LoopResult(true, n, round, false, Promoted));
  }

  /** `judge` gives what the gauntlet on the bench gives. */
  ghost predicate JudgesOn(judge: Judge, b: Bench, bar: real) {
    forall candidates {:trigger WinnerAmong(candidates, b, bar)} ::
      judge(candidates) == WinnerAmong(candidates, b, bar)
  }

  /** One round: generate, then judge. */
  method PlayRound(job: Job, b: Bench, ghost judge: Judge, deterministic: seq<Source>, round: int, c: Completer)
    returns (end: RoundEnd)
    requires JudgesOn(judge, b, job.cfg.bar)
    modifies c
    ensures end == RoundOf(c.answers, old(c.calls), judge, job.tools.codeOf, job.cfg, deterministic, round)
    ensures c.calls <= old(c.calls) + job.cfg.k
    ensures !end.Broke? ==> c.calls == old(c.calls) + job.cfg.k
  {
    var kept := GenerateCandidates(c, job.tools.codeOf, job.cfg.k);
    if kept.None? {
      return Broke;
    }
    var candidates := if round == 1 then deterministic + kept.value else kept.value;
    var best, all := JudgeCandidates(candidates, b, job.cfg.bar);
    assert judge(candidates) == WinnerAmong(candidates, b, job.cfg.bar);
    end := if best.Some? then RoundEnd.Won(best.value.source) else Lost;
  }

  /** What one round, the one after those lost so far, leaves of the whole. */
  ghost predicate Played(
    whole: Course, end: RoundEnd, answers: Answers, start: nat, judge: Judge, job: Job, deterministic: seq<Source>,
    round: int, next: nat)
  {
    match end
    case Broke => whole == Raises(ProviderFailure)
    case Won(source) => whole == Wins(round, source)
    case Lost => Pending(answers, start, judge, job.tools.codeOf, job.cfg, deterministic, round + 1, next)
  }

  /** A round of the loop decides, or passes the question on. */
  method PlayNext(
    job: Job, b: Bench, ghost judge: Judge, deterministic: seq<Source>, round: int, c: Completer, ghost start: nat)
    returns (end: RoundEnd)
    requires JudgesOn(judge, b, job.cfg.bar) && round <= job.cfg.maxRounds
    requires Pending(c.answers, start, judge, job.tools.codeOf, job.cfg, deterministic, round, c.calls)
    modifies c
    ensures Played(Rounds(c.answers, start, judge, job.tools.codeOf, job.cfg, deterministic, 1), end,
                   c.answers, start, judge, job, deterministic, round, c.calls)
    ensures c.calls <= old(c.calls) + job.cfg.k
  {
    RoundDecides(c.answers, start, judge, job.tools.codeOf, job.cfg, deterministic, round, c.calls);
    end := PlayRound(job, b, judge, deterministic, round, c);
  }

  /** The round loop: until a round has a winner. */
  method PlayRounds(job: Job, b: Bench, ghost judge: Judge, deterministic: seq<Source>, c: Completer)
    returns (course: Course)
    requires JudgesOn(judge, b, job.cfg.bar)
    modifies c
    ensures course == Rounds(c.answers, old(c.calls), judge, job.tools.codeOf, job.cfg, deterministic, 1)
    ensures c.calls <= old(c.calls) + CallsIn(job.cfg.maxRounds, job.cfg.k)
  {
    var k, last := job.cfg.k, job.cfg.maxRounds;
    ghost var start, codeOf, cfg := c.calls, job.tools.codeOf, job.cfg;
    for round := 1 to last + 1
      invariant c.calls <= start + CallsIn(round - 1, k)
      invariant Pending(c.answers, start, judge, codeOf, cfg, deterministic, round, c.calls)
    {
      CallsGrow(round, last, k);
      var end := PlayNext(job, b, judge, deterministic, round, c, start);
      if end.Broke? {
        return Raises(ProviderFailure);
      }
      if end.Won? {
        return Wins(round, end.source);
      }
    }
    RoundDecides(c.answers, start, judge, codeOf, cfg, deterministic, last + 1, c.calls);
    course := Ends(MaxRoundsExhausted, last);
  }

  /** Calls of `rounds` rounds of `k`. */
  function CallsIn(rounds: nat, k: nat): nat {
    if rounds == 0 then 0 else CallsIn(rounds - 1, k) + k
  }

  lemma {:induction false} CallsGrow(done: nat, rounds: nat, k: nat)
    requires done <= rounds
    ensures CallsIn(done, k) <= CallsIn(rounds, k)
  {
    if done < rounds {
      CallsGrow(done, rounds - 1, k);
    }
  }

  lemma {:induction false} CallsAreProduct(rounds: nat, k: nat)
    ensures CallsIn(rounds, k) == k * rounds
  {
    if rounds > 0 {
      CallsAreProduct(rounds - 1, k);
    }
  }

  /** The part of a tier that follows its oracles. */
  method Regenerate(job: Job, asked: Asked, c: Completer) returns (course: Course)
    requires asked.next == c.calls
    modifies c
    ensures course == CourseAfterOracles(c.answers, asked, job.sc, job.tools, job.cfg, job.fixtures)
    ensures c.calls <= old(c.calls) + 1 + job.cfg.k * job.cfg.maxRounds
  {
    var valuePath := job.tools.valuePath(asked.samples, asked.oracles);
    var pathMap := PathMapCandidate(c, job.tools, asked.samples, asked.oracles);
    var b := BenchOf(asked, job.sc, job.tools, job.fixtures);
    course := PlayRounds(job, b, Judging(b, job.cfg.bar), Listed(valuePath) + Listed(pathMap), c);
    CallsAreProduct(job.cfg.maxRounds, job.cfg.k);
  }

  /** The tier up to its last step, on the sampled pages. */
  method FindCourse(job: Job, pages: seq<Page>, c: Completer) returns (course: Course, b: Bench)
    requires |pages| <= job.cfg.nSamples
    modifies c
    ensures course == CourseOf(c.answers, old(c.calls), LoopCourse.Pages(pages), job.sc, job.tools, job.cfg, job.fixtures)
    ensures |b.samples| == |b.oracles|
    ensures course.Wins? ==> b == BenchFrom(job, c.answers, old(c.calls), LoopCourse.Pages(pages))
    ensures c.calls <= old(c.calls) + TierBudget(job.cfg)
  {
    b := BenchOf(Asked(false, [], [], 0), job.sc, job.tools, job.fixtures);
    if pages == [] {
      return Ends(NoSamples, 0), b;
    }
    var asked := AskOracle(c, job.tools, job.sc, pages);
    b := BenchOf(asked, job.sc, job.tools, job.fixtures);
    if asked.raised {
      return Raises(ProviderFailure), b;
    }
    if |asked.oracles| < job.cfg.minOracles {
      return Ends(InsufficientOracles(|asked.oracles|, job.cfg.minOracles), 0), b;
    }
    course := Regenerate(job, asked, c);
  }

  /** The sampled pages are distinct fetched pages reachable from the seeds, at most the requested
      number; sampling raises only for a URL whose fetch does. */
  ghost predicate Sampled(job: Job, sampled: Sampling) {
    match sampled
    case SamplingRaised(failure) => exists u :: job.tools.web.fetch(u) == Sampler.Stops(failure)
    case Pages(pages) =>
      && |pages| <= job.cfg.nSamples
      && (forall i, j :: 0 <= i < j < |pages| ==> pages[i].url != pages[j].url)
      && forall i :: 0 <= i < |pages| ==>
           && job.tools.web.fetch(pages[i].url) == Sampler.Html(pages[i].html)
           && Sampler.Reachable(job.tools.web, job.seeds, pages[i].url)
  }

  function BenchFrom(job: Job, answers: Answers, from: nat, sampled: Sampling): (b: Bench)
    ensures |b.samples| == |b.oracles|
  {
    var asked := if sampled.SamplingRaised? then Asked(false, [], [], from)
                 else AskAll(answers, from, sampled.pages, job.tools.parseItems, job.sc);
    BenchOf(asked, job.sc, job.tools, job.fixtures)
  }

  /** One tier, from its first model call on: where it started, what it saw and what it did. */
  ghost predicate TierRan(
    job: Job, answers: Answers, gate: string -> bool, from: nat, sampled: Sampling,
    before: State, after: State, r: LoopOutcome)
  {
    && Sampled(job, sampled)
    && Carried(CourseOf(answers, from, sampled, job.sc, job.tools, job.cfg, job.fixtures),
               BenchFrom(job, answers, from, sampled), gate, job.family, before, after, r)
  }

  /** The pages a tier samples. */
  method Sample(job: Job) returns (sampled: Sampling)
    ensures Sampled(job, sampled)
  {
    var raised, pages, attempts, tried, ranks, rank, last :=
      Sampler.CollectSamples(job.tools.web, job.seeds, job.cfg.nSamples, MAX_FETCH);
    sampled := if raised.Some? then SamplingRaised(raised.value) else LoopCourse.Pages(pages);
  }

  /** `_run_loop_once`. */
  method RunLoopOnce(job: Job, reg: Registry, c: Completer)
    returns (r: LoopOutcome, ghost sampled: Sampling)
    modifies reg`families, reg`versions, reg`audit, c
    ensures c.calls <= old(c.calls) + TierBudget(job.cfg)
    ensures reg.families == FamiliesAfter(old(reg.families), job, r)
    ensures TierRan(job, c.answers, reg.gate, old(c.calls), sampled, old(StateOf(reg)), StateOf(reg), r)
  {
    var got := Sample(job);
    sampled := got;
    if got.SamplingRaised? {
      return LoopRaised(got.failure), sampled;
    }
    var course, b := FindCourse(job, got.pages, c);
    r := CarryOut(job, course, b, reg);
  }

  // ---- both tiers ----

  /** A tier as it ran. */
  datatype Tier = Tier(from: nat, sampled: Sampling, before: State, after: State, r: LoopOutcome)

  ghost predicate Ran(job: Job, answers: Answers, gate: string -> bool, t: Tier) {
    TierRan(job, answers, gate, t.from, t.sampled, t.before, t.after, t.r)
  }

  /** The stronger model is worth a try: the first tier failed, and not for want of samples. */
  predicate Retries(r: LoopOutcome, model: string) {
    r.Returned? && !r.result.ok && !r.result.reason.NoSamples? && EscalationModel(model).Some?
  }

  /** The outcome of both tiers: the second one's only if it promoted or raised. */
  function Settled(first: LoopOutcome, second: LoopOutcome): LoopOutcome {
    if second.LoopRaised? || second.result.ok then second else first
  }

  /** One tier, or two with nothing in between. */
  ghost predicate Chained(tiers: seq<Tier>, model: string, before: State, after: State, r: LoopOutcome) {
    && 1 <= |tiers| <= 2 && (|tiers| == 2 <==> Retries(tiers[0].r, model))
    && tiers[0].before == before
    && if |tiers| == 1 then after == tiers[0].after && r == tiers[0].r
       else tiers[1].before == tiers[0].after && after == tiers[1].after && r == Settled(tiers[0].r, tiers[1].r)
  }

  /** A whole run: its tiers, chained. */
  ghost predicate IsRun(
    job: Job, model: string, answers: Answers, gate: string -> bool, tiers: seq<Tier>,
    before: State, after: State, r: LoopOutcome)
  {
    && Chained(tiers, model, before, after, r)
    && forall t :: t in tiers ==> Ran(job, answers, gate, t)
  }

  lemma OneTier(job: Job, model: string, answers: Answers, gate: string -> bool, t: Tier)
    requires Ran(job, answers, gate, t) && !Retries(t.r, model)
    ensures IsRun(job, model, answers, gate, [t], t.before, t.after, t.r)
  {
  }

  lemma TwoTiers(job: Job, model: string, answers: Answers, gate: string -> bool, t: Tier, u: Tier)
    requires Ran(job, answers, gate, t) && Retries(t.r, model)
    requires Ran(job, answers, gate, u) && u.before == t.after
    ensures IsRun(job, model, answers, gate, [t, u], t.before, u.after, Settled(t.r, u.r))
  {
  }

  /** A tier, with the record of what it did. */
  method RunTier(job: Job, reg: Registry, c: Completer) returns (r: LoopOutcome, ghost t: Tier)
    modifies reg`families, reg`versions, reg`audit, c
    ensures c.calls <= old(c.calls) + TierBudget(job.cfg)
    ensures reg.families == FamiliesAfter(old(reg.families), job, r)
    ensures Ran(job, c.answers, reg.gate, t)
    ensures t.from == old(c.calls) && t.before == old(StateOf(reg)) && t.after == StateOf(reg) && t.r == r
  {
    ghost var sampled: Sampling;
    ghost var from, before := c.calls, StateOf(reg);
    r, sampled := RunLoopOnce(job, reg, c);
    t := Tier(from, sampled, before, StateOf(reg), r);
  }

  /** `run_loop`: on a failure the model could be blamed for, once more with the stronger model. */
  method RunLoop(job: Job, model: string, reg: Registry, c: Completer)
    returns (r: LoopOutcome, ghost tiers: seq<Tier>)
    modifies reg`families, reg`versions, reg`audit, c
    ensures c.calls <= old(c.calls) + 2 * TierBudget(job.cfg)
    ensures IsRun(job, model, c.answers, reg.gate, tiers, old(StateOf(reg)), StateOf(reg), r)
    ensures tiers[0].from == old(c.calls)
    ensures reg.families == if |tiers| == 1 then FamiliesAfter(old(reg.families), job, r)
      else FamiliesAfter(FamiliesAfter(old(reg.families), job, tiers[0].r), job, tiers[1].r)
  {
    ghost var t: Tier, u: Tier;
    r, t := RunTier(job, reg, c);
    tiers := [t];
    if r.LoopRaised? || r.result.ok || r.result.reason.NoSamples? || EscalationModel(model).None? {
      OneTier(job, model, c.answers, reg.gate, t);
      return;
    }
    var retried: LoopOutcome;
    retried, u := RunTier(job, reg, c);
    tiers := [t, u];
    TwoTiers(job, model, c.answers, reg.gate, t, u);
    if retried.LoopRaised? || retried.result.ok {
      r := retried;
    }
  }

  // ---- what a whole run did ----

  /** Only escalation notes were appended to the audit trail. */
  ghost predicate OnlyNotes(before: State, after: State) {
    && after.versions == before.versions
    && before.audit <= after.audit
    && forall i :: |before.audit| <= i < |after.audit| ==> after.audit[i].event.Escalation?
  }

  /** The tier whose outcome a winning run returns. */
  function LastTier(tiers: seq<Tier>): Tier
    requires tiers != []
  {
    tiers[|tiers| - 1]
  }

  lemma TierNotes(job: Job, answers: Answers, gate: string -> bool, t: Tier)
    requires Ran(job, answers, gate, t) && !Won(t.r)
    ensures OnlyNotes(t.before, t.after)
  {
  }

  /** A run that does not win leaves the versions alone and writes escalation notes only. */
  lemma LosingLeavesLadder(
    job: Job, model: string, answers: Answers, gate: string -> bool, tiers: seq<Tier>,
    before: State, after: State, r: LoopOutcome)
    requires IsRun(job, model, answers, gate, tiers, before, after, r) && !Won(r)
    ensures OnlyNotes(before, after)
    ensures r.Returned? ==> r.result.escalated && r.result.version.None? && |before.audit| < |after.audit|
  {
    TierNotes(job, answers, gate, tiers[0]);
    if |tiers| == 2 {
      TierNotes(job, answers, gate, tiers[1]);
    }
  }

  /** The winner of a tier and the bench it was judged on. */
  function WinnerOf(job: Job, answers: Answers, t: Tier): Course {
    CourseOf(answers, t.from, t.sampled, job.sc, job.tools, job.cfg, job.fixtures)
  }

  lemma WinningTier(job: Job, answers: Answers, gate: string -> bool, t: Tier)
    requires Ran(job, answers, gate, t) && Won(t.r)
    ensures WinnerOf(job, answers, t).Wins?
    ensures var b, source := BenchFrom(job, answers, t.from, t.sampled), WinnerOf(job, answers, t).source;
      && gate(source) && t.r.result.version == Some(NextN(t.before, job.family)) && !t.r.result.escalated
      && ScoreOf(source, b, job.cfg.bar).passed
      && t.after == AfterPromotion(t.before, job.family, source, WinnerResidual(source, b))
  {
    var at := TierWinnerIsJudged(answers, t.from, t.sampled.pages, job.sc, job.tools, job.cfg, job.fixtures);
  }

  /** A run that wins returns its last tier's result, which did not escalate. */
  lemma WinningResult(
    job: Job, model: string, answers: Answers, gate: string -> bool, tiers: seq<Tier>,
    before: State, after: State, r: LoopOutcome)
    requires IsRun(job, model, answers, gate, tiers, before, after, r) && Won(r)
    ensures r == LastTier(tiers).r && !r.result.escalated
  {
    WinsLast(tiers, model, before, after, r);
    WinningTier(job, answers, gate, LastTier(tiers));
  }

  lemma WinsLast(tiers: seq<Tier>, model: string, before: State, after: State, r: LoopOutcome)
    requires Chained(tiers, model, before, after, r) && Won(r)
    ensures r == LastTier(tiers).r
  {
  }

  /** How a course ends in an error: its own, or the gate's on its winner. */
  function ErrorOf(course: Course, gate: string -> bool): Option<Failure> {
    match course
    case Raises(failure) => Some(failure)
    case Wins(_, source) => if gate(source) then None else Some(GateRefusal)
    case Ends(_, _) => None
  }

  lemma TierRaises(job: Job, answers: Answers, gate: string -> bool, t: Tier)
    requires Ran(job, answers, gate, t)
    ensures var error := ErrorOf(WinnerOf(job, answers, t), gate);
      if error.Some? then t.r == LoopRaised(error.value) else t.r.Returned?
  {
  }

  lemma LastDecides(tiers: seq<Tier>, model: string, before: State, after: State, r: LoopOutcome)
    requires Chained(tiers, model, before, after, r)
    ensures LastTier(tiers).r.LoopRaised? ==> r == LastTier(tiers).r
    ensures LastTier(tiers).r.Returned? ==> r.Returned?
  {
  }

  /** A run raises exactly when its last tier does: in sampling or in a model call, or when the
      registry's gate refuses the winner; and with that error. */
  lemma RaisesExactly(
    job: Job, model: string, answers: Answers, gate: string -> bool, tiers: seq<Tier>,
    before: State, after: State, r: LoopOutcome)
    requires IsRun(job, model, answers, gate, tiers, before, after, r)
    ensures var error := ErrorOf(WinnerOf(job, answers, LastTier(tiers)), gate);
      if error.Some? then r == LoopRaised(error.value) else r.Returned?
  {
    LastDecides(tiers, model, before, after, r);
    TierRaises(job, answers, gate, LastTier(tiers));
  }

  /** Promotion appends exactly one version, numbered old max + 1, which is now the only active
      one, is named by the newest audit entry, and decides the residual set served. */
  lemma PromotionIsAtomic(s: State, family: string, source: Source, residual: seq<string>)
    requires Good(s.versions)
    ensures var after, n := AfterPromotion(s, family, source, residual), NextN(s, family);
      && Appended(s.versions, after.versions, family, n)
      && after.audit == s.audit + [Audit(Some(family), Promotion(n, residual))]
      && ActiveResidual(after.versions, after.audit, family) == residual
  {
    PromotedIsServed(s, family, source, residual);
  }

  lemma PromotedIsServed(s: State, family: string, source: Source, residual: seq<string>)
    requires Good(s.versions)
    ensures var after, n := AfterPromotion(s, family, source, residual), NextN(s, family);
      && Appended(s.versions, after.versions, family, n)
      && ActiveResidual(after.versions, after.audit, family) == residual
  {
    PromotionAppends(s.versions, family, source);
    PromotionIsServed(AfterPromotion(s, family, source, residual).versions, s.audit, family,
                      NextN(s, family), residual);
  }

  /** A tier that has a winner judged it on sampled pages, each against its own rows. */
  lemma WinnerIsPaired(job: Job, answers: Answers, t: Tier) returns (at: seq<nat>)
    requires WinnerOf(job, answers, t).Wins?
    ensures t.sampled.Pages?
    ensures var b := BenchFrom(job, answers, t.from, t.sampled);
      Paired(b.samples, b.oracles, t.sampled.pages, at, |t.sampled.pages|,
             EachGives(answers, t.from, job.tools.parseItems, job.sc))
  {
    at := TierWinnerIsJudged(answers, t.from, t.sampled.pages, job.sc, job.tools, job.cfg, job.fixtures);
  }

  /** A winning run appended exactly one version, judged on pages each against its own rows; before its promotion entry it wrote only notes. */
  lemma WinAppendsOne(
    job: Job, model: string, answers: Answers, gate: string -> bool, tiers: seq<Tier>,
    before: State, after: State, r: LoopOutcome) returns (at: seq<nat>)
    requires IsRun(job, model, answers, gate, tiers, before, after, r)
    requires Won(r) && Good(before.versions)
    ensures WinnerOf(job, answers, LastTier(tiers)).Wins?
    ensures var t := LastTier(tiers);
      && t.sampled.Pages? && Paired(
           BenchFrom(job, answers, t.from, t.sampled).samples, BenchFrom(job, answers, t.from, t.sampled).oracles,
           t.sampled.pages, at, |t.sampled.pages|, EachGives(answers, t.from, job.tools.parseItems, job.sc))
    ensures var t := LastTier(tiers);
      var b, source := BenchFrom(job, answers, t.from, t.sampled), WinnerOf(job, answers, t).source;
      var residual := WinnerResidual(source, b);
      && gate(source) && ScoreOf(source, b, job.cfg.bar).passed
      && r.result.version.Some? && Appended(before.versions, after.versions, job.family, r.result.version.value)
      && OnlyNotes(before, t.before)
      && after.audit == t.before.audit + [Audit(Some(job.family), Promotion(r.result.version.value, residual))]
      && ActiveResidual(after.versions, after.audit, job.family) == residual
  {
    var t := LastTier(tiers);
    if |tiers| == 2 {
      TierNotes(job, answers, gate, tiers[0]);
    }
    WinningTier(job, answers, gate, t);
    at := WinnerIsPaired(job, answers, t);
    var b, source := BenchFrom(job, answers, t.from, t.sampled), WinnerOf(job, answers, t).source;
    PromotionIsAtomic(t.before, job.family, source, WinnerResidual(source, b));
  }

  // ---- every reachable registry ----

  /** What can happen to the promoted state of a registry. */
  datatype Happening =
    | Win(family: string, winner: Source, bench: Bench)
    | Noted(entry: Audit)
    | Operate(op: Op)

  /** Promotions are those of a loop at the 0.98 bar over a schema of at most `maxFields` fields. */
  ghost predicate Allowed(h: Happening, maxFields: nat) {
    match h
    case Win(_, winner, b) =>
      && |b.samples| == |b.oracles| && ValidSchema(b.sc) && |b.sc.fields| <= maxFields
      && ScoreOf(winner, b, AGREEMENT_BAR).passed
    case Noted(entry) => !entry.event.Promotion?
    case Operate(op) => true
  }

  ghost function Happen(s: State, h: Happening, maxFields: nat): State
    requires Allowed(h, maxFields)
  {
    match h
    case Win(family, winner, b) => AfterPromotion(s, family, winner, WinnerResidual(winner, b))
    case Noted(entry) => s.(audit := s.audit + [entry])
    case Operate(op) => s.(versions := Step(s.versions, op))
  }

  ghost predicate AllAllowed(hs: seq<Happening>, maxFields: nat) {
    forall i :: 0 <= i < |hs| ==> Allowed(hs[i], maxFields)
  }

  ghost function Reach(hs: seq<Happening>, maxFields: nat): State
    requires AllAllowed(hs, maxFields)
  {
    if hs == [] then State([], [])
    else Happen(Reach(hs[..|hs| - 1], maxFields), hs[|hs| - 1], maxFields)
  }

  ghost predicate NothingPersisted(audit: seq<Audit>) {
    forall i :: 0 <= i < |audit| && audit[i].event.Promotion? ==> audit[i].event.residual == []
  }

  lemma {:induction false} NewestIsPersisted(audit: seq<Audit>, family: string, n: int)
    requires NothingPersisted(audit)
    ensures var e := NewestPromotion(audit, family, n);
      e.Some? ==> e.value.Promotion? && e.value.residual == []
  {
    if audit != [] {
      NewestIsPersisted(audit[..|audit| - 1], family, n);
    }
  }

  /** Schemas of at most 49 fields, judged at the 0.98 bar. */
  ghost predicate Narrow(job: Job) {
    ValidSchema(job.sc) && |job.sc.fields| <= 49 && job.cfg.bar == AGREEMENT_BAR
  }

  lemma TierKeepsClean(job: Job, answers: Answers, gate: string -> bool, t: Tier)
    requires Narrow(job) && Ran(job, answers, gate, t) && NothingPersisted(t.before.audit)
    ensures NothingPersisted(t.after.audit)
  {
    if Won(t.r) {
      WinningTier(job, answers, gate, t);
      ResidualEmpty(WinnerOf(job, answers, t).source, BenchFrom(job, answers, t.from, t.sampled));
    }
  }

  /** Over such schemas no whole run of the loop, however it ends, records a residual field. */
  lemma RunKeepsClean(
    job: Job, model: string, answers: Answers, gate: string -> bool, tiers: seq<Tier>,
    before: State, after: State, r: LoopOutcome)
    requires Narrow(job) && IsRun(job, model, answers, gate, tiers, before, after, r)
    requires NothingPersisted(before.audit)
    ensures NothingPersisted(after.audit)
  {
    TierKeepsClean(job, answers, gate, tiers[0]);
    if |tiers| == 2 {
      TierKeepsClean(job, answers, gate, tiers[1]);
    }
  }

  /** Then no family has a residual set, whatever its versions. */
  lemma CleanMeansNoResidual(s: State, family: string)
    requires NothingPersisted(s.audit)
    ensures ActiveResidual(s.versions, s.audit, family) == []
  {
    var active := ActiveN(RowsOf(s.versions, family));
    if active.Some? {
      NewestIsPersisted(s.audit, family, active.value);
    }
  }

  lemma {:induction false} ReachableIsClean(hs: seq<Happening>, maxFields: nat)
    requires AllAllowed(hs, maxFields) && maxFields <= 49
    ensures NothingPersisted(Reach(hs, maxFields).audit)
  {
    if hs != [] {
      var h := hs[|hs| - 1];
      ReachableIsClean(hs[..|hs| - 1], maxFields);
      if h.Win? {
        ResidualEmpty(h.winner, h.bench);
      }
    }
  }

  /** In every registry that promotions at the 0.98 bar over at most 49 fields, escalations,
      activations, rollbacks and recorded runs can produce, no family has a residual set. */
  lemma ReachableHasNoResidual(hs: seq<Happening>, maxFields: nat, family: string)
    requires AllAllowed(hs, maxFields) && maxFields <= 49
    ensures var s := Reach(hs, maxFields); ActiveResidual(s.versions, s.audit, family) == []
  {
    ReachableIsClean(hs, maxFields);
    CleanMeansNoResidual(Reach(hs, maxFields), family);
  }

  /** From 50 fields on a single promotion can leave one: the bound on the schema is exact. */
  lemma FiftyFieldsCanLeaveAResidual(maxFields: nat, family: string) returns (hs: seq<Happening>)
    requires maxFields >= 50
    ensures AllAllowed(hs, maxFields)
    ensures var s := Reach(hs, maxFields); ActiveResidual(s.versions, s.audit, family) != []
  {
    var b := BlankBench(50);
    EdgeIsSharp(50);
    hs := [Win(family, "s", b)];
    EmptyTableGood();
    assert hs[..0] == [];
    assert Reach(hs, maxFields) == AfterPromotion(State([], []), family, "s", WinnerResidual("s", b));
    PromotionAppends([], family, "s");
    PromotionIsServed(Reach(hs, maxFields).versions, [], family, NextN(State([], []), family),
                      WinnerResidual("s", b));
  }

  /** A tier's win is such a promotion, so the theorem above covers it. */
  lemma WinIsAllowed(job: Job, answers: Answers, gate: string -> bool, t: Tier, maxFields: nat)
    returns (h: Happening)
    requires Ran(job, answers, gate, t) && Won(t.r)
    requires ValidSchema(job.sc) && |job.sc.fields| <= maxFields && job.cfg.bar == AGREEMENT_BAR
    ensures h.Win? && Allowed(h, maxFields) && t.after == Happen(t.before, h, maxFields)
  {
    WinningTier(job, answers, gate, t);
    h := Win(job.family, WinnerOf(job, answers, t).source, BenchFrom(job, answers, t.from, t.sampled));
  }
}
