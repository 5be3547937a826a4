// What one tier of the regeneration loop (crawloop/loop/driver.py) does, as a function of the
// sampled pages and the model's answers. Foreign code (fetching, parsing a model's answer,
// emitting a candidate, the sandbox) is a record of functions.
module LoopCourse {
  import opened Wrappers
  import opened Pages
  import opened Values
  import opened Validator
  import opened Validation
  import opened Gauntlet
  import opened Llm
  import opened Failures
  import opened Fallback
  import Sampler

  datatype Tools = Tools(
    web: Sampler.Web,
    parseItems: ItemParser,
    codeOf: string -> Option<Source>,
    valuePath: (seq<Page>, seq<seq<Record>>) -> Option<Source>,
    hasIsland: Page -> bool,
    pathMap: (string, Page, seq<Record>) -> Option<Source>,
    run: Sandbox)

  datatype Config = Config(k: nat, maxRounds: nat, nSamples: nat, minOracles: nat, bar: real)

  const MAX_FETCH: int := 12
  const MAX_REPAIRS: nat := 1

  type Answers = nat -> Completion

  // ---- the oracle ----

  /** The pages an oracle was found for, their oracles, and the number of the next answer. */
  datatype Asked = Asked(raised: bool, samples: seq<Page>, oracles: seq<seq<Record>>, next: nat)

  /** The oracle step on `pages`, with answers from number `from` on. */
  function AskAll(answers: Answers, from: nat, pages: seq<Page>, parse: ItemParser, sc: Schema): (r: Asked)
    ensures |r.samples| == |r.oracles| <= |pages|
  {
    if pages == [] then Asked(false, [], [], from)
    else
      var before := AskAll(answers, from, pages[..|pages| - 1], parse, sc);
      if before.raised then before
      else
        var (got, next) := FirstUsable(answers, before.next, 1 + MAX_REPAIRS, parse, sc);
        match got
        case ModelRaised => Asked(true, before.samples, before.oracles, next)
        case ExtractionFailed => before.(next := next)
        case Extracted(items) =>
          Asked(false, before.samples + [pages[|pages| - 1]], before.oracles + [items], next)
  }

  /** Where in `pages` each sample comes from. */
  ghost predicate Picked(samples: seq<Page>, pages: seq<Page>, at: seq<nat>) {
    && |at| == |samples|
    && (forall i :: 0 <= i < |at| ==> at[i] < |pages| && samples[i] == pages[at[i]])
    && (forall i, j :: 0 <= i < j < |at| ==> at[i] < at[j])
  }

  /** The usable samples are a sub-list of the pages, in page order, each oracle is accepted by
      the schema, and a page costs at most the first attempt and its repairs. */
  lemma {:induction false} OraclesAreAccepted(
    answers: Answers, from: nat, pages: seq<Page>, parse: ItemParser, sc: Schema) returns (at: seq<nat>)
    ensures var r := AskAll(answers, from, pages, parse, sc);
      && Picked(r.samples, pages, at)
      && (forall i :: 0 <= i < |r.oracles| ==> Accepted(r.oracles[i], sc))
      && from <= r.next <= from + (1 + MAX_REPAIRS) * |pages|
  {
    at := [];
    if pages != [] {
      var n := |pages| - 1;
      at := OraclesAreAccepted(answers, from, pages[..n], parse, sc);
      var before := AskAll(answers, from, pages[..n], parse, sc);
      if !before.raised {
        FirstUsableIsFirst(answers, before.next, 1 + MAX_REPAIRS, parse, sc);
        if FirstUsable(answers, before.next, 1 + MAX_REPAIRS, parse, sc).0.Extracted? {
          at := at + [n];
        }
      }
    }
  }

  /** The number of the first answer page `j` is asked for, when all the pages before it were asked. */
  ghost function AskMoment(answers: Answers, from: nat, j: nat, parse: ItemParser, sc: Schema): nat {
    if j == 0 then from
    else FirstUsable(answers, AskMoment(answers, from, j - 1, parse, sc), 1 + MAX_REPAIRS, parse, sc).1
  }

  /** What page `j`'s own attempts come to. */
  ghost function PageGives(answers: Answers, from: nat, j: nat, parse: ItemParser, sc: Schema): Extraction {
    FirstUsable(answers, AskMoment(answers, from, j, parse, sc), 1 + MAX_REPAIRS, parse, sc).0
  }

  ghost function EachGives(answers: Answers, from: nat, parse: ItemParser, sc: Schema): nat -> Extraction {
    (j: nat) => PageGives(answers, from, j, parse, sc)
  }

  /** Of the first `n` pages none raised; those whose own attempts gave rows are the samples, in page
      order, each with those rows as its oracle. */
  ghost predicate Paired(
    samples: seq<Page>, oracles: seq<seq<Record>>, pages: seq<Page>, at: seq<nat>, n: nat, gives: nat -> Extraction)
  {
    && Picked(samples, pages, at) && |oracles| == |samples|
    && (forall j: nat :: j < n ==> !gives(j).ModelRaised?)
    && (forall j: nat :: j in at <==> j < n && gives(j).Extracted?)
    && (forall i :: 0 <= i < |oracles| ==> gives(at[i]) == Extracted(oracles[i]))
  }

  lemma PairedNext(
    samples: seq<Page>, oracles: seq<seq<Record>>, pages: seq<Page>, at: seq<nat>, page: Page, gives: nat -> Extraction)
    requires Paired(samples, oracles, pages, at, |pages|, gives) && gives(|pages|).Extracted?
    ensures Paired(samples + [page], oracles + [gives(|pages|).items], pages + [page], at + [|pages|], |pages| + 1, gives)
  {
    var after := at + [|pages|];
    assert forall i :: 0 <= i < |at| ==> at[i] in at;
    assert forall j: nat :: j in after <==> j in at || j == |pages|;
  }

  lemma PairedDropped(
    samples: seq<Page>, oracles: seq<seq<Record>>, pages: seq<Page>, at: seq<nat>, page: Page, gives: nat -> Extraction)
    requires Paired(samples, oracles, pages, at, |pages|, gives) && gives(|pages|).ExtractionFailed?
    ensures Paired(samples, oracles, pages + [page], at, |pages| + 1, gives)
  {
  }

  lemma PairedPrefix(
    samples: seq<Page>, oracles: seq<seq<Record>>, pages: seq<Page>, at: seq<nat>, n: nat, page: Page,
    gives: nat -> Extraction)
    requires Paired(samples, oracles, pages, at, n, gives)
    ensures Paired(samples, oracles, pages + [page], at, n, gives)
  {
  }

  /** Each sample's oracle is what its own page's attempts gave, and a page is dropped exactly when
      its own attempts gave nothing. Asking stops at the first page whose attempts raise: `n` is its
      position, or the number of pages. */
  lemma {:induction false} OraclesArePaired(
    answers: Answers, from: nat, pages: seq<Page>, parse: ItemParser, sc: Schema) returns (at: seq<nat>, n: nat)
    ensures var r := AskAll(answers, from, pages, parse, sc);
      && n <= |pages| && Paired(r.samples, r.oracles, pages, at, n, EachGives(answers, from, parse, sc))
      && (r.raised <==> n < |pages|)
      && (r.raised ==> PageGives(answers, from, n, parse, sc).ModelRaised?)
      && r.next == AskMoment(answers, from, if r.raised then n + 1 else n, parse, sc)
  {
    at, n := [], 0;
    if pages != [] {
      var gives := EachGives(answers, from, parse, sc);
      var front, last := pages[..|pages| - 1], pages[|pages| - 1];
      at, n := OraclesArePaired(answers, from, front, parse, sc);
      var before := AskAll(answers, from, front, parse, sc);
      assert pages == front + [last];
      if before.raised || gives(|front|).ModelRaised? {
        PairedPrefix(before.samples, before.oracles, front, at, n, last, gives);
      } else if gives(|front|).Extracted? {
        PairedNext(before.samples, before.oracles, front, at, last, gives);
        at, n := at + [|front|], |pages|;
      } else {
        PairedDropped(before.samples, before.oracles, front, at, last, gives);
        n := |pages|;
      }
    }
  }

  /** A provider error ends the asking: later pages change nothing. */
  lemma {:induction false} AskingStops(
    answers: Answers, from: nat, pages: seq<Page>, i: nat, parse: ItemParser, sc: Schema)
    requires i <= |pages| && AskAll(answers, from, pages[..i], parse, sc).raised
    ensures AskAll(answers, from, pages, parse, sc) == AskAll(answers, from, pages[..i], parse, sc)
    decreases |pages|
  {
    if i == |pages| {
      assert pages[..i] == pages;
    } else {
      assert pages[..|pages| - 1][..i] == pages[..i];
      AskingStops(answers, from, pages[..|pages| - 1], i, parse, sc);
    }
  }

  // ---- candidates ----

  /** The gate-passing sources among `k` answers, in call order; nothing when a call raises. */
  function Kept(answers: Answers, codeOf: string -> Option<Source>, from: nat, k: nat): (r: Option<seq<Source>>) {
    if k == 0 then Some([])
    else
      var before := Kept(answers, codeOf, from, k - 1);
      var answer := answers(from + k - 1);
      if before.None? || answer.ProviderError? then None
      else
        var code := codeOf(answer.text);
        Some(before.value + Listed(code))
  }

  /** A provider error ends the generation. */
  lemma {:induction false} KeepingStops(
    answers: Answers, codeOf: string -> Option<Source>, from: nat, i: nat, k: nat)
    requires i <= k && Kept(answers, codeOf, from, i).None?
    ensures Kept(answers, codeOf, from, k).None?
    decreases k
  {
    if i < k {
      KeepingStops(answers, codeOf, from, i, k - 1);
    }
  }

  /** The path-map proposal and the number of the next answer. */
  function Proposal(
    answers: Answers, from: nat, tools: Tools, samples: seq<Page>, oracles: seq<seq<Record>>): (Option<Source>, nat)
  {
    if samples == [] || !tools.hasIsland(samples[0]) then (None, from)
    else if answers(from).ProviderError? then (None, from + 1)
    else (tools.pathMap(answers(from).text, samples[0], if oracles == [] then [] else oracles[0]), from + 1)
  }

  function Listed(source: Option<Source>): seq<Source> {
    if source.Some? then [source.value] else []
  }

  // ---- rounds ----

  datatype LoopReason = Promoted | NoSamples | InsufficientOracles(got: nat, need: nat) | MaxRoundsExhausted

  /** How a tier ends: a source to promote, a reason to escalate, or an escaping error. */
  datatype Course = Wins(round: int, source: Source) | Ends(reason: LoopReason, rounds: int) | Raises(failure: Failure)

  /** The candidates of a round: deterministic ones lead the first. */
  function Field(deterministic: seq<Source>, round: int, kept: seq<Source>): seq<Source> {
    if round == 1 then deterministic + kept else kept
  }

  /** The source of the best passing candidate. */
  function WinnerAmong(candidates: seq<Source>, b: Bench, bar: real): Option<Source> {
    var best := RunGauntlet(candidates, b, bar).0;
    if best.Some? then Some(best.value.source) else None
  }

  /** The winner's own score, which is one of those given, passed. */
  lemma BestPassed(candidates: seq<Source>, b: Bench, bar: real)
    requires WinnerAmong(candidates, b, bar).Some?
    ensures ScoreOf(WinnerAmong(candidates, b, bar).value, b, bar).passed
  {
    var k := WinnerIsFirstBest(Scores(candidates, b, bar));
  }

  type Judge = seq<Source> -> Option<Source>

  /** The gauntlet on a bench, as a judge. */
  function Judging(b: Bench, bar: real): Judge {
    candidates => WinnerAmong(candidates, b, bar)
  }

  datatype RoundEnd = Won(source: Source) | Lost | Broke

  /** One round on `cfg.k` answers from number `from` on. */
  function RoundOf(
    answers: Answers, from: nat, judge: Judge, codeOf: string -> Option<Source>, cfg: Config,
    deterministic: seq<Source>, round: int): RoundEnd
  {
    match Kept(answers, codeOf, from, cfg.k)
    case None => Broke
    case Some(kept) =>
      match judge(Field(deterministic, round, kept))
      case None => Lost
      case Some(source) => Won(source)
  }

  /** The rounds from number `round` on: the first that is not lost decides. */
  function Rounds(
    answers: Answers, from: nat, judge: Judge, codeOf: string -> Option<Source>, cfg: Config,
    deterministic: seq<Source>, round: int): Course
    decreases cfg.maxRounds + 1 - round
  {
    if round > cfg.maxRounds then Ends(MaxRoundsExhausted, cfg.maxRounds)
    else
      match RoundOf(answers, from, judge, codeOf, cfg, deterministic, round)
      case Broke => Raises(ProviderFailure)
      case Won(source) => Wins(round, source)
      case Lost => Rounds(answers, from + cfg.k, judge, codeOf, cfg, deterministic, round + 1)
  }

  /** Everything before round `round` was lost: the rounds from there on, on answers from number `now`
      on, decide as the whole does. */
  ghost predicate Pending(
    answers: Answers, from: nat, judge: Judge, codeOf: string -> Option<Source>, cfg: Config,
    deterministic: seq<Source>, round: int, now: nat)
  {
    Rounds(answers, from, judge, codeOf, cfg, deterministic, 1)
      == Rounds(answers, now, judge, codeOf, cfg, deterministic, round)
  }

  /** A round that is not lost decides; a lost one passes the question on; and so does the end. */
  lemma RoundDecides(
    answers: Answers, from: nat, judge: Judge, codeOf: string -> Option<Source>, cfg: Config,
    deterministic: seq<Source>, round: int, now: nat)
    requires Pending(answers, from, judge, codeOf, cfg, deterministic, round, now)
    ensures var all := Rounds(answers, from, judge, codeOf, cfg, deterministic, 1);
      if round > cfg.maxRounds then all == Ends(MaxRoundsExhausted, cfg.maxRounds)
      else match RoundOf(answers, now, judge, codeOf, cfg, deterministic, round)
        case Broke => all == Raises(ProviderFailure)
        case Won(source) => all == Wins(round, source)
        case Lost => Pending(answers, from, judge, codeOf, cfg, deterministic, round + 1, now + cfg.k)
  {
  }

  /** The winner is the judge's choice among some candidates, in a round within the
      budget. */
  lemma {:induction false} WinnerIsJudged(
    answers: Answers, from: nat, judge: Judge, codeOf: string -> Option<Source>, cfg: Config,
    deterministic: seq<Source>, round: int) returns (candidates: seq<Source>)
    ensures var c := Rounds(answers, from, judge, codeOf, cfg, deterministic, round);
      c.Wins? ==> round <= c.round <= cfg.maxRounds && judge(candidates) == Some(c.source)
    decreases cfg.maxRounds + 1 - round
  {
    candidates := [];
    if round <= cfg.maxRounds {
      var kept := Kept(answers, codeOf, from, cfg.k);
      if kept.Some? {
        candidates := Field(deterministic, round, kept.value);
        if judge(candidates).None? {
          candidates := WinnerIsJudged(answers, from + cfg.k, judge, codeOf, cfg, deterministic, round + 1);
        }
      }
    }
  }

  // ---- the tier ----

  function DeterministicSources(answers: Answers, asked: Asked, tools: Tools): seq<Source> {
    Listed(tools.valuePath(asked.samples, asked.oracles))
      + Listed(Proposal(answers, asked.next, tools, asked.samples, asked.oracles).0)
  }

  /** Pages and oracles the tier judges on. */
  function BenchOf(asked: Asked, sc: Schema, tools: Tools, fixtures: seq<Fixture>): Bench {
    Bench(asked.samples, asked.oracles, fixtures, sc, tools.run)
  }

  /** The part of a tier that follows its oracles. */
  function CourseAfterOracles(
    answers: Answers, asked: Asked, sc: Schema, tools: Tools, cfg: Config, fixtures: seq<Fixture>): Course
  {
    var (_, next) := Proposal(answers, asked.next, tools, asked.samples, asked.oracles);
    Rounds(answers, next, Judging(BenchOf(asked, sc, tools, fixtures), cfg.bar), tools.codeOf, cfg,
           DeterministicSources(answers, asked, tools), 1)
  }

  /** The pages a tier sampled, or the error that left sampling. */
  datatype Sampling = Pages(pages: seq<Page>) | SamplingRaised(failure: Failure)

  /** One tier on the pages sampled for it (or on sampling's error). */
  function CourseOf(
    answers: Answers, from: nat, sampled: Sampling, sc: Schema, tools: Tools, cfg: Config,
    fixtures: seq<Fixture>): Course
  {
    if sampled.SamplingRaised? then Raises(sampled.failure)
    else if sampled.pages == [] then Ends(NoSamples, 0)
    else
      var asked := AskAll(answers, from, sampled.pages, tools.parseItems, sc);
      if asked.raised then Raises(ProviderFailure)
      else if |asked.oracles| < cfg.minOracles then Ends(InsufficientOracles(|asked.oracles|, cfg.minOracles), 0)
      else CourseAfterOracles(answers, asked, sc, tools, cfg, fixtures)
  }

  /** Whatever a tier promotes passed the bar on at least `minOracles` (and at least one) sampled
      pages, exactly those whose own attempts gave rows, each against its own rows, which the schema
      accepts. */
  lemma TierWinnerIsJudged(
    answers: Answers, from: nat, pages: seq<Page>, sc: Schema, tools: Tools, cfg: Config,
    fixtures: seq<Fixture>) returns (at: seq<nat>)
    requires CourseOf(answers, from, Pages(pages), sc, tools, cfg, fixtures).Wins?
    ensures var c := CourseOf(answers, from, Pages(pages), sc, tools, cfg, fixtures);
      var b := BenchOf(AskAll(answers, from, pages, tools.parseItems, sc), sc, tools, fixtures);
      && ScoreOf(c.source, b, cfg.bar).passed
      && 1 <= c.round <= cfg.maxRounds
      && |b.samples| == |b.oracles| && |b.samples| >= cfg.minOracles && |b.samples| > 0
      && Paired(b.samples, b.oracles, pages, at, |pages|, EachGives(answers, from, tools.parseItems, sc))
      && forall i :: 0 <= i < |b.oracles| ==> Accepted(b.oracles[i], sc)
  {
    var asked := AskAll(answers, from, pages, tools.parseItems, sc);
    var b := BenchOf(asked, sc, tools, fixtures);
    var accepted := OraclesAreAccepted(answers, from, pages, tools.parseItems, sc);
    var n;
    at, n := OraclesArePaired(answers, from, pages, tools.parseItems, sc);
    var next := Proposal(answers, asked.next, tools, asked.samples, asked.oracles).1;
    var candidates := WinnerIsJudged(
      answers, next, Judging(b, cfg.bar), tools.codeOf, cfg, DeterministicSources(answers, asked, tools), 1);
    BestPassed(candidates, b, cfg.bar);
    var source := CourseOf(answers, from, Pages(pages), sc, tools, cfg, fixtures).source;
    assert SchemaFlags(source, b) != [];
  }

  /** With at most 49 fields, a deterministic candidate that reproduces the oracles is promoted in
      round 1, ahead of whatever the model wrote (unless a first-round call raises). */
  lemma DeterministicWins(
    answers: Answers, from: nat, pages: seq<Page>, sc: Schema, tools: Tools, cfg: Config,
    fixtures: seq<Fixture>, i: nat)
    requires ValidSchema(sc) && |sc.fields| <= 49 && cfg.bar == AGREEMENT_BAR && cfg.maxRounds > 0
    requires pages != []
    requires var asked := AskAll(answers, from, pages, tools.parseItems, sc);
      var (_, next) := Proposal(answers, asked.next, tools, asked.samples, asked.oracles);
      var sources := DeterministicSources(answers, asked, tools);
      && !asked.raised && |asked.oracles| >= cfg.minOracles
      && i < |sources| && Promotable(sources[i], BenchOf(asked, sc, tools, fixtures))
      && Kept(answers, tools.codeOf, next, cfg.k).Some?
    ensures var c := CourseOf(answers, from, Pages(pages), sc, tools, cfg, fixtures);
      var sources := DeterministicSources(answers, AskAll(answers, from, pages, tools.parseItems, sc), tools);
      c.Wins? && c.round == 1 && exists j :: 0 <= j <= i && sources[j] == c.source
  {
    var asked := AskAll(answers, from, pages, tools.parseItems, sc);
    var next := Proposal(answers, asked.next, tools, asked.samples, asked.oracles).1;
    var sources := DeterministicSources(answers, asked, tools);
    var kept := Kept(answers, tools.codeOf, next, cfg.k).value;
    var k := FirstPassingWins(sources + kept, BenchOf(asked, sc, tools, fixtures));
    assert (sources + kept)[i] == sources[i];
    assert (sources + kept)[k] == sources[k];
  }
}
