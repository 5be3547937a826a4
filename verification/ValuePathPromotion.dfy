// When the value-path candidate wins (crawloop/loop/jsonpath.py against crawloop/loop/gauntlet.py):
// discovery matches in its own way, the gate compares with `field_equal`; what a match is worth at
// the gate, and so exactly which discoveries are promoted.
module ValuePathPromotion {
  import opened Wrappers
  import opened Pages
  import opened Sorting
  import opened Values
  import opened PyText
  import opened FieldEquality
  import opened Validator
  import opened Validation
  import opened Gauntlet
  import opened JsonPath
  import opened Discovery
  import opened ValuePathCrawler
  import LoopCourse

  /** Detail pages: the source crawls each training page, and each oracle is its one record. */
  ghost predicate CrawlsTraining(src: Source, b: Bench, t: Training, d: Discovery) {
    && |b.samples| == |b.oracles| == |t.jsons| == |t.oracles|
    && forall i :: 0 <= i < |b.samples| ==>
         && b.OnSample(src, i) == Some([CrawlRecord(t.jsons[i], d, t.py)])
         && b.oracles[i] == [t.oracles[i]]
  }

  /** What the gate compares: the field's read if it was discovered, else nothing. */
  function Crawled(data: Value, d: Discovery, f: string, py: Python): Value {
    if f in d.paths then FieldRead(data, d, f, py) else Null
  }

  lemma RecordHolds(data: Value, d: Discovery, f: string, py: Python)
    ensures Get(CrawlRecord(data, d, py), f) == Crawled(data, d, f, py)
  {
  }

  /** Every schema field of page `i` comes back as the gate wants it; a field that was not discovered
      does exactly when its oracle is missing too. */
  ghost predicate PageAgrees(sc: Schema, t: Training, d: Discovery, i: nat)
    requires i < |t.jsons| && i < |t.oracles|
  {
    forall f :: f in sc.fields ==>
      FieldEqual(Crawled(t.jsons[i], d, f, t.py), Get(t.oracles[i], f), f in sc.volatile)
  }

  lemma OneRecordReproduces(got: Record, want: Record, sc: Schema)
    ensures Reproduces(Some([got]), [want], sc, 0) <==> forall f :: f in sc.fields ==> FieldAgrees(got, want, f, sc.volatile)
  {
    var key := AlignKey(sc);
    if key.Some? {
      OneRecordSorted(got, key.value);
      OneRecordSorted(want, key.value);
    }
    var pairs := AlignedPairs([got], [want], key);
    assert pairs == [(got, want)] && pairs[0] == (got, want);
    var d := Disagreements(got, want, sc);
    assert PairsWithin([got], [want], sc, 0) <==> d == {};
    assert forall f :: f in sc.fields ==> (f in d <==> !FieldAgrees(got, want, f, sc.volatile));
  }

  lemma OneRecordSorted(r: Record, key: string)
    ensures SortBy([r], KeyOrder(key)) == [r]
  {
    assert [r][..0] == [];
  }

  lemma PageReproduced(src: Source, b: Bench, t: Training, d: Discovery, i: nat)
    requires CrawlsTraining(src, b, t, d) && i < |b.samples|
    ensures Reproduces(b.OnSample(src, i), b.oracles[i], b.sc, 0) <==> PageAgrees(b.sc, t, d, i)
  {
    OneRecordReproduces(CrawlRecord(t.jsons[i], d, t.py), t.oracles[i], b.sc);
    forall f ensures Get(CrawlRecord(t.jsons[i], d, t.py), f) == Crawled(t.jsons[i], d, f, t.py) {
      RecordHolds(t.jsons[i], d, f, t.py);
    }
  }

  /** With at most 49 fields and no fixtures yet, the value-path candidate is promotable exactly when
      each page's record validates and each of its schema fields agrees with the oracle. */
  lemma ValuePathPromotable(src: Source, b: Bench, t: Training, d: Discovery)
    requires ValidSchema(b.sc) && |b.sc.fields| <= 49 && b.fixtures == []
    requires CrawlsTraining(src, b, t, d) && b.samples != []
    ensures Promotable(src, b) <==>
      forall i :: 0 <= i < |b.samples| ==>
        PageAgrees(b.sc, t, d, i) && Accepted([CrawlRecord(t.jsons[i], d, t.py)], b.sc)
  {
    forall i | 0 <= i < |b.samples|
      ensures Reproduces(b.OnSample(src, i), b.oracles[i], b.sc, 0) <==> PageAgrees(b.sc, t, d, i)
    {
      PageReproduced(src, b, t, d, i);
    }
  }

  /** And exactly then it wins, ahead of every other candidate. */
  lemma ValuePathWins(src: Source, others: seq<Source>, b: Bench, t: Training, d: Discovery)
    requires ValidSchema(b.sc) && |b.sc.fields| <= 49 && b.fixtures == []
    requires CrawlsTraining(src, b, t, d) && b.samples != []
    ensures var best := RunGauntlet([src] + others, b, AGREEMENT_BAR).0;
      best.Some? && best.value.source == src <==>
      forall i :: 0 <= i < |b.samples| ==>
        PageAgrees(b.sc, t, d, i) && Accepted([CrawlRecord(t.jsons[i], d, t.py)], b.sc)
  {
    ValuePathPromotable(src, b, t, d);
    var k := FirstPassingWins([src] + others, b);
    assert ([src] + others)[0] == src;
  }

  // ---- what a match is worth ----

  /** What the gate asks of two texts that match: the page holds no null, the oracle no container,
      a flag faces a flag, and a decimal prints as the amount it is. */
  predicate GateTakes(leaf: Value, want: Value) {
    && !leaf.Null? && !IsContainer(want)
    && (leaf.Bool? <==> want.Bool?)
    && (want.Dec? ==> ParseMoney(want.text) == Some(want.d))
  }

  lemma MatchingMoney(a: string, b: string)
    requires Strip(a) == Strip(b)
    ensures ParseMoney(a) == ParseMoney(b) && CleanText(a) == CleanText(b)
  {
    ParseMoneyIgnoresStripping(a);
    ParseMoneyIgnoresStripping(b);
    CleanTextIgnoresStripping(a);
    CleanTextIgnoresStripping(b);
  }

  lemma FlagText(flag: bool)
    ensures ParseMoney(Text(Bool(flag))) == None && Strip(Text(Bool(flag))) == Text(Bool(flag))
  {
    NoDigitNoMoney(Text(Bool(flag)));
    StripKeeps(Text(Bool(flag)));
  }

  /** Any number's text has a number in it. */
  ghost predicate Legible(v: Value) {
    WellFormed(v) && (v.Dec? ==> ParseMoney(v.text).Some?)
  }

  lemma NumberText(v: Value)
    requires Legible(v) && IsNumber(v) && !v.Bool?
    ensures ParseMoney(Text(v)).Some? && AsMoney(v).Some? && (!v.Dec? ==> AsMoney(v) == ParseMoney(Text(v)))
  {
    if v.Int? {
      ParseMoneyIntText(v.n);
    }
  }

  /** No number matches a flag, and no flag the other one. */
  lemma FlagMatch(leaf: Value, want: Value)
    requires Strip(Text(leaf)) == Strip(Text(want)) && (leaf.Bool? || want.Bool?)
    requires !leaf.Null? && !want.Null? && !IsContainer(leaf) && Legible(leaf) && Legible(want)
    ensures FieldEqual(leaf, want, false) <==> leaf.Bool? && want.Bool?
  {
    MatchingMoney(Text(leaf), Text(want));
    FlagText(true);
    FlagText(false);
    if IsNumber(leaf) && !leaf.Bool? {
      NumberText(leaf);
    }
    if IsNumber(want) && !want.Bool? {
      NumberText(want);
    }
  }

  lemma AmountMatch(leaf: Value, want: Value)
    requires Strip(Text(leaf)) == Strip(Text(want)) && !want.Bool? && !want.Null?
    requires (leaf.Int? || leaf.Flt? || leaf.Str?) && Legible(leaf) && Legible(want) && !IsContainer(want)
    ensures FieldEqual(leaf, want, false) <==> (want.Dec? ==> ParseMoney(want.text) == Some(want.d))
  {
    MatchingMoney(Text(leaf), Text(want));
    if !leaf.Str? {
      NumberText(leaf);
    }
    if !want.Str? {
      NumberText(want);
    }
  }

  /** A text match agrees at the gate exactly when the gate takes it. */
  lemma TextMatchAgrees(leaf: Value, want: Value)
    requires Strip(Text(leaf)) == Strip(Text(want)) && !want.Null?
    requires !IsContainer(leaf) && !leaf.Dec? && Legible(leaf) && Legible(want)
    ensures FieldEqual(leaf, want, false) <==> GateTakes(leaf, want)
  {
    if leaf.Null? {
    } else if leaf.Bool? || want.Bool? {
      FlagMatch(leaf, want);
    } else if !IsContainer(want) {
      AmountMatch(leaf, want);
    }
  }

  /** The gate reads the number stored, and the oracle's, as the numbers discovery compared. */
  predicate ReadAlike(got: Value, want: Value, py: Python) {
    IsNumber(got) && AsMoney(got) == Some(NumberOf(got)) && AsMoney(want) == ToFloat(want, py)
  }

  /** The number stored is within the gate's tolerance of the oracle's. */
  predicate NumberTaken(got: Value, want: Value, py: Python) {
    IsNumber(got) && ToFloat(want, py).Some? &&
    var x, w := NumberOf(got), ToFloat(want, py).value;
    Abs(x - w) <= EPSILON * Max(Abs(x), EPSILON)
  }

  lemma NumberMatchAgrees(got: Value, want: Value, py: Python)
    requires !got.Bool? && ToFloat(want, py).Some? && ReadAlike(got, want, py)
    ensures FieldEqual(got, want, true) <==> NumberTaken(got, want, py)
  {
    VolatileBound(got, want);
  }

  /** Discovery's tolerance is the gate's for a number of at least 1 and at least the oracle's. */
  lemma LargeNumbersTaken(got: Value, want: Value, py: Python)
    requires IsNumber(got) && ToFloat(want, py).Some? && Close(NumberOf(got), ToFloat(want, py).value)
    requires Abs(NumberOf(got)) >= 1.0 && Abs(NumberOf(got)) >= Abs(ToFloat(want, py).value)
    ensures NumberTaken(got, want, py)
  {
  }

  /** Below 1 it is wider: a match the gate does not take. */
  lemma SmallNumbersMiss(py: Python)
    ensures var got, want := Flt(0.5, "0.5"), Flt(0.5000000009, "0.5000000009");
      Close(NumberOf(got), ToFloat(want, py).value) && !NumberTaken(got, want, py)
  {
  }

  lemma {:induction false} LeafWellFormed(v: Value, path: Path)
    requires WellFormed(v) && LeafAt(v, path).Some?
    ensures WellFormed(LeafAt(v, path).value) && !IsContainer(LeafAt(v, path).value)
    decreases |path|
  {
    if path != [] {
      if v.Obj? {
        var i := LookupPosition(v.entries, path[0].s);
      }
      LeafWellFormed(StepInto(v, path[0]).v, path[1..]);
    }
  }

  /** Parsed pages hold no decimals; the gate reads the numeric fields as discovery does. */
  ghost predicate Comparable(t: Training, d: Discovery) {
    && t.Valid()
    && (forall i, path :: 0 <= i < |t.jsons| && LeafAt(t.jsons[i], path).Some? ==> !LeafAt(t.jsons[i], path).value.Dec?)
    && (forall i, f :: 0 <= i < |t.oracles| ==> Legible(Get(t.oracles[i], f)))
    && (forall i, f :: 0 <= i < t.Count() && f in d.scale && f in d.paths ==>
          ReadAlike(FieldRead(t.jsons[i], d, f, t.py), Get(t.oracles[i], f), t.py))
  }

  /** What the gate sees of field `f` on page `i`: not discovered, and missing in the oracle too; a
      number within tolerance; or a text it takes. */
  ghost predicate FieldShows(t: Training, d: Discovery, f: string, i: nat)
    requires i < t.Count()
  {
    var want := Get(t.oracles[i], f);
    if f !in d.paths then want.Null?
    else if f in d.scale then NumberTaken(FieldRead(t.jsons[i], d, f, t.py), want, t.py)
    else LeafAt(t.jsons[i], d.paths[f]).Some? && GateTakes(LeafAt(t.jsons[i], d.paths[f]).value, want)
  }

  lemma TextShows(t: Training, d: Discovery, volatile: set<string>, skip: set<string>, f: string, i: nat)
    requires IsDiscovery(d, t, volatile, skip) && Comparable(t, d) && i < t.Count()
    requires f in d.paths && f !in d.scale
    ensures FieldEqual(Crawled(t.jsons[i], d, f, t.py), Get(t.oracles[i], f), f in volatile) <==> FieldShows(t, d, f, i)
  {
    assert MatchesAt(t, f, false, d.paths[f], 1, i);
    var leaf := LeafAt(t.jsons[i], d.paths[f]).value;
    ReadLeaf(t.jsons[i], d.paths[f]);
    LeafWellFormed(t.jsons[i], d.paths[f]);
    assert !Get(t.oracles[i], f).Null?;
    TextMatchAgrees(leaf, Get(t.oracles[i], f));
  }

  lemma NumberShows(t: Training, d: Discovery, volatile: set<string>, skip: set<string>, f: string, i: nat)
    requires IsDiscovery(d, t, volatile, skip) && Comparable(t, d) && i < t.Count()
    requires f in d.scale
    ensures f in d.paths
    ensures FieldEqual(Crawled(t.jsons[i], d, f, t.py), Get(t.oracles[i], f), f in volatile) <==> FieldShows(t, d, f, i)
  {
    ReproducesNumbers(d, t, volatile, skip, f, i);
    NumberMatchAgrees(FieldRead(t.jsons[i], d, f, t.py), Get(t.oracles[i], f), t.py);
  }

  /** Page `i`'s record validates, and every schema field shows in it. */
  ghost predicate PageShows(sc: Schema, t: Training, d: Discovery, i: nat)
    requires i < t.Count()
  {
    && (forall f :: f in sc.fields ==> FieldShows(t, d, f, i))
    && Accepted([CrawlRecord(t.jsons[i], d, t.py)], sc)
  }

  lemma PageShowsExactly(sc: Schema, t: Training, d: Discovery, skip: set<string>, i: nat)
    requires IsDiscovery(d, t, sc.volatile, skip) && Comparable(t, d) && i < t.Count()
    ensures PageShows(sc, t, d, i) <==> PageAgrees(sc, t, d, i) && Accepted([CrawlRecord(t.jsons[i], d, t.py)], sc)
  {
    forall f
      ensures FieldEqual(Crawled(t.jsons[i], d, f, t.py), Get(t.oracles[i], f), f in sc.volatile) <==> FieldShows(t, d, f, i)
    {
      if f in d.scale {
        NumberShows(t, d, sc.volatile, skip, f, i);
      } else if f in d.paths {
        TextShows(t, d, sc.volatile, skip, f, i);
      }
    }
  }

  ghost predicate AllShow(sc: Schema, t: Training, d: Discovery) {
    forall i :: 0 <= i < t.Count() ==> PageShows(sc, t, d, i)
  }

  lemma AllShowExactly(b: Bench, t: Training, d: Discovery, skip: set<string>)
    requires IsDiscovery(d, t, b.sc.volatile, skip) && Comparable(t, d) && |b.samples| == t.Count()
    ensures AllShow(b.sc, t, d) <==> forall i :: 0 <= i < |b.samples| ==>
      PageAgrees(b.sc, t, d, i) && Accepted([CrawlRecord(t.jsons[i], d, t.py)], b.sc)
  {
    forall i | 0 <= i < t.Count()
      ensures PageShows(b.sc, t, d, i) <==>
        PageAgrees(b.sc, t, d, i) && Accepted([CrawlRecord(t.jsons[i], d, t.py)], b.sc)
    {
      PageShowsExactly(b.sc, t, d, skip, i);
    }
  }

  /** So a discovery is promotable exactly when every field shows on every page. */
  lemma DiscoveryPromotable(src: Source, b: Bench, t: Training, d: Discovery, skip: set<string>)
    requires ValidSchema(b.sc) && |b.sc.fields| <= 49 && b.fixtures == []
    requires CrawlsTraining(src, b, t, d) && b.samples != []
    requires IsDiscovery(d, t, b.sc.volatile, skip) && Comparable(t, d)
    ensures Promotable(src, b) <==> AllShow(b.sc, t, d)
  {
    ValuePathPromotable(src, b, t, d);
    AllShowExactly(b, t, d, skip);
  }

  /** The rounds are won in round 1 by `src` exactly when the judge picks it there. */
  lemma FirstRoundDecides(
    answers: LoopCourse.Answers, from: nat, judge: LoopCourse.Judge, codeOf: string -> Option<Source>,
    cfg: LoopCourse.Config, deterministic: seq<Source>, src: Source)
    requires cfg.maxRounds > 0 && LoopCourse.Kept(answers, codeOf, from, cfg.k).Some?
    ensures LoopCourse.Rounds(answers, from, judge, codeOf, cfg, deterministic, 1) == LoopCourse.Wins(1, src) <==>
      judge(deterministic + LoopCourse.Kept(answers, codeOf, from, cfg.k).value) == Some(src)
  {
    var candidates := LoopCourse.WinnerIsJudged(answers, from + cfg.k, judge, codeOf, cfg, deterministic, 2);
  }

  lemma LeadsTheField(
    answers: LoopCourse.Answers, asked: LoopCourse.Asked, tools: LoopCourse.Tools, src: Source, kept: seq<Source>)
    returns (others: seq<Source>)
    requires tools.valuePath(asked.samples, asked.oracles) == Some(src)
    ensures LoopCourse.DeterministicSources(answers, asked, tools) + kept == [src] + others
  {
    others := LoopCourse.Listed(
      LoopCourse.Proposal(answers, asked.next, tools, asked.samples, asked.oracles).0) + kept;
  }

  lemma AsJudged(judge: LoopCourse.Judge, b: Bench, bar: real, candidates: seq<Source>)
    requires judge == LoopCourse.Judging(b, bar)
    ensures judge(candidates) == LoopCourse.WinnerAmong(candidates, b, bar)
  {
  }

  /** What follows the oracles is won in round 1 by the value-path source exactly when the gauntlet
      picks it, first in the list. */
  lemma ValuePathDecides(
    answers: LoopCourse.Answers, asked: LoopCourse.Asked, sc: Schema, tools: LoopCourse.Tools,
    cfg: LoopCourse.Config, src: Source) returns (others: seq<Source>)
    requires cfg.maxRounds > 0 && tools.valuePath(asked.samples, asked.oracles) == Some(src)
    requires LoopCourse.Kept(
        answers, tools.codeOf, LoopCourse.Proposal(answers, asked.next, tools, asked.samples, asked.oracles).1, cfg.k).Some?
    ensures LoopCourse.CourseAfterOracles(answers, asked, sc, tools, cfg, []) == LoopCourse.Wins(1, src) <==>
      LoopCourse.WinnerAmong([src] + others, LoopCourse.BenchOf(asked, sc, tools, []), cfg.bar) == Some(src)
  {
    var next := LoopCourse.Proposal(answers, asked.next, tools, asked.samples, asked.oracles).1;
    var kept := LoopCourse.Kept(answers, tools.codeOf, next, cfg.k).value;
    var b := LoopCourse.BenchOf(asked, sc, tools, []);
    var judge := LoopCourse.Judging(b, cfg.bar);
    var sources := LoopCourse.DeterministicSources(answers, asked, tools);
    others := LeadsTheField(answers, asked, tools, src, kept);
    FirstRoundDecides(answers, next, judge, tools.codeOf, cfg, sources, src);
    AsJudged(judge, b, cfg.bar, [src] + others);
  }

  /** And exactly then it is what the loop promotes, in round 1, whatever the model wrote (unless a
      first-round call raises). */
  lemma DiscoveryWins(
    answers: LoopCourse.Answers, from: nat, pages: seq<Page>, sc: Schema, tools: LoopCourse.Tools,
    cfg: LoopCourse.Config, src: Source, t: Training, d: Discovery, skip: set<string>)
    requires ValidSchema(sc) && |sc.fields| <= 49 && cfg.bar == AGREEMENT_BAR && cfg.maxRounds > 0
    requires pages != []
    requires var asked := LoopCourse.AskAll(answers, from, pages, tools.parseItems, sc);
      var (_, next) := LoopCourse.Proposal(answers, asked.next, tools, asked.samples, asked.oracles);
      && !asked.raised && |asked.oracles| >= cfg.minOracles && asked.samples != []
      && tools.valuePath(asked.samples, asked.oracles) == Some(src)
      && CrawlsTraining(src, LoopCourse.BenchOf(asked, sc, tools, []), t, d)
      && LoopCourse.Kept(answers, tools.codeOf, next, cfg.k).Some?
    requires IsDiscovery(d, t, sc.volatile, skip) && Comparable(t, d)
    ensures LoopCourse.CourseOf(answers, from, LoopCourse.Pages(pages), sc, tools, cfg, []) == LoopCourse.Wins(1, src)
      <==> AllShow(sc, t, d)
  {
    var asked := LoopCourse.AskAll(answers, from, pages, tools.parseItems, sc);
    var b := LoopCourse.BenchOf(asked, sc, tools, []);
    var others := ValuePathDecides(answers, asked, sc, tools, cfg, src);
    AllShowExactly(b, t, d, skip);
    ValuePathWins(src, others, b, t, d);
  }
}
