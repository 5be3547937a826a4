// The judge (crawloop/loop/gauntlet.py): run a candidate in the sandbox on every
// sample and fixture, score it, and pick a winner. The sandbox is a parameter that
// maps (source, html, url) to items, or to nothing when the run crashed.
module Gauntlet {
  import opened Wrappers
  import opened Pages
  import opened Sorting
  import opened Averages
  import opened Values
  import opened Validator
  import opened Validation

  type Source = string

  datatype Fixture = Fixture(html: string, expected: seq<Record>)

  type Sandbox = (Source, string, string) -> Option<seq<Record>>

  const SANDBOX_URL: string := "https://sandbox.local/"
  const AGREEMENT_BAR: real := 0.98
  const FIXTURE_BAR: real := 1.0

  datatype Score = CandidateScore(
    source: Source, schemaValid: bool, agreement: real, fixturePass: real, minItem: real,
    countsMatch: bool, execErrors: nat, passed: bool)

  /** Pages a candidate is judged on: samples with their oracle rows, and golden fixtures. */
  datatype Bench = Bench(
    samples: seq<Page>, oracles: seq<seq<Record>>, fixtures: seq<Fixture>, sc: Schema, run: Sandbox)
  {
    /** `zip(samples, oracle_jsons)` stops at the shorter list. */
    function SampleCount(): nat {
      if |samples| < |oracles| then |samples| else |oracles|
    }

    function OnSample(src: Source, i: nat): Option<seq<Record>>
      requires i < SampleCount()
    {
      run(src, samples[i].html, samples[i].url)
    }

    function OnFixture(src: Source, i: nat): Option<seq<Record>>
      requires i < |fixtures|
    {
      run(src, fixtures[i].html, SANDBOX_URL)
    }
  }

  function PageDetail(items: Option<seq<Record>>, expected: seq<Record>, sc: Schema): Detail {
    match items
    case None => Detail(0.0, 0.0, false, 0)
    case Some(rows) => DetailOf(rows, expected, sc)
  }

  function SampleDetails(src: Source, b: Bench): (r: seq<Detail>)
    ensures |r| == b.SampleCount()
  {
    seq(b.SampleCount(), i requires 0 <= i < b.SampleCount() =>
      PageDetail(b.OnSample(src, i), b.oracles[i], b.sc))
  }

  function FixtureDetails(src: Source, b: Bench): (r: seq<Detail>)
    ensures |r| == |b.fixtures|
  {
    seq(|b.fixtures|, i requires 0 <= i < |b.fixtures| =>
      PageDetail(b.OnFixture(src, i), b.fixtures[i].expected, b.sc))
  }

  function SchemaFlags(src: Source, b: Bench): seq<bool> {
    seq(b.SampleCount(), i requires 0 <= i < b.SampleCount() =>
      b.OnSample(src, i).Some? && Accepted(b.OnSample(src, i).value, b.sc))
  }

  function SampleCrashes(src: Source, b: Bench): seq<bool> {
    seq(b.SampleCount(), i requires 0 <= i < b.SampleCount() => b.OnSample(src, i).None?)
  }

  function FixtureCrashes(src: Source, b: Bench): seq<bool> {
    seq(|b.fixtures|, i requires 0 <= i < |b.fixtures| => b.OnFixture(src, i).None?)
  }

  function Crashes(src: Source, b: Bench): seq<bool> {
    SampleCrashes(src, b) + FixtureCrashes(src, b)
  }

  function CountTrue(flags: seq<bool>): nat {
    if flags == [] then 0
    else CountTrue(flags[..|flags| - 1]) + if flags[|flags| - 1] then 1 else 0
  }

  function Means(ds: seq<Detail>): (r: seq<real>)
    ensures |r| == |ds|
  {
    seq(|ds|, i requires 0 <= i < |ds| => ds[i].mean)
  }

  function MinItems(ds: seq<Detail>): (r: seq<real>)
    ensures |r| == |ds|
  {
    seq(|ds|, i requires 0 <= i < |ds| => ds[i].minItem)
  }

  predicate AllTrue(flags: seq<bool>) {
    forall i :: 0 <= i < |flags| ==> flags[i]
  }

  predicate AllCountsMatch(ds: seq<Detail>) {
    forall i :: 0 <= i < |ds| ==> ds[i].countMatch
  }

  /** The score a candidate earns, from its per-page details. */
  function ScoreOf(src: Source, b: Bench, bar: real): Score {
    var fixtureDetails := FixtureDetails(src, b);
    var details := SampleDetails(src, b) + fixtureDetails;
    var flags := SchemaFlags(src, b);
    var schemaValid := flags != [] && AllTrue(flags);
    var minItem := if details == [] then 1.0 else Min(MinItems(details));
    var fixturePass := Mean(Means(fixtureDetails));
    var errors := CountTrue(Crashes(src, b));
    var passed :=
      && schemaValid && AllCountsMatch(details) && minItem >= bar
      && fixturePass >= FIXTURE_BAR && errors == 0;
    CandidateScore(src, schemaValid, Mean(Means(details)), fixturePass, minItem,
                   AllCountsMatch(details), errors, passed)
  }

  /** One page: its schema flag and its detail; a crash is a hard fail. */
  method JudgePage(items: Option<seq<Record>>, expected: seq<Record>, sc: Schema) returns (valid: bool, d: Detail)
    ensures valid <==> items.Some? && Accepted(items.value, sc)
    ensures d == PageDetail(items, expected, sc)
  {
    if items.None? {
      return false, Detail(0.0, 0.0, false, 0);
    }
    var report := Validate(items.value, sc, None, MIN_FILL, MIN_COUNT_RATIO);
    valid := report.ok;
    d := AgreementDetail(items.value, expected, sc);
  }

  lemma OneMore<T>(want: seq<T>, got: seq<T>, i: nat, x: T)
    requires i < |want| && got == want[..i] && want[i] == x
    ensures got + [x] == want[..i + 1]
  {
  }

  /** The sample half of `score_candidate`: schema flags, details and crash marks, in order. */
  method RunSamples(src: Source, b: Bench) returns (flags: seq<bool>, details: seq<Detail>, crashed: seq<bool>)
    ensures flags == SchemaFlags(src, b) && details == SampleDetails(src, b)
    ensures crashed == SampleCrashes(src, b)
  {
    ghost var wantFlags, wantDetails := SchemaFlags(src, b), SampleDetails(src, b);
    ghost var wantCrashed := SampleCrashes(src, b);
    flags, details, crashed := [], [], [];
    for i := 0 to b.SampleCount()
      invariant details == wantDetails[..i] && flags == wantFlags[..i] && crashed == wantCrashed[..i]
    {
      var actual := b.run(src, b.samples[i].html, b.samples[i].url);
      var valid, d := JudgePage(actual, b.oracles[i], b.sc);
      OneMore(wantFlags, flags, i, valid);
      OneMore(wantDetails, details, i, d);
      OneMore(wantCrashed, crashed, i, actual.None?);
      flags, details, crashed := flags + [valid], details + [d], crashed + [actual.None?];
    }
  }

  /** The fixture half: golden pages are replayed at the sandbox's own URL. */
  method RunFixtures(src: Source, b: Bench) returns (details: seq<Detail>, crashed: seq<bool>)
    ensures details == FixtureDetails(src, b)
    ensures crashed == FixtureCrashes(src, b)
  {
    ghost var wantDetails, wantCrashed := FixtureDetails(src, b), FixtureCrashes(src, b);
    details, crashed := [], [];
    for i := 0 to |b.fixtures|
      invariant details == wantDetails[..i] && crashed == wantCrashed[..i]
    {
      var actual := b.run(src, b.fixtures[i].html, SANDBOX_URL);
      var _, d := JudgePage(actual, b.fixtures[i].expected, b.sc);
      assert wantDetails[i] == d;
      details, crashed := details + [d], crashed + [actual.None?];
    }
  }

  /** `score_candidate`. */
  method ScoreCandidate(src: Source, b: Bench, bar: real) returns (score: Score)
    ensures score == ScoreOf(src, b, bar)
  {
    var flags, sampleDetails, sampleCrashes := RunSamples(src, b);
    var fixtureDetails, fixtureCrashes := RunFixtures(src, b);
    var details := sampleDetails + fixtureDetails;
    var execErrors := CountTrue(sampleCrashes + fixtureCrashes);
    var schemaValid := flags != [] && AllTrue(flags);
    var agreement, fixturePass := Mean(Means(details)), Mean(Means(fixtureDetails));
    var minItem := if details == [] then 1.0 else Min(MinItems(details));
    var countsMatch := AllCountsMatch(details);
    var passed :=
      schemaValid && countsMatch && minItem >= bar && fixturePass >= FIXTURE_BAR && execErrors == 0;
    score := CandidateScore(
      src, schemaValid, agreement, fixturePass, minItem, countsMatch, execErrors, passed);
  }

  // ---- what a pass means ----

  /** A page the candidate reproduces, up to `slack` differing fields in each row. */
  ghost predicate Reproduces(items: Option<seq<Record>>, expected: seq<Record>, sc: Schema, slack: nat) {
    items.Some? && |items.value| == |expected| && PairsWithin(items.value, expected, sc, slack)
  }

  /** The promotion bar in the terms of the pages themselves. */
  ghost predicate Promotable(src: Source, b: Bench) {
    && b.SampleCount() > 0
    && (forall i :: 0 <= i < b.SampleCount() ==>
          && Reproduces(b.OnSample(src, i), b.oracles[i], b.sc, |b.sc.fields| / 50)
          && Accepted(b.OnSample(src, i).value, b.sc))
    && (forall i :: 0 <= i < |b.fixtures| ==>
          Reproduces(b.OnFixture(src, i), b.fixtures[i].expected, b.sc, 0))
  }

  /** The reported number of crashes is the number of positions marked. */
  lemma {:induction false} CountTrueExact(flags: seq<bool>)
    ensures CountTrue(flags) == |set i | 0 <= i < |flags| && flags[i]|
  {
    var marked := set i | 0 <= i < |flags| && flags[i];
    if flags == [] {
      assert marked == {};
    } else {
      var front, n := flags[..|flags| - 1], |flags| - 1;
      var before := set i | 0 <= i < |front| && front[i];
      CountTrueExact(front);
      assert n !in before && marked == before + if flags[n] then {n} else {};
    }
  }

  lemma {:induction false} NoneTrue(flags: seq<bool>)
    ensures CountTrue(flags) == 0 <==> forall i :: 0 <= i < |flags| ==> !flags[i]
  {
    if flags != [] {
      NoneTrue(flags[..|flags| - 1]);
    }
  }

  /** One page's detail, read back as rows and fields. */
  lemma PageDetailMeaning(items: Option<seq<Record>>, expected: seq<Record>, sc: Schema)
    requires ValidSchema(sc)
    ensures var d := PageDetail(items, expected, sc);
      && (d.countMatch && d.minItem >= 0.98 <==> Reproduces(items, expected, sc, |sc.fields| / 50))
      && (d.countMatch ==> d.mean <= 1.0)
      && (d.countMatch ==> (d.mean >= 1.0 <==> Reproduces(items, expected, sc, 0)))
  {
    if items.Some? && |items.value| == |expected| {
      MinItemInFields(items.value, expected, sc);
    }
  }

  lemma WithinMore(actual: seq<Record>, oracle: seq<Record>, sc: Schema, slack: nat)
    requires PairsWithin(actual, oracle, sc, 0)
    ensures PairsWithin(actual, oracle, sc, slack)
  {
  }

  /** A candidate passes exactly when it is promotable. */
  lemma PassMeansPromotable(src: Source, b: Bench)
    requires ValidSchema(b.sc)
    ensures ScoreOf(src, b, AGREEMENT_BAR).passed <==> Promotable(src, b)
  {
    if ScoreOf(src, b, AGREEMENT_BAR).passed {
      PassedPages(src, b);
    }
    if Promotable(src, b) {
      PromotablePasses(src, b);
    }
  }

  lemma PassedSample(src: Source, b: Bench, i: nat)
    requires ValidSchema(b.sc) && ScoreOf(src, b, AGREEMENT_BAR).passed && i < b.SampleCount()
    ensures Reproduces(b.OnSample(src, i), b.oracles[i], b.sc, |b.sc.fields| / 50)
    ensures Accepted(b.OnSample(src, i).value, b.sc)
  {
    var details := SampleDetails(src, b) + FixtureDetails(src, b);
    assert details[i] == SampleDetails(src, b)[i];
    MinIsLeast(MinItems(details), AGREEMENT_BAR);
    assert MinItems(details)[i] >= AGREEMENT_BAR;
    assert SchemaFlags(src, b)[i];
    PageDetailMeaning(b.OnSample(src, i), b.oracles[i], b.sc);
  }

  lemma FixtureCounts(src: Source, b: Bench, i: nat)
    requires AllCountsMatch(SampleDetails(src, b) + FixtureDetails(src, b)) && i < |b.fixtures|
    ensures FixtureDetails(src, b)[i].countMatch
  {
    assert (SampleDetails(src, b) + FixtureDetails(src, b))[b.SampleCount() + i] == FixtureDetails(src, b)[i];
  }

  lemma PassedFixture(src: Source, b: Bench, i: nat)
    requires ValidSchema(b.sc) && ScoreOf(src, b, AGREEMENT_BAR).passed && i < |b.fixtures|
    ensures Reproduces(b.OnFixture(src, i), b.fixtures[i].expected, b.sc, 0)
  {
    var f := FixtureDetails(src, b);
    forall k | 0 <= k < |f| ensures f[k].mean <= 1.0 && f[k].countMatch {
      FixtureCounts(src, b, k);
      PageDetailMeaning(b.OnFixture(src, k), b.fixtures[k].expected, b.sc);
    }
    MeanIsOne(Means(f));
    assert Means(f)[i] == 1.0;
    PageDetailMeaning(b.OnFixture(src, i), b.fixtures[i].expected, b.sc);
  }

  lemma PassedPages(src: Source, b: Bench)
    requires ValidSchema(b.sc) && ScoreOf(src, b, AGREEMENT_BAR).passed
    ensures Promotable(src, b)
  {
    assert SchemaFlags(src, b) != [];
    forall i | 0 <= i < b.SampleCount()
      ensures Reproduces(b.OnSample(src, i), b.oracles[i], b.sc, |b.sc.fields| / 50)
      ensures Accepted(b.OnSample(src, i).value, b.sc)
    {
      PassedSample(src, b, i);
    }
    forall i | 0 <= i < |b.fixtures|
      ensures Reproduces(b.OnFixture(src, i), b.fixtures[i].expected, b.sc, 0)
    {
      PassedFixture(src, b, i);
    }
  }

  lemma PromotableDetails(src: Source, b: Bench, i: nat)
    requires ValidSchema(b.sc) && Promotable(src, b)
    requires i < |SampleDetails(src, b) + FixtureDetails(src, b)|
    ensures var d := (SampleDetails(src, b) + FixtureDetails(src, b))[i];
      && d.countMatch && d.minItem >= AGREEMENT_BAR
      && (i >= b.SampleCount() ==> d.mean == 1.0)
  {
    var n := b.SampleCount();
    if i < n {
      PageDetailMeaning(b.OnSample(src, i), b.oracles[i], b.sc);
    } else {
      var k := i - n;
      WithinMore(b.OnFixture(src, k).value, b.fixtures[k].expected, b.sc, |b.sc.fields| / 50);
      PageDetailMeaning(b.OnFixture(src, k), b.fixtures[k].expected, b.sc);
    }
  }

  lemma PromotableFixture(src: Source, b: Bench, i: nat)
    requires ValidSchema(b.sc) && Promotable(src, b) && i < |b.fixtures|
    ensures Means(FixtureDetails(src, b))[i] == 1.0
  {
    PageDetailMeaning(b.OnFixture(src, i), b.fixtures[i].expected, b.sc);
  }

  lemma PromotableFixtures(src: Source, b: Bench)
    requires ValidSchema(b.sc) && Promotable(src, b)
    ensures Mean(Means(FixtureDetails(src, b))) >= FIXTURE_BAR
  {
    var means := Means(FixtureDetails(src, b));
    forall i | 0 <= i < |means| ensures means[i] == 1.0 {
      PromotableFixture(src, b, i);
    }
    PerfectMean(means);
  }

  lemma PerfectMean(xs: seq<real>)
    requires forall i :: 0 <= i < |xs| ==> xs[i] == 1.0
    ensures Mean(xs) >= FIXTURE_BAR
  {
    MeanIsOne(xs);
  }

  lemma PromotableMinimum(src: Source, b: Bench)
    requires ValidSchema(b.sc) && Promotable(src, b)
    ensures var details := SampleDetails(src, b) + FixtureDetails(src, b);
      && AllCountsMatch(details)
      && (details != [] ==> Min(MinItems(details)) >= AGREEMENT_BAR)
  {
    var details := SampleDetails(src, b) + FixtureDetails(src, b);
    forall i | 0 <= i < |details|
      ensures details[i].countMatch && MinItems(details)[i] >= AGREEMENT_BAR
    {
      PromotableDetails(src, b, i);
    }
    if details != [] {
      MinIsLeast(MinItems(details), AGREEMENT_BAR);
    }
  }

  lemma PromotableRuns(src: Source, b: Bench)
    requires Promotable(src, b)
    ensures SchemaFlags(src, b) != [] && AllTrue(SchemaFlags(src, b))
    ensures CountTrue(Crashes(src, b)) == 0
  {
    assert |SchemaFlags(src, b)| > 0;
    NoneTrue(Crashes(src, b));
  }

  lemma PassParts(src: Source, b: Bench, bar: real)
    requires SchemaFlags(src, b) != [] && AllTrue(SchemaFlags(src, b))
    requires CountTrue(Crashes(src, b)) == 0
    requires Mean(Means(FixtureDetails(src, b))) >= FIXTURE_BAR
    requires var details := SampleDetails(src, b) + FixtureDetails(src, b);
      AllCountsMatch(details) && (details != [] ==> Min(MinItems(details)) >= bar) && bar <= 1.0
    ensures ScoreOf(src, b, bar).passed
  {
  }

  lemma PromotablePasses(src: Source, b: Bench)
    requires ValidSchema(b.sc) && Promotable(src, b)
    ensures ScoreOf(src, b, AGREEMENT_BAR).passed
  {
    PromotableFixtures(src, b);
    PromotableMinimum(src, b);
    PromotableRuns(src, b);
    PassParts(src, b, AGREEMENT_BAR);
  }

  /** On every sample a promotable candidate's rows match the oracle's one to one,
      each pair differing on at most one field in fifty. */
  lemma SampleRowsCorrespond(src: Source, b: Bench, i: nat) returns (row: seq<nat>)
    requires ValidSchema(b.sc) && ScoreOf(src, b, AGREEMENT_BAR).passed && i < b.SampleCount()
    ensures b.OnSample(src, i).Some?
    ensures IsPermutation(row, |b.oracles[i]|) && |b.OnSample(src, i).value| == |b.oracles[i]|
    ensures forall j :: 0 <= j < |b.oracles[i]| ==>
      |Disagreements(b.OnSample(src, i).value[row[j]], b.oracles[i][j], b.sc)| <= |b.sc.fields| / 50
  {
    PassMeansPromotable(src, b);
    row := RowsCorrespond(b.OnSample(src, i).value, b.oracles[i], b.sc, |b.sc.fields| / 50);
  }

  /** On every fixture the match is exact, whatever the number of fields. */
  lemma FixtureRowsAgree(src: Source, b: Bench, i: nat) returns (row: seq<nat>)
    requires ValidSchema(b.sc) && ScoreOf(src, b, AGREEMENT_BAR).passed && i < |b.fixtures|
    ensures b.OnFixture(src, i).Some?
    ensures var rows, expected := b.OnFixture(src, i).value, b.fixtures[i].expected;
      && IsPermutation(row, |expected|) && |rows| == |expected|
      && forall j, f :: 0 <= j < |expected| && f in b.sc.fields ==>
           FieldAgrees(rows[row[j]], expected[j], f, b.sc.volatile)
  {
    PassMeansPromotable(src, b);
    var rows, expected := b.OnFixture(src, i).value, b.fixtures[i].expected;
    row := RowsCorrespond(rows, expected, b.sc, 0);
    forall j, f | 0 <= j < |expected| && f in b.sc.fields
      ensures FieldAgrees(rows[row[j]], expected[j], f, b.sc.volatile)
    {
      var d := Disagreements(rows[row[j]], expected[j], b.sc);
      assert |d| == 0;
      assert f !in d;
    }
  }

  lemma PerfectPage(src: Source, b: Bench, i: nat)
    requires ValidSchema(b.sc) && |b.sc.fields| <= 49 && Promotable(src, b)
    requires i < |SampleDetails(src, b) + FixtureDetails(src, b)|
    ensures (SampleDetails(src, b) + FixtureDetails(src, b))[i].mean == 1.0
  {
    var n := b.SampleCount();
    if i < n {
      PageDetailMeaning(b.OnSample(src, i), b.oracles[i], b.sc);
    } else {
      PageDetailMeaning(b.OnFixture(src, i - n), b.fixtures[i - n].expected, b.sc);
    }
  }

  lemma PromotableIsPerfect(src: Source, b: Bench)
    requires ValidSchema(b.sc) && |b.sc.fields| <= 49 && Promotable(src, b)
    ensures Mean(Means(SampleDetails(src, b) + FixtureDetails(src, b))) == 1.0
  {
    var details := SampleDetails(src, b) + FixtureDetails(src, b);
    forall i | 0 <= i < |details| ensures Means(details)[i] == 1.0 {
      PerfectPage(src, b, i);
    }
    MeanIsOne(Means(details));
  }

  /** With at most 49 fields the reported mean of a passing candidate is exactly 1. */
  lemma PassIsPerfect(src: Source, b: Bench)
    requires ValidSchema(b.sc) && |b.sc.fields| <= 49 && ScoreOf(src, b, AGREEMENT_BAR).passed
    ensures ScoreOf(src, b, AGREEMENT_BAR).agreement == 1.0
  {
    PassMeansPromotable(src, b);
    PromotableIsPerfect(src, b);
  }

  // ---- the winner ----

  function Scores(candidates: seq<Source>, b: Bench, bar: real): (r: seq<Score>)
    ensures |r| == |candidates|
  {
    seq(|candidates|, i requires 0 <= i < |candidates| => ScoreOf(candidates[i], b, bar))
  }

  function Passing(scores: seq<Score>): seq<Score> {
    if scores == [] then []
    else
      var n := |scores| - 1;
      Passing(scores[..n]) + if scores[n].passed then [scores[n]] else []
  }

  /** `max(scores, key=oracle_agreement)`: a later equal score does not replace an earlier one. */
  function Highest(scores: seq<Score>): Score
    requires scores != []
  {
    if |scores| == 1 then scores[0]
    else
      var n := |scores| - 1;
      var best := Highest(scores[..n]);
      if scores[n].agreement > best.agreement then scores[n] else best
  }

  /** `best`, as `run_gauntlet` computes it. */
  function BestOf(scores: seq<Score>): Option<Score> {
    if Passing(scores) == [] then None else Some(Highest(Passing(scores)))
  }

  /** `run_gauntlet`. */
  function RunGauntlet(candidates: seq<Source>, b: Bench, bar: real): (Option<Score>, seq<Score>) {
    var all := Scores(candidates, b, bar);
    (BestOf(all), all)
  }

  /** `run_gauntlet`, scoring each candidate in turn. */
  method JudgeCandidates(candidates: seq<Source>, b: Bench, bar: real)
    returns (best: Option<Score>, all: seq<Score>)
    ensures (best, all) == RunGauntlet(candidates, b, bar)
  {
    ghost var want := Scores(candidates, b, bar);
    all := [];
    for i := 0 to |candidates|
      invariant all == want[..i]
    {
      var score := ScoreCandidate(candidates[i], b, bar);
      assert score == want[i];
      all := all + [score];
    }
    assert all == want;
    best := BestOf(all);
  }

  /** Scanning one more score: it is the best so far, or the best stands. */
  function Better(best: Option<Score>, last: Score): Option<Score> {
    if last.passed && (best.None? || last.agreement > best.value.agreement) then Some(last) else best
  }

  lemma BestOfOneMore(before: seq<Score>, last: Score)
    ensures BestOf(before + [last]) == Better(BestOf(before), last)
  {
    var all := before + [last];
    assert all[..|before|] == before;
    if last.passed {
      assert Passing(all) == Passing(before) + [last];
      HighestOfOneMore(Passing(before), last);
    } else {
      assert Passing(all) == Passing(before);
    }
  }

  lemma HighestOfOneMore(before: seq<Score>, last: Score)
    ensures Highest(before + [last]) ==
      if before == [] || last.agreement > Highest(before).agreement then last else Highest(before)
  {
    assert (before + [last])[..|before|] == before;
  }

  /** `k` is the first of the best passing scores. */
  ghost predicate FirstBest(scores: seq<Score>, k: nat) {
    && k < |scores| && scores[k].passed
    && (forall j :: 0 <= j < |scores| && scores[j].passed ==> scores[j].agreement <= scores[k].agreement)
    && (forall j :: 0 <= j < k && scores[j].passed ==> scores[j].agreement < scores[k].agreement)
  }

  /** `best` is the score at `k`, the first best; or there is none, and nothing passed. */
  ghost predicate Settles(scores: seq<Score>, k: nat, best: Option<Score>) {
    match best
    case None => forall j :: 0 <= j < |scores| ==> !scores[j].passed
    case Some(score) => FirstBest(scores, k) && score == scores[k]
  }

  lemma SettlesNext(before: seq<Score>, k: nat, best: Option<Score>, last: Score)
    requires Settles(before, k, best)
    ensures Settles(before + [last], if Better(best, last) == best then k else |before|, Better(best, last))
  {
    var all := before + [last];
    assert forall j :: 0 <= j < |before| ==> all[j] == before[j];
  }

  /** The winner is the first passing candidate of highest agreement, and there is none only
      when nothing passed. */
  lemma {:induction false} WinnerIsFirstBest(scores: seq<Score>) returns (k: nat)
    ensures Settles(scores, k, BestOf(scores))
  {
    k := 0;
    if scores != [] {
      var n := |scores| - 1;
      k := WinnerIsFirstBest(scores[..n]);
      assert scores == scores[..n] + [scores[n]];
      BestOfOneMore(scores[..n], scores[n]);
      SettlesNext(scores[..n], k, BestOf(scores[..n]), scores[n]);
      k := if BestOf(scores) == BestOf(scores[..n]) then k else n;
    }
  }

  /** With at most 49 fields the winner is simply the first candidate that passes. */
  lemma FirstPassingWins(candidates: seq<Source>, b: Bench) returns (k: nat)
    requires ValidSchema(b.sc) && |b.sc.fields| <= 49
    ensures var best := RunGauntlet(candidates, b, AGREEMENT_BAR).0;
      if best.None? then forall j :: 0 <= j < |candidates| ==> !Promotable(candidates[j], b)
      else
        && k < |candidates| && best.value.source == candidates[k]
        && Promotable(candidates[k], b)
        && forall j :: 0 <= j < k ==> !Promotable(candidates[j], b)
  {
    var all := Scores(candidates, b, AGREEMENT_BAR);
    k := WinnerIsFirstBest(all);
    forall j | 0 <= j < |candidates|
      ensures all[j].passed <==> Promotable(candidates[j], b)
      ensures all[j].passed ==> all[j].agreement == 1.0
    {
      PassMeansPromotable(candidates[j], b);
      if all[j].passed {
        PassIsPerfect(candidates[j], b);
      }
    }
  }
}
