// The golden fixtures a promotion leaves (crawloop/loop/promote.py) and the gauntlet that replays
// them (crawloop/loop/gauntlet.py): exactly when a promoted source passes its own.
module OwnFixtures {
  import opened Wrappers
  import opened Pages
  import opened Values
  import opened FieldEquality
  import opened Averages
  import opened Validator
  import opened Validation
  import opened Gauntlet
  import opened Hybrid

  /** `save_fixtures`: each usable sample's page, with its oracle as what to expect. */
  function SavedFixtures(b: Bench): (r: seq<Fixture>)
    ensures |r| == b.SampleCount()
  {
    seq(b.SampleCount(), i requires 0 <= i < b.SampleCount() => Fixture(b.samples[i].html, b.oracles[i]))
  }

  /** What is on disk afterwards: the fixtures saved, and some of those from before. */
  ghost predicate LeftBy(b: Bench, fixtures: seq<Fixture>) {
    && (forall f :: f in SavedFixtures(b) ==> f in fixtures)
    && (forall f :: f in fixtures ==> f in SavedFixtures(b) || f in b.fixtures)
  }

  /** Run at the sandbox's own URL, the source gives every sample's oracle on all fields. */
  ghost predicate ReplaysExactly(src: Source, b: Bench) {
    forall i :: 0 <= i < b.SampleCount() ==>
      Reproduces(b.run(src, b.samples[i].html, SANDBOX_URL), b.oracles[i], b.sc, 0)
  }

  ghost predicate FixtureHolds(src: Source, b: Bench, f: Fixture) {
    Reproduces(b.run(src, f.html, SANDBOX_URL), f.expected, b.sc, 0)
  }

  /** Being promotable depends on the fixtures only through each of them holding. */
  lemma PromotableAgainst(src: Source, b: Bench, fixtures: seq<Fixture>)
    requires Promotable(src, b)
    ensures Promotable(src, b.(fixtures := fixtures)) <==> forall f :: f in fixtures ==> FixtureHolds(src, b, f)
  {
    var after := b.(fixtures := fixtures);
    assert forall i :: 0 <= i < b.SampleCount() ==> after.OnSample(src, i) == b.OnSample(src, i);
    assert forall i :: 0 <= i < |fixtures| ==> after.OnFixture(src, i) == b.run(src, fixtures[i].html, SANDBOX_URL);
    if Promotable(src, after) {
      forall f | f in fixtures ensures FixtureHolds(src, b, f) {
        var i :| 0 <= i < |fixtures| && fixtures[i] == f;
        assert Reproduces(after.OnFixture(src, i), fixtures[i].expected, b.sc, 0);
      }
    }
    if forall f :: f in fixtures ==> FixtureHolds(src, b, f) {
      assert forall i :: 0 <= i < |fixtures| ==> FixtureHolds(src, b, fixtures[i]);
    }
  }

  /** A promoted source stays promotable against the fixtures its promotion leaves exactly when it
      replays its own samples exactly. */
  lemma OwnFixturesExactly(src: Source, b: Bench, fixtures: seq<Fixture>)
    requires Promotable(src, b) && LeftBy(b, fixtures)
    ensures Promotable(src, b.(fixtures := fixtures)) <==> ReplaysExactly(src, b)
  {
    var saved := SavedFixtures(b);
    PromotableAgainst(src, b, fixtures);
    if Promotable(src, b.(fixtures := fixtures)) {
      forall i | 0 <= i < b.SampleCount()
        ensures Reproduces(b.run(src, b.samples[i].html, SANDBOX_URL), b.oracles[i], b.sc, 0)
      {
        assert saved[i] in fixtures;
        assert FixtureHolds(src, b, saved[i]);
      }
    }
    if ReplaysExactly(src, b) {
      forall f | f in fixtures ensures FixtureHolds(src, b, f) {
        if f in saved {
          var i :| 0 <= i < |saved| && saved[i] == f;
        } else {
          var i :| 0 <= i < |b.fixtures| && b.fixtures[i] == f;
          assert Reproduces(b.OnFixture(src, i), b.fixtures[i].expected, b.sc, 0);
        }
      }
    }
  }

  /** What the source yields does not depend on the URL it is told. */
  ghost predicate IgnoresUrl(src: Source, run: Sandbox) {
    forall html, u, v :: run(src, html, u) == run(src, html, v)
  }

  /** A promotable candidate's reported mean is 1 exactly when it reproduces every sample on all fields. */
  lemma PerfectMeans(src: Source, b: Bench)
    requires ValidSchema(b.sc) && Promotable(src, b)
    ensures ScoreOf(src, b, AGREEMENT_BAR).agreement == 1.0 <==>
      forall i :: 0 <= i < b.SampleCount() ==> Reproduces(b.OnSample(src, i), b.oracles[i], b.sc, 0)
  {
    var details := SampleDetails(src, b) + FixtureDetails(src, b);
    var means := Means(details);
    forall i | 0 <= i < |means| ensures means[i] <= 1.0 && (i >= b.SampleCount() ==> means[i] == 1.0) {
      PageMeanAtMostOne(src, b, i);
    }
    MeanIsOne(means);
    forall i | 0 <= i < b.SampleCount()
      ensures means[i] == 1.0 <==> Reproduces(b.OnSample(src, i), b.oracles[i], b.sc, 0)
    {
      PageMeanAtMostOne(src, b, i);
      PageDetailMeaning(b.OnSample(src, i), b.oracles[i], b.sc);
    }
  }

  lemma PageMeanAtMostOne(src: Source, b: Bench, i: nat)
    requires ValidSchema(b.sc) && Promotable(src, b)
    requires i < |SampleDetails(src, b) + FixtureDetails(src, b)|
    ensures var d := (SampleDetails(src, b) + FixtureDetails(src, b))[i];
      d.countMatch && d.mean <= 1.0 && (i >= b.SampleCount() ==> d.mean == 1.0)
  {
    PromotableDetails(src, b, i);
    if i < b.SampleCount() {
      PageDetailMeaning(b.OnSample(src, i), b.oracles[i], b.sc);
    }
  }

  lemma UrlUnseen(src: Source, b: Bench)
    requires IgnoresUrl(src, b.run)
    ensures ReplaysExactly(src, b) <==>
      forall i :: 0 <= i < b.SampleCount() ==> Reproduces(b.OnSample(src, i), b.oracles[i], b.sc, 0)
  {
    assert forall i :: 0 <= i < b.SampleCount() ==> b.OnSample(src, i) == b.run(src, b.samples[i].html, SANDBOX_URL);
  }

  /** For a source that ignores the URL that is: exactly when the mean it was promoted with is 1. */
  lemma OwnFixturesNeedPerfection(src: Source, b: Bench, fixtures: seq<Fixture>)
    requires ValidSchema(b.sc) && Promotable(src, b) && IgnoresUrl(src, b.run) && LeftBy(b, fixtures)
    ensures Promotable(src, b.(fixtures := fixtures)) <==> ScoreOf(src, b, AGREEMENT_BAR).agreement == 1.0
  {
    OwnFixturesExactly(src, b, fixtures);
    PerfectMeans(src, b);
    UrlUnseen(src, b);
  }

  /** Which with at most 49 fields it always is, against any of these fixtures. */
  lemma StaysPromotable(src: Source, b: Bench, fixtures: seq<Fixture>)
    requires |b.sc.fields| <= 49 && Promotable(src, b) && IgnoresUrl(src, b.run)
    requires forall f :: f in fixtures ==> f in SavedFixtures(b) || f in b.fixtures
    ensures Promotable(src, b.(fixtures := fixtures))
  {
    var saved := SavedFixtures(b);
    PromotableAgainst(src, b, fixtures);
    PromotableAgainst(src, b, b.fixtures);
    forall f | f in fixtures ensures FixtureHolds(src, b, f) {
      if f in saved {
        var i :| 0 <= i < |saved| && saved[i] == f;
        assert b.OnSample(src, i) == b.run(src, f.html, SANDBOX_URL);
      }
    }
  }

  lemma BlankPairDiffers(n: nat)
    requires n > 0
    ensures var sc := NumberedSchema(n);
      !PairsWithin([FullRow(sc) - {sc.fields[n - 1]}], [FullRow(sc)], sc, 0)
  {
    var sc := NumberedSchema(n);
    NumberedSchemaValid(n);
    var full, last := FullRow(sc), sc.fields[n - 1];
    var blank := full - {last};
    var pairs := AlignedPairs([blank], [full], AlignKey(sc));
    assert pairs == [(blank, full)] && pairs[0] == (blank, full);
    assert last in sc.fields && Get(blank, last) == Null && Get(full, last) == Str("x");
    assert last in Disagreements(blank, full, sc);
    assert |Disagreements(pairs[0].0, pairs[0].1, sc)| > 0;
  }

  /** From 50 fields on it need not be: a promotable source that ignores the URL and fails its own
      fixture. */
  lemma FiftyFieldsCanFail(n: nat)
    requires n >= 50
    ensures var b := BlankBench(n);
      && ValidSchema(b.sc) && |b.sc.fields| == n
      && Promotable("s", b) && IgnoresUrl("s", b.run)
      && !Promotable("s", b.(fixtures := SavedFixtures(b)))
  {
    var b := BlankBench(n);
    NumberedSchemaValid(n);
    BlankPasses(n);
    PassMeansPromotable("s", b);
    OwnFixturesExactly("s", b, SavedFixtures(b));
    BlankPairDiffers(n);
    assert b.run("s", b.samples[0].html, SANDBOX_URL) == Some([FullRow(b.sc) - {b.sc.fields[n - 1]}]);
  }

  /** One page with one flag, and a source that looks at the URL it is told to fill it. */
  function ByUrlBench(fixtures: seq<Fixture>): Bench {
    Bench([Page("u", "h")], [[map["new" := Bool(true)]]], fixtures, Schema(["new"], {}, {}, _ => true),
          (_, _, url) => Some([map["new" := Bool(url == "u")]]))
  }

  lemma OneFlag(flag: bool)
    ensures Reproduces(Some([map["new" := Bool(flag)]]), [map["new" := Bool(true)]], ByUrlBench([]).sc, 0) <==> flag
  {
    var sc, row, want: Record := ByUrlBench([]).sc, map["new" := Bool(flag)], map["new" := Bool(true)];
    assert AlignKey(sc) == None;
    var pairs := AlignedPairs([row], [want], AlignKey(sc));
    assert pairs == [(row, want)] && pairs[0] == (row, want);
    if flag {
      assert Disagreements(row, want, sc) == {};
    } else {
      assert sc.fields[0] == "new" && "new" in Disagreements(row, want, sc);
      assert |Disagreements(pairs[0].0, pairs[0].1, sc)| > 0;
      assert !PairsWithin([row], [want], sc, 0);
    }
  }

  /** A source that reads the URL need not either: this one is promotable, and no longer is against its own fixture. */
  lemma FailsItsOwnFixture()
    ensures Promotable("s", ByUrlBench([]))
    ensures SavedFixtures(ByUrlBench([])) == [Fixture("h", [map["new" := Bool(true)]])]
    ensures !Promotable("s", ByUrlBench(SavedFixtures(ByUrlBench([]))))
  {
    var b := ByUrlBench([]);
    OneFlag(true);
    OneFlag(false);
    assert b.OnSample("s", 0) == Some([map["new" := Bool(true)]]);
    var after := ByUrlBench(SavedFixtures(b));
    assert after.OnFixture("s", 0) == Some([map["new" := Bool(false)]]);
    assert after.fixtures[0].expected == [map["new" := Bool(true)]];
  }
}
