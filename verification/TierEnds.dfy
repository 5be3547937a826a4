// How the rounds of one tier end (crawloop/loop/driver.py), in terms of what is offered in each: the
// two deterministic sources in the first, and the gate-passing code among a round's answers.
module TierEnds {
  import opened Wrappers
  import opened Positions
  import opened Pages
  import opened Values
  import opened Validator
  import opened Failures
  import opened Gauntlet
  import opened Llm
  import opened LoopCourse

  // ---- what is offered ----

  /** What answers number `start` to `start + k - 1` offer. */
  ghost function CodeOffers(answers: Answers, start: nat, codeOf: string -> Option<Source>, k: nat): (r: seq<Option<Source>>)
    ensures |r| == k
  {
    seq(k, j requires 0 <= j < k => if answers(start + j).Answer? then codeOf(answers(start + j).text) else None)
  }

  ghost predicate AllAnswer(answers: Answers, start: nat, k: nat) {
    forall j: nat :: start <= j < start + k ==> answers(j).Answer?
  }

  /** The sources among the offers, in order. */
  function Present(offers: seq<Option<Source>>): seq<Source> {
    if offers == [] then [] else Present(offers[..|offers| - 1]) + Listed(offers[|offers| - 1])
  }

  lemma {:induction false} PresentConcat(a: seq<Option<Source>>, b: seq<Option<Source>>)
    ensures Present(a + b) == Present(a) + Present(b)
  {
    if b == [] {
      assert a + b == a;
    } else {
      var front := b[..|b| - 1];
      assert (a + b)[..|a + b| - 1] == a + front;
      PresentConcat(a, front);
    }
  }

  lemma {:induction false} KeptExact(answers: Answers, start: nat, codeOf: string -> Option<Source>, k: nat)
    ensures Kept(answers, codeOf, start, k) ==
      if AllAnswer(answers, start, k) then Some(Present(CodeOffers(answers, start, codeOf, k))) else None
  {
    if k > 0 {
      KeptExact(answers, start, codeOf, k - 1);
      assert CodeOffers(answers, start, codeOf, k)[..k - 1] == CodeOffers(answers, start, codeOf, k - 1);
      assert AllAnswer(answers, start, k) <==> AllAnswer(answers, start, k - 1) && answers(start + k - 1).Answer?;
    }
  }

  ghost predicate IsThere(offer: Option<Source>) {
    offer.Some?
  }

  ghost predicate StandAt(sources: seq<Source>, offers: seq<Option<Source>>, at: seq<nat>) {
    && |at| == |sources|
    && forall i :: 0 <= i < |at| ==> at[i] < |offers| && offers[at[i]] == Some(sources[i])
  }

  lemma StandMore(sources: seq<Source>, offers: seq<Option<Source>>, last: Option<Source>, at: seq<nat>)
    requires StandAt(sources, offers, at)
    ensures StandAt(sources + Listed(last), offers + [last], if last.Some? then at + [|offers|] else at)
  {
  }

  /** Where the sources stand among the offers. */
  lemma {:induction false} PresentAt(offers: seq<Option<Source>>) returns (at: seq<nat>)
    ensures Lists(offers, IsThere, at) && StandAt(Present(offers), offers, at)
  {
    at := [];
    if offers != [] {
      var front, last := offers[..|offers| - 1], offers[|offers| - 1];
      var before := PresentAt(front);
      assert offers == front + [last];
      ListsMore(front, last, IsThere, before);
      StandMore(Present(front), front, last, before);
      at := if last.Some? then before + [|front|] else before;
    }
  }

  /** An offer that is promotable. */
  ghost predicate Good(offer: Option<Source>, b: Bench) {
    offer.Some? && Promotable(offer.value, b)
  }

  ghost predicate NoneGood(offers: seq<Option<Source>>, b: Bench) {
    forall i :: 0 <= i < |offers| ==> !Good(offers[i], b)
  }

  /** Offer `i` is the first good one. */
  ghost predicate FirstGood(offers: seq<Option<Source>>, b: Bench, i: nat) {
    i < |offers| && Good(offers[i], b) && forall j :: 0 <= j < i ==> !Good(offers[j], b)
  }

  lemma NoneGoodFrom(sources: seq<Source>, offers: seq<Option<Source>>, at: seq<nat>, b: Bench)
    requires Lists(offers, IsThere, at) && StandAt(sources, offers, at)
    requires forall i :: 0 <= i < |sources| ==> !Promotable(sources[i], b)
    ensures NoneGood(offers, b)
  {
    forall j | 0 <= j < |offers| ensures !Good(offers[j], b) {
      if IsThere(offers[j]) {
        var i :| 0 <= i < |at| && at[i] == j;
        assert offers[at[i]] == Some(sources[i]);
      }
    }
  }

  lemma FirstGoodFrom(sources: seq<Source>, offers: seq<Option<Source>>, at: seq<nat>, b: Bench, k: nat)
    requires Lists(offers, IsThere, at) && StandAt(sources, offers, at)
    requires k < |sources| && Promotable(sources[k], b)
    requires forall i :: 0 <= i < k ==> !Promotable(sources[i], b)
    ensures FirstGood(offers, b, at[k]) && offers[at[k]] == Some(sources[k])
  {
    assert offers[at[k]] == Some(sources[k]);
    forall j | 0 <= j < at[k] ensures !Good(offers[j], b) {
      if IsThere(offers[j]) {
        var i :| 0 <= i < |at| && at[i] == j;
        assert offers[at[i]] == Some(sources[i]);
      }
    }
  }

  /** With at most 49 fields the gauntlet picks the first good offer. */
  lemma PicksFirstGood(offers: seq<Option<Source>>, b: Bench) returns (i: nat)
    requires ValidSchema(b.sc) && |b.sc.fields| <= 49
    ensures var winner := WinnerAmong(Present(offers), b, AGREEMENT_BAR);
      if winner.None? then NoneGood(offers, b) else FirstGood(offers, b, i) && offers[i] == winner
  {
    var at := PresentAt(offers);
    var candidates := Present(offers);
    var k := FirstPassingWins(candidates, b);
    i := 0;
    if WinnerAmong(candidates, b, AGREEMENT_BAR).Some? {
      FirstGoodFrom(candidates, offers, at, b, k);
      i := at[k];
    } else {
      NoneGoodFrom(candidates, offers, at, b);
    }
  }

  // ---- the rounds ----

  /** Rounds judged by any judge. */
  datatype Bout = Bout(
    answers: Answers, from: nat, judge: Judge, codeOf: string -> Option<Source>, cfg: Config, deterministic: seq<Source>)
  {
    /** The number of the first answer of round `r`. */
    ghost function Start(r: nat): nat
      requires r >= 1
    {
      if r == 1 then from else Start(r - 1) + cfg.k
    }

    ghost function End(r: nat): RoundEnd
      requires r >= 1
    {
      RoundOf(answers, Start(r), judge, codeOf, cfg, deterministic, r)
    }

    /** The rounds from number `r` on. */
    ghost function OnFrom(r: nat): Course
      requires r >= 1
    {
      Rounds(answers, Start(r), judge, codeOf, cfg, deterministic, r)
    }

    lemma OnFromNext(r: nat)
      requires r >= 1
      ensures OnFrom(r) ==
        if r > cfg.maxRounds then Ends(MaxRoundsExhausted, cfg.maxRounds)
        else match End(r)
          case Broke => Raises(ProviderFailure)
          case Won(source) => Wins(r, source)
          case Lost => OnFrom(r + 1)
    {
    }

    ghost predicate AllLost(r: nat) {
      forall q: nat :: 1 <= q < r ==> End(q).Lost?
    }

    /** The first round that is not lost, or the one after the last. */
    lemma {:induction false} LastRound() returns (r: nat)
      ensures 1 <= r <= cfg.maxRounds + 1 && AllLost(r) && OnFrom(1) == OnFrom(r)
      ensures r <= cfg.maxRounds ==> !End(r).Lost?
    {
      r := 1;
      while r <= cfg.maxRounds && End(r).Lost?
        invariant 1 <= r <= cfg.maxRounds + 1 && AllLost(r) && OnFrom(1) == OnFrom(r)
        decreases cfg.maxRounds + 1 - r
      {
        OnFromNext(r);
        r := r + 1;
      }
    }

    /** The first round that is not lost decides. */
    lemma FirstDecides(r: nat, source: Source)
      requires r >= 1
      ensures OnFrom(1) == Ends(MaxRoundsExhausted, cfg.maxRounds) <==> AllLost(cfg.maxRounds + 1)
      ensures OnFrom(1) == Wins(r, source) <==> r <= cfg.maxRounds && AllLost(r) && End(r) == RoundEnd.Won(source)
      ensures OnFrom(1) == Raises(ProviderFailure) <==>
        exists q: nat :: 1 <= q <= cfg.maxRounds && AllLost(q) && End(q).Broke?
    {
      var last := LastRound();
      OnFromNext(last);
      forall q: nat | 1 <= q <= cfg.maxRounds && AllLost(q) && !End(q).Lost? ensures q == last {
      }
    }
  }

  /** A tier that has its oracles. */
  datatype Play = Play(
    answers: Answers, asked: Asked, sc: Schema, tools: Tools, cfg: Config, fixtures: seq<Fixture>)
  {
    /** What the gauntlet judges on. */
    ghost function Judged(): Bench {
      Bench(asked.samples, asked.oracles, fixtures, sc, tools.run)
    }

    /** The model is asked for a field map of the first sample when that has an island. */
    ghost predicate AsksForMap() {
      asked.samples != [] && tools.hasIsland(asked.samples[0])
    }

    /** The number of the first answer of round `r`. */
    ghost function RoundStart(r: nat): nat
      requires r >= 1
    {
      if r == 1 then asked.next + (if AsksForMap() then 1 else 0) else RoundStart(r - 1) + cfg.k
    }

    /** The deterministic sources: the value-path one, then the field map's. */
    ghost function Deterministic(): seq<Option<Source>> {
      [tools.valuePath(asked.samples, asked.oracles),
       if AsksForMap() && answers(asked.next).Answer? then
         tools.pathMap(answers(asked.next).text, asked.samples[0], if asked.oracles == [] then [] else asked.oracles[0])
       else None]
    }

    /** What is offered in round `r`. */
    ghost function Offers(r: nat): seq<Option<Source>>
      requires r >= 1
    {
      (if r == 1 then Deterministic() else []) + CodeOffers(answers, RoundStart(r), tools.codeOf, cfg.k)
    }

    ghost predicate Breaks(r: nat)
      requires r >= 1
    {
      !AllAnswer(answers, RoundStart(r), cfg.k)
    }

    /** No call of round `r` raises, and nothing good is offered in it. */
    ghost predicate Loses(r: nat)
      requires r >= 1
    {
      !Breaks(r) && NoneGood(Offers(r), Judged())
    }

    /** No call of round `r` raises, and `source` is the first good offer in it. */
    ghost predicate WinsRound(r: nat, source: Source)
      requires r >= 1
    {
      !Breaks(r) && exists i: nat :: FirstGood(Offers(r), Judged(), i) && Offers(r)[i] == Some(source)
    }

    ghost predicate Narrow() {
      ValidSchema(sc) && |sc.fields| <= 49 && cfg.bar == AGREEMENT_BAR
    }

    ghost function Judges(): Judge {
      Judging(Judged(), cfg.bar)
    }

    ghost function TheBout(): Bout {
      Bout(answers, RoundStart(1), Judges(), tools.codeOf, cfg, DeterministicSources(answers, asked, tools))
    }

    lemma {:induction false} SameStart(r: nat)
      requires r >= 1
      ensures TheBout().Start(r) == RoundStart(r)
    {
      if r > 1 {
        SameStart(r - 1);
      }
    }

    ghost function RoundEnds(r: nat): RoundEnd
      requires r >= 1
    {
      RoundOf(answers, RoundStart(r), Judges(), tools.codeOf, cfg, DeterministicSources(answers, asked, tools), r)
    }

    lemma DeterministicPresent()
      ensures Present(Deterministic()) == DeterministicSources(answers, asked, tools)
    {
      var d := Deterministic();
      assert d[..1] == [d[0]] && d[..1][..0] == [];
      assert Present(d[..1]) == [] + Listed(d[0]);
      assert d[1] == Proposal(answers, asked.next, tools, asked.samples, asked.oracles).0;
    }

    lemma CandidatesPresent(r: nat)
      requires r >= 1 && !Breaks(r)
      ensures Kept(answers, tools.codeOf, RoundStart(r), cfg.k).Some?
      ensures Field(DeterministicSources(answers, asked, tools), r,
                    Kept(answers, tools.codeOf, RoundStart(r), cfg.k).value) == Present(Offers(r))
    {
      KeptExact(answers, RoundStart(r), tools.codeOf, cfg.k);
      DeterministicPresent();
      PresentConcat(if r == 1 then Deterministic() else [], CodeOffers(answers, RoundStart(r), tools.codeOf, cfg.k));
    }

    lemma JudgeIs(candidates: seq<Source>)
      ensures Judges()(candidates) == WinnerAmong(candidates, Judged(), cfg.bar)
    {
    }

    /** A round ends as its answers and its offers say. */
    lemma RoundExact(r: nat) returns (i: nat)
      requires r >= 1 && Narrow()
      ensures match RoundEnds(r)
        case Broke => Breaks(r)
        case Lost => Loses(r)
        case Won(source) => !Breaks(r) && FirstGood(Offers(r), Judged(), i) && Offers(r)[i] == Some(source)
    {
      KeptExact(answers, RoundStart(r), tools.codeOf, cfg.k);
      i := 0;
      if !Breaks(r) {
        CandidatesPresent(r);
        JudgeIs(Present(Offers(r)));
        i := PicksFirstGood(Offers(r), Judged());
      }
    }

    lemma OneFirstGood(offers: seq<Option<Source>>, b: Bench, i: nat, j: nat)
      requires FirstGood(offers, b, i) && FirstGood(offers, b, j)
      ensures i == j
    {
    }

    lemma RoundIs(r: nat, source: Source)
      requires r >= 1 && Narrow()
      ensures RoundEnds(r).Broke? <==> Breaks(r)
      ensures RoundEnds(r).Lost? <==> Loses(r)
      ensures RoundEnds(r) == RoundEnd.Won(source) <==> WinsRound(r, source)
    {
      var i := RoundExact(r);
      if j: nat :| FirstGood(Offers(r), Judged(), j) && Offers(r)[j] == Some(source) {
        if RoundEnds(r).Won? {
          OneFirstGood(Offers(r), Judged(), i, j);
        }
      }
    }

    ghost predicate AllLose(r: nat) {
      forall q: nat :: 1 <= q < r ==> Loses(q)
    }

    lemma LosesWhenLost(r: nat)
      requires Narrow() && r >= 1
      ensures TheBout().End(r) == RoundEnds(r) && (TheBout().End(r).Lost? <==> Loses(r))
    {
      SameStart(r);
      RoundIs(r, "");
    }

    lemma AllLoseWhenLost(r: nat)
      requires Narrow()
      ensures TheBout().AllLost(r) <==> AllLose(r)
    {
      forall q: nat | 1 <= q < r ensures TheBout().End(q).Lost? <==> Loses(q) {
        LosesWhenLost(q);
      }
    }

    ghost predicate BreaksFirst(q: nat) {
      1 <= q <= cfg.maxRounds && AllLose(q) && Breaks(q)
    }

    lemma BreaksWhenBroke(q: nat)
      requires Narrow()
      ensures BreaksFirst(q) <==> 1 <= q <= cfg.maxRounds && TheBout().AllLost(q) && TheBout().End(q).Broke?
    {
      AllLoseWhenLost(q);
      if q >= 1 {
        LosesWhenLost(q);
        RoundIs(q, "");
      }
    }

    /** The tier is exhausted exactly when every round loses; it is won in round `r` by `source` exactly
        when every earlier one loses and `source` is the first good offer of that round; it raises
        exactly when a call raises in a round all before which lose. */
    lemma PlayEnds(r: nat, source: Source)
      requires Narrow() && r >= 1
      ensures TheBout().OnFrom(1) == Ends(MaxRoundsExhausted, cfg.maxRounds) <==> AllLose(cfg.maxRounds + 1)
      ensures TheBout().OnFrom(1) == Wins(r, source) <==> r <= cfg.maxRounds && AllLose(r) && WinsRound(r, source)
      ensures TheBout().OnFrom(1) == Raises(ProviderFailure) <==> exists q: nat :: BreaksFirst(q)
    {
      TheBout().FirstDecides(r, source);
      AllLoseWhenLost(cfg.maxRounds + 1);
      AllLoseWhenLost(r);
      LosesWhenLost(r);
      RoundIs(r, source);
      forall q: nat
        ensures BreaksFirst(q) <==> 1 <= q <= cfg.maxRounds && TheBout().AllLost(q) && TheBout().End(q).Broke?
      {
        BreaksWhenBroke(q);
      }
    }

    /** What follows the oracles is that play. */
    lemma AfterOracles()
      ensures CourseAfterOracles(answers, asked, sc, tools, cfg, fixtures) == TheBout().OnFrom(1)
    {
      StartsAfterProposal();
      assert BenchOf(asked, sc, tools, fixtures) == Judged();
    }

    lemma StartsAfterProposal()
      ensures Proposal(answers, asked.next, tools, asked.samples, asked.oracles).1 == RoundStart(1)
    {
    }
  }

  /** The same for the tier on its sampled pages, once it has enough oracles. */
  lemma TierEndsExactly(
    answers: Answers, from: nat, pages: seq<Page>, sc: Schema, tools: Tools, cfg: Config, fixtures: seq<Fixture>,
    r: nat, source: Source)
    requires ValidSchema(sc) && |sc.fields| <= 49 && cfg.bar == AGREEMENT_BAR && pages != [] && r >= 1
    requires var asked := AskAll(answers, from, pages, tools.parseItems, sc);
      !asked.raised && |asked.oracles| >= cfg.minOracles
    ensures var play := Play(answers, AskAll(answers, from, pages, tools.parseItems, sc), sc, tools, cfg, fixtures);
      var course := CourseOf(answers, from, LoopCourse.Pages(pages), sc, tools, cfg, fixtures);
      && (course == Ends(MaxRoundsExhausted, cfg.maxRounds) <==> play.AllLose(cfg.maxRounds + 1))
      && (course == Wins(r, source) <==> r <= cfg.maxRounds && play.AllLose(r) && play.WinsRound(r, source))
      && (course == Raises(ProviderFailure) <==>
            exists q: nat :: play.BreaksFirst(q))
  {
    var play := Play(answers, AskAll(answers, from, pages, tools.parseItems, sc), sc, tools, cfg, fixtures);
    play.AfterOracles();
    play.PlayEnds(r, source);
  }
}
