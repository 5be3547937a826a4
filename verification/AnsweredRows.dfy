// The rows a request is answered with (crawloop/engine.py): where they come from, on every way an
// answer can go, and when there are none.
module AnsweredRows {
  import opened Wrappers
  import opened Values
  import opened Failures
  import opened Validator
  import opened Validation
  import opened Hybrid
  import opened Llm
  import opened Ladder
  import opened FetchContext
  import opened Answers
  import Fallback
  import Executor
  import AccessRecovery
  import Driver
  import Engine

  // ---- rows of the model ----

  /** Answer number `k` is the first usable one of the two that may be asked for. */
  ghost predicate FirstOfTwo(
    answers: nat -> Completion, from: nat, k: nat, parse: Fallback.ItemParser, sc: Schema)
  {
    && from <= k <= from + 1 && Fallback.Usable(answers(k), parse, sc)
    && (k == from + 1 ==> answers(from).Answer? && !Fallback.Usable(answers(from), parse, sc))
  }

  /** Neither of the two answers is usable (a provider's error is not, and ends the asking). */
  ghost predicate NeitherUsable(answers: nat -> Completion, from: nat, parse: Fallback.ItemParser, sc: Schema) {
    forall k: nat :: !FirstOfTwo(answers, from, k, parse, sc)
  }

  /** An extraction of two attempts gives the rows of the first usable answer, and none exactly when
      neither is usable. */
  lemma TwoAttempts(answers: nat -> Completion, from: nat, parse: Fallback.ItemParser, sc: Schema) returns (k: nat)
    ensures var got := Fallback.FirstUsable(answers, from, 2, parse, sc).0;
      if got.Extracted? then
        && FirstOfTwo(answers, from, k, parse, sc) && parse(answers(k).text) == Some(got.items) && got.items != []
      else NeitherUsable(answers, from, parse, sc)
  {
    assert Fallback.FirstUsable(answers, from + 2, 0, parse, sc).0 == Fallback.ExtractionFailed;
    k := if Fallback.Usable(answers(from), parse, sc) then from else from + 1;
  }

  lemma ResultOf(
    got: Fallback.Extraction, result: Option<Driver.LoopResult>, origin: Origin, family: string,
    fine: Answers.Reason, failed: Answers.Reason)
    ensures ExtractionResult(got, result, origin, family, fine, failed) ==
      RequestResult(if got.Extracted? then got.items else [], origin, family, None, result, None,
                    if got.Extracted? then fine else failed, false)
  {
  }

  /** What an inline loop returned. */
  function LoopSaid(loop: Option<LoopRun>): Option<Driver.LoopResult> {
    if loop.Some? && loop.value.r.Returned? then Some(loop.value.r.result) else None
  }

  /** The answer that goes with an extraction. */
  lemma AnswerOf(
    got: Fallback.Extraction, loop: Option<LoopRun>, origin: Origin, family: string, fine: Answers.Reason,
    failed: Answers.Reason)
    requires ModelAnswer(got, loop, origin, family, fine, failed).Answered?
    ensures ModelAnswer(got, loop, origin, family, fine, failed).r ==
      RequestResult(if got.Extracted? then got.items else [], origin, family, None, LoopSaid(loop), None,
                    if got.Extracted? then fine else failed, false)
  {
    var result := LoopSaid(loop);
    ResultOf(got, result, origin, family, fine, failed);
  }

  /** What a request answered from the model holds: the rows of the first usable answer, with the one
      reason; or none, exactly when neither answer is usable, with the other. */
  lemma ModelRows(
    answers: nat -> Completion, from: nat, parse: Fallback.ItemParser, sc: Schema, got: Fallback.Extraction,
    loop: Option<LoopRun>, origin: Origin, family: string, fine: Answers.Reason, failed: Answers.Reason)
    returns (k: nat)
    requires got == Fallback.FirstUsable(answers, from, 2, parse, sc).0
    requires ModelAnswer(got, loop, origin, family, fine, failed).Answered?
    ensures var r := ModelAnswer(got, loop, origin, family, fine, failed).r;
      && r.origin == origin && r.family == family && r.usedVersion.None? && !r.hybridFilled
      && r.loop == LoopSaid(loop)
      && if r.items != [] then
           FirstOfTwo(answers, from, k, parse, sc) && parse(answers(k).text) == Some(r.items) && r.reason == fine
         else NeitherUsable(answers, from, parse, sc) && r.reason == failed
  {
    k := TwoAttempts(answers, from, parse, sc);
    AnswerOf(got, loop, origin, family, fine, failed);
  }

  // ---- rows of a rung ----

  /** Rung `i` is the version that served these rows, and its own schema accepts them. */
  ghost predicate RungServed(
    e: Engine.Engine, versions: seq<Version>, family: string, run: Executor.FamilyRun, i: nat)
    requires run.Served?
  {
    var ladder := VersionLadder(versions, family);
    i < |ladder| && ladder[i].n == run.version && e.Accepts()(ladder[i].source, run.items)
  }

  /** What a walk serves, one of the family's versions extracted and its schema accepts: at least one row. */
  lemma ServedIsAccepted(e: Engine.Engine, versions: seq<Version>, t: nat, url: string, family: string) returns (i: nat)
    requires e.RunOf(versions, t, url, family).Served?
    ensures RungServed(e, versions, family, e.RunOf(versions, t, url, family), i)
    ensures e.RunOf(versions, t, url, family).items != []
  {
    var ladder := VersionLadder(versions, family);
    Executor.VerdictsAreWalk(e.site.pages, t, ladder, url, e.Accepts(), Engine.MAX_PAGES, 0);
    i := |e.VerdictsOf(versions, t, url, family).0| - 1;
    var items := e.RunOf(versions, t, url, family).items;
    assert e.Accepts()(ladder[i].source, items);
    assert Accepted(items, e.outside.schemaOf(e.outside.schemaRefOf(ladder[i].source)));
  }

  // ---- rows after a fill ----

  /** The same rows, in the same places, with every value they had. */
  ghost predicate Keeps(before: seq<Record>, after: seq<Record>) {
    && |after| == |before|
    && forall i, f :: 0 <= i < |before| && RecordHas(before[i], f) ==>
         f in after[i] && after[i][f] == before[i][f]
  }

  /** The rows with, in the gaps, the same values of residual fields in each. */
  ghost predicate FillsGaps(before: seq<Record>, after: seq<Record>, residual: seq<string>, tail: Record) {
    && (forall f :: f in tail ==> f in residual)
    && Keeps(before, after)
    && forall i, f :: 0 <= i < |before| && !RecordHas(before[i], f) ==> Get(after[i], f) == Get(tail, f)
  }

  lemma MergedFills(items: seq<Record>, tail: Record, residual: seq<string>)
    requires forall f :: f in tail ==> f in residual
    ensures FillsGaps(items, Engine.MergedAll(items, tail), residual, tail)
  {
    var after := Engine.MergedAll(items, tail);
    forall i, f | 0 <= i < |items| ensures
      Get(after[i], f) == if RecordHas(items[i], f) then items[i][f] else Get(tail, f)
    {
      MergeKeepsDeterministic(items[i], tail, f);
    }
  }

  /** A served request is answered with the rung's rows, or with those and the tail of the one
      answer asked for; nothing of what the rung gave is lost. */
  lemma ServedRows(
    e: Engine.Engine, run: Executor.FamilyRun, residual: seq<string>, page: PageFetch, answer: Completion, family: string)
    returns (tail: Record)
    requires run.Served?
    ensures var o := DirectAnswer(run, e.FillOf(residual, page, answer, run.items), family);
      o.Answered? ==>
        && o.r.origin == FromRegistry && o.r.family == family && o.r.usedVersion == Some(run.version)
        && o.r.reason == Answers.Ok && Keeps(run.items, o.r.items)
        && (!o.r.hybridFilled ==> o.r.items == run.items)
        && (o.r.hybridFilled ==>
              && e.settings.hybrid && !e.settings.offline && page.Html? && tail != map[]
              && tail == TailFrom(answer, residual, e.outside.parseObject, e.outside.coerce)
              && FillsGaps(run.items, o.r.items, residual, tail))
  {
    tail := TailFrom(answer, residual, e.outside.parseObject, e.outside.coerce);
    MergedFills(run.items, tail, residual);
    assert Keeps(run.items, run.items);
  }

  // ---- rows after retries ----

  /** Retry `k` is the first to serve or to be stopped by policy, and it serves. */
  ghost predicate ServesAt(e: Engine.Engine, versions: seq<Version>, t: nat, url: string, family: string, k: nat) {
    && e.RetryRun(versions, t, url, family, k).Served?
    && forall j: nat :: j < k ==> !e.Ends(e.RetryRun(versions, t, url, family, j))
  }

  lemma ServesLater(e: Engine.Engine, versions: seq<Version>, t: nat, url: string, family: string, k: nat)
    requires !e.Ends(e.RunOf(versions, t, url, family))
    ensures ServesAt(e, versions, t, url, family, k + 1) <==>
      ServesAt(e, e.AfterRun(versions, t, url, family), e.VerdictsOf(versions, t, url, family).1, url, family, k)
  {
    var after, next := e.AfterRun(versions, t, url, family), e.VerdictsOf(versions, t, url, family).1;
    if ServesAt(e, versions, t, url, family, k + 1) {
      forall j: nat | j < k ensures !e.Ends(e.RetryRun(after, next, url, family, j)) {
        assert !e.Ends(e.RetryRun(versions, t, url, family, j + 1));
      }
    }
    if ServesAt(e, after, next, url, family, k) {
      forall j: nat | j < k + 1 ensures !e.Ends(e.RetryRun(versions, t, url, family, j)) {
        if j > 0 {
          assert !e.Ends(e.RetryRun(after, next, url, family, j - 1));
        }
      }
    }
  }

  lemma NoneServesLater(e: Engine.Engine, versions: seq<Version>, t: nat, url: string, family: string, left: nat)
    requires left > 0 && !e.Ends(e.RunOf(versions, t, url, family))
    requires forall j: nat :: j < left - 1 ==>
      !ServesAt(e, e.AfterRun(versions, t, url, family), e.VerdictsOf(versions, t, url, family).1, url, family, j)
    ensures forall j: nat :: j < left ==> !ServesAt(e, versions, t, url, family, j)
  {
    forall j: nat | j < left ensures !ServesAt(e, versions, t, url, family, j) {
      if j > 0 {
        ServesLater(e, versions, t, url, family, j - 1);
      }
    }
  }

  /** `r` is the answer of retry `k`, the first to serve. */
  ghost predicate AnswersAt(
    e: Engine.Engine, versions: seq<Version>, t: nat, url: string, family: string, k: nat, r: RequestResult)
  {
    && ServesAt(e, versions, t, url, family, k) && r.reason == Answers.Ok && r.origin == FromRegistry
    && r.items == e.RetryRun(versions, t, url, family, k).items
    && r.usedVersion == Some(e.RetryRun(versions, t, url, family, k).version)
  }

  lemma AnswersLater(
    e: Engine.Engine, versions: seq<Version>, t: nat, url: string, family: string, k: nat, r: RequestResult)
    requires !e.Ends(e.RunOf(versions, t, url, family))
    requires AnswersAt(e, e.AfterRun(versions, t, url, family), e.VerdictsOf(versions, t, url, family).1, url, family, k, r)
    ensures AnswersAt(e, versions, t, url, family, k + 1, r)
  {
    ServesLater(e, versions, t, url, family, k);
  }

  ghost predicate NoneServes(e: Engine.Engine, versions: seq<Version>, t: nat, url: string, family: string, left: nat) {
    forall j: nat :: j < left ==> !ServesAt(e, versions, t, url, family, j)
  }

  /** The retries answer with the rows of the first that serves within the cap before one is stopped,
      and with none exactly when they give up. */
  lemma {:induction false} RetriesRows(
    e: Engine.Engine, versions: seq<Version>, t: nat, url: string, family: string, left: nat) returns (k: nat)
    requires e.RetriesOf(versions, t, url, family, left).Answered?
    ensures var r := e.RetriesOf(versions, t, url, family, left).r;
      if r.reason == TransientGaveUp then r.items == [] && NoneServes(e, versions, t, url, family, left)
      else k < left && AnswersAt(e, versions, t, url, family, k, r)
    decreases left
  {
    k := 0;
    if left > 0 {
      var run := e.RunOf(versions, t, url, family);
      assert e.RetryRun(versions, t, url, family, 0) == run;
      if !run.Served? {
        var after, next := e.AfterRun(versions, t, url, family), e.VerdictsOf(versions, t, url, family).1;
        var rest := RetriesRows(e, after, next, url, family, left - 1);
        var r := e.RetriesOf(after, next, url, family, left - 1).r;
        if r.reason == TransientGaveUp {
          NoneServesLater(e, versions, t, url, family, left);
        } else {
          AnswersLater(e, versions, t, url, family, rest, r);
          k := rest + 1;
        }
      }
    }
  }

  /** After a recovery the answer is the retry's rows, under the strategy that got through. */
  lemma RecoveredRows(rec: AccessRecovery.Recovery, again: Executor.FamilyRun, family: string)
    requires BlockedAnswer(rec, again, family).Answered?
    ensures var r := BlockedAnswer(rec, again, family).r;
      && r.origin == FromRecovery && rec.Returned? && r.strategy == rec.r.strategy
      && (r.reason == RecoveredAccess <==> rec.r.ok && again.Served?)
      && (r.reason == RecoveredAccess ==> r.items == again.items && r.usedVersion == Some(again.version))
      && (r.reason != RecoveredAccess ==> r.items == [] && r.usedVersion == None)
  {
  }

  // ---- which way a failed walk goes ----

  /** A page that is gone is never asked for again, a block is recovered from, any other status is
      retried, and a ladder that gave nothing valid is drift. */
  lemma FailedWalkGoes(page: PageFetch, status: Option<int>, marker: Marker)
    ensures RouteOf(Executor.RunRaised(FetchError(status)), page) ==
      if status == Some(404) || status == Some(410) then GoneAway else Retried
    ensures RouteOf(Executor.RunRaised(FetchBlocked(marker)), page) == BlockedAway
    ensures RouteOf(Executor.RunRaised(UnauthorizedDomain), page) == Refused
    ensures RouteOf(Executor.RunRaised(OtherError), page) == Retried
    ensures page.Html? ==> RouteOf(Executor.NoneServed, page) == Drifted
  {
  }

  // ---- when there are rows ----

  /** Something gave rows on the way the request goes: the first walk, the walk after a recovery, a
      retry, or one of the model's two answers. */
  ghost predicate SomethingGave(
    e: Engine.Engine, url: string, family: string, schemaRef: string, s: Engine.Start, facts: Facts)
  {
    var after, next := e.AfterRun(s.versions, s.clock, url, family), e.VerdictsOf(s.versions, s.clock, url, family).1;
    match RouteOf(facts.run, facts.page)
    case Direct => true
    case BlockedAway => facts.rec.Returned? && facts.rec.r.ok && e.RunOf(after, next, url, family).Served?
    case Retried => exists k: nat :: k < e.settings.maxTransientRetries && ServesAt(e, after, next, url, family, k)
    case Drifted =>
      facts.page.Html? && !NeitherUsable(e.c.answers, s.calls, e.outside.tools.parseItems, e.outside.schemaOf(schemaRef))
    case _ => false
  }

  lemma RetriedHasRows(
    e: Engine.Engine, versions: seq<Version>, t: nat, url: string, family: string, left: nat)
    requires e.RetriesOf(versions, t, url, family, left).Answered?
    ensures e.RetriesOf(versions, t, url, family, left).r.items != [] <==>
      exists k: nat :: k < left && ServesAt(e, versions, t, url, family, k)
  {
    var k := RetriesRows(e, versions, t, url, family, left);
    if e.RetriesOf(versions, t, url, family, left).r.reason != TransientGaveUp {
      RetryHasRows(e, versions, t, url, family, k);
    }
  }

  lemma {:induction false} RetryHasRows(
    e: Engine.Engine, versions: seq<Version>, t: nat, url: string, family: string, k: nat)
    requires e.RetryRun(versions, t, url, family, k).Served?
    ensures e.RetryRun(versions, t, url, family, k).items != []
    decreases k
  {
    if k == 0 {
      var i := ServedIsAccepted(e, versions, t, url, family);
    } else {
      RetryHasRows(e, e.AfterRun(versions, t, url, family), e.VerdictsOf(versions, t, url, family).1, url, family, k - 1);
    }
  }

  /** An answered request for a known family has rows exactly when something gave some. */
  lemma RowsExactly(e: Engine.Engine, url: string, family: string, schemaRef: string, s: Engine.Start, loop: Option<LoopRun>)
    requires KnownAnswer(e.FactsFrom(url, family, schemaRef, s, loop), family).Answered?
    ensures var facts := e.FactsFrom(url, family, schemaRef, s, loop);
      KnownAnswer(facts, family).r.items != [] <==> SomethingGave(e, url, family, schemaRef, s, facts)
  {
    var facts := e.FactsFrom(url, family, schemaRef, s, loop);
    var after, next := e.AfterRun(s.versions, s.clock, url, family), e.VerdictsOf(s.versions, s.clock, url, family).1;
    match RouteOf(facts.run, facts.page) {
      case Direct =>
        var i := ServedIsAccepted(e, s.versions, s.clock, url, family);
        var tail := ServedRows(e, facts.run, s.residual, facts.page, e.c.answers(s.calls), family);
      case BlockedAway =>
        if facts.again.Served? {
          var i := ServedIsAccepted(e, after, next, url, family);
        }
      case Retried =>
        RetriedHasRows(e, after, next, url, family, e.settings.maxTransientRetries);
      case Drifted =>
        if facts.page.Html? {
          var k := ModelRows(e.c.answers, s.calls, e.outside.tools.parseItems, e.outside.schemaOf(schemaRef), facts.got, loop,
                    FromFallback, family, DriftFallback, DriftFallbackFailed);
        }
      case _ =>
    }
  }
}
