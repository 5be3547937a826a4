// The front door (crawloop/engine.py): serve a known family from its ladder, otherwise
// classify the failure and act, or bootstrap an unknown family. Every path's model calls
// are counted.
module Engine {
  import opened Wrappers
  import opened Pages
  import opened Positions
  import opened Values
  import opened Failures
  import opened Validator
  import opened Validation
  import opened Gauntlet
  import opened Hybrid
  import opened Llm
  import opened Fallback
  import opened Ladder
  import opened Registry
  import Executor
  import Access
  import AccessRecovery
  import LoopCourse
  import opened FetchContext
  import opened RecoveryEnds
  import opened Answers
  import Driver

  datatype Settings = Settings(
    hybrid: bool, offline: bool, inline: bool, maxTransientRetries: nat, model: string, snapshots: bool)

  /** Code outside the model: routing, schemas, parsing, coercion, rendering, stored fixtures. */
  datatype Outside = Outside(
    route: (string, map<string, Family>) -> Option<string>,
    familyOf: string -> string, patternOf: string -> string,
    schemaOf: string -> Schema, schemaRefOf: string -> string,
    parseObject: string -> Option<Record>, coerce: (string, Value) -> Option<Value>,
    render: (string, bool) -> Option<string>,
    fixtures: (string, nat) -> seq<Fixture>,
    tools: LoopCourse.Tools, loopConfig: LoopCourse.Config)

  /** Where a request starts: the versions, the residual fields served, the strategy saved, and how
      far the sites, the model and the network have been asked. */
  datatype Start = Start(
    versions: seq<Version>, residual: seq<string>, saved: Option<string>, clock: nat, calls: nat, sent: nat)

  const MAX_PAGES: nat := 10
  const SNAPSHOT_EVERY: nat := 20
  const RECOVERY_ROUNDS: nat := 2
  const HISTORY_LIMIT: nat := 20

  /** Recent-history URLs, newest first, at most `limit`. */
  function RecentUrls(history: seq<History>, family: string, limit: nat): seq<string> {
    if history == [] || limit == 0 then []
    else
      var last := history[|history| - 1];
      if last.family == family then [last.url] + RecentUrls(history[..|history| - 1], family, limit - 1)
      else RecentUrls(history[..|history| - 1], family, limit)
  }

  /** Each URL once, where it first occurs. */
  function FirstSeen(urls: seq<string>): seq<string> {
    if urls == [] then []
    else
      var before := FirstSeen(urls[..|urls| - 1]);
      if urls[|urls| - 1] in before then before else before + [urls[|urls| - 1]]
  }

  lemma {:induction false} FirstSeenExact(urls: seq<string>)
    ensures forall u :: u in FirstSeen(urls) <==> u in urls
    ensures forall i, j :: 0 <= i < j < |FirstSeen(urls)| ==> FirstSeen(urls)[i] != FirstSeen(urls)[j]
  {
    if urls != [] {
      var n := |urls| - 1;
      FirstSeenExact(urls[..n]);
      assert urls == urls[..n] + [urls[n]];
    }
  }

  /** In the order in which they first occur. */
  lemma {:induction false} FirstSeenInOrder(urls: seq<string>)
    ensures InFirstOrder(FirstSeen(urls), urls)
  {
    if urls != [] {
      var front, last := urls[..|urls| - 1], urls[|urls| - 1];
      FirstSeenInOrder(front);
      FirstSeenExact(front);
      assert urls == front + [last];
      if last in front {
        SameInFirstOrder(FirstSeen(front), front, last);
      } else {
        MoreInFirstOrder(FirstSeen(front), front, last);
      }
    }
  }

  /** `at` are the places of the newest rows of the family, newest first, at most `limit` of them: a
      row of the family is left out only for want of room, and is then older. */
  ghost predicate Newest(history: seq<History>, family: string, limit: nat, at: seq<nat>) {
    && |at| <= limit
    && (forall i :: 0 <= i < |at| ==> at[i] < |history| && history[at[i]].family == family)
    && (forall i, j :: 0 <= i < j < |at| ==> at[j] < at[i])
    && (forall h :: 0 <= h < |history| && history[h].family == family ==>
          h in at || (|at| == limit && forall i :: 0 <= i < |at| ==> h < at[i]))
  }

  /** The recent URLs are those of the newest rows. */
  lemma {:induction false} RecentExact(history: seq<History>, family: string, limit: nat) returns (at: seq<nat>)
    ensures Newest(history, family, limit, at) && |RecentUrls(history, family, limit)| == |at|
    ensures forall i :: 0 <= i < |at| ==> RecentUrls(history, family, limit)[i] == history[at[i]].url
  {
    at := [];
    if history != [] && limit > 0 {
      var n := |history| - 1;
      var front := history[..n];
      if history[n].family == family {
        var rest := RecentExact(front, family, limit - 1);
        NewestOneMore(front, history[n], family, limit - 1, rest);
        at := [n] + rest;
      } else {
        at := RecentExact(front, family, limit);
      }
      assert history == front + [history[n]];
    }
  }

  lemma NewestOneMore(history: seq<History>, last: History, family: string, limit: nat, at: seq<nat>)
    requires Newest(history, family, limit, at) && last.family == family
    ensures Newest(history + [last], family, limit + 1, [|history|] + at)
  {
    var all, more := history + [last], [|history|] + at;
    forall h | 0 <= h < |all| && all[h].family == family
      ensures h in more || (|more| == limit + 1 && forall i :: 0 <= i < |more| ==> h < more[i])
    {
      if h < |history| && h in at {
        var i :| 0 <= i < |at| && at[i] == h;
        assert more[i + 1] == h;
      } else if h == |history| {
        assert more[0] == h;
      }
    }
  }

  /** `_loop_seeds`: recent URLs then the current one, each once, in first-seen order. */
  method LoopSeeds(history: seq<History>, family: string, seedUrl: string) returns (seeds: seq<string>)
    ensures seeds == FirstSeen(RecentUrls(history, family, HISTORY_LIMIT) + [seedUrl])
    ensures seedUrl in seeds
  {
    var urls := RecentUrls(history, family, HISTORY_LIMIT) + [seedUrl];
    seeds := [];
    for i := 0 to |urls|
      invariant seeds == FirstSeen(urls[..i])
    {
      assert urls[..i + 1][..i] == urls[..i];
      if urls[i] !in seeds {
        seeds := seeds + [urls[i]];
      }
    }
    assert urls[..|urls|] == urls;
    FirstSeenExact(urls);
  }

  function MergedAll(items: seq<Record>, tail: Record): seq<Record> {
    seq(|items|, i requires 0 <= i < |items| => Merged(items[i], tail, tail.Keys))
  }

  /** The tail merged into each item. */
  method MergeAll(items: seq<Record>, tail: Record) returns (merged: seq<Record>)
    ensures merged == MergedAll(items, tail)
  {
    merged := [];
    for i := 0 to |items|
      invariant merged == MergedAll(items, tail)[..i]
    {
      var record := MergeRecord(items[i], tail);
      merged := merged + [record];
    }
  }

  function Marked(families: map<string, Family>, family: string, status: FamilyStatus): map<string, Family> {
    if family in families then families[family := families[family].(status := status)] else families
  }

  /** The walk down a ladder credits runs; it never moves the active mark. */
  lemma {:induction false} WalkKeepsActive(
    vs: seq<Version>, family: string, ladder: seq<Version>, verdicts: seq<Executor.Verdict>)
    requires |verdicts| <= |ladder|
    ensures ActiveN(RowsOf(Executor.Recorded(vs, family, ladder, verdicts), family)) == ActiveN(RowsOf(vs, family))
  {
    if verdicts != [] {
      var k := |verdicts| - 1;
      WalkKeepsActive(vs, family, ladder, verdicts[..k]);
      if !verdicts[k].Raises? {
        var before := Executor.Recorded(vs, family, ladder, verdicts[..k]);
        var c := Credit(ladder[k].n, verdicts[k].Serves?);
        RowsOfUpdate(before, family, c, family);
        CreditKeepsStatus(RowsOf(before, family), family, ladder[k].n, verdicts[k].Serves?);
      }
    }
  }

  class Engine {
    const settings: Settings
    const outside: Outside
    const reg: Registry
    const c: Completer
    const client: Access.GuardedClient
    const site: Executor.Site
    /** Families with a background loop in flight. */
    var inflight: set<string>
    /** Background loops scheduled so far, in order. */
    var scheduled: seq<string>

    constructor (
      settings: Settings, outside: Outside, reg: Registry, c: Completer,
      client: Access.GuardedClient, site: Executor.Site)
      ensures this.settings == settings && this.outside == outside
      ensures this.reg == reg && this.c == c && this.client == client
      ensures this.site == site
      ensures inflight == {} && scheduled == []
    {
      this.settings, this.outside := settings, outside;
      this.reg, this.c, this.client, this.site := reg, c, client, site;
      inflight, scheduled := {}, [];
    }

    /** Routing only names registered families. */
    ghost predicate RoutesToKnown() {
      forall url, families :: outside.route(url, families).Some? ==> outside.route(url, families).value in families
    }

    ghost function Residual(family: string): seq<string>
      reads reg`versions, reg`audit
    {
      ActiveResidual(reg.versions, reg.audit, family)
    }

    /** No promotion on record left a residual field. */
    ghost predicate Clean()
      reads reg`audit
    {
      Driver.NothingPersisted(reg.audit)
    }

    /** Every schema has at most 49 fields, and loops judge at the 0.98 bar. */
    ghost predicate NarrowSchemas() {
      outside.loopConfig.bar == AGREEMENT_BAR
      && forall ref :: var sc := outside.schemaOf(ref); ValidSchema(sc) && |sc.fields| <= 49
    }

    /** With a clean trail nothing is residual, for any family. */
    lemma CleanServesFree()
      requires Clean()
      ensures forall f :: Residual(f) == []
    {
      forall f ensures Residual(f) == [] {
        Driver.CleanMeansNoResidual(Driver.StateOf(reg), f);
      }
    }

    /** In particular in every reachable registry over schemas of at most 49 fields. */
    lemma ReachedServesFree(hs: seq<Driver.Happening>, maxFields: nat)
      requires Driver.AllAllowed(hs, maxFields) && maxFields <= 49
      requires Driver.StateOf(reg) == Driver.Reach(hs, maxFields)
      ensures Clean() && forall f :: Residual(f) == []
    {
      Driver.ReachableIsClean(hs, maxFields);
      CleanServesFree();
    }

    /** Model calls the regeneration loop may make on behalf of one request. */
    function LoopBudget(): nat {
      if settings.inline then 2 * Driver.TierBudget(outside.loopConfig) else 0
    }

    // ---- the registry ladder ----

    /** The validator handed to the executor. */
    function Accepts(): Executor.Validator {
      (source: string, items: seq<Record>) => Accepted(items, outside.schemaOf(outside.schemaRefOf(source)))
    }

    /** The verdicts of a walk down the family's ladder that starts at moment `t`. */
    ghost function VerdictsOf(versions: seq<Version>, t: nat, url: string, family: string): (r: (seq<Executor.Verdict>, nat))
      ensures |r.0| <= |VersionLadder(versions, family)|
    {
      var ladder := VersionLadder(versions, family);
      Executor.VerdictsAreWalk(site.pages, t, ladder, url, Accepts(), MAX_PAGES, 0);
      Executor.VerdictsFrom(site.pages, t, ladder, url, Accepts(), MAX_PAGES, 0)
    }

    /** What that walk gives: the first validating rung's rows, or a failure. */
    ghost function RunOf(versions: seq<Version>, t: nat, url: string, family: string): Executor.FamilyRun {
      Executor.OutcomeOf(VersionLadder(versions, family), VerdictsOf(versions, t, url, family).0)
    }

    /** Without versions there is nothing to run. */
    lemma NothingToRun(t: nat, url: string, family: string)
      ensures RunOf([], t, url, family) == Executor.NoneServed
      ensures AfterRun([], t, url, family) == [] && VerdictsOf([], t, url, family).1 == t
    {
      assert VersionLadder([], family) == [];
    }

    /** The versions table after it. */
    ghost function AfterRun(versions: seq<Version>, t: nat, url: string, family: string): seq<Version> {
      Executor.Recorded(versions, family, VersionLadder(versions, family), VerdictsOf(versions, t, url, family).0)
    }

    method RunFamily(url: string, family: string) returns (run: Executor.FamilyRun)
      modifies reg`versions, reg`history, site
      ensures run == RunOf(old(reg.versions), old(site.clock), url, family)
      ensures reg.versions == AfterRun(old(reg.versions), old(site.clock), url, family)
      ensures reg.history == old(reg.history) +
        if run.Served? then [History(family, url, run.version, run.items)] else []
      ensures site.clock == VerdictsOf(old(reg.versions), old(site.clock), url, family).1
      ensures Residual(family) == old(Residual(family))
    {
      var wrote: bool;
      ghost var verdicts: seq<Executor.Verdict>;
      run, wrote, verdicts := Executor.RunFamily(
        reg, site, family, url, Accepts(), settings.snapshots, SNAPSHOT_EVERY, MAX_PAGES);
      WalkKeepsActive(old(reg.versions), family, VersionLadder(old(reg.versions), family), verdicts);
    }

    /** What the hybrid does with served rows, from the page and the answer that come next. */
    ghost function FillOf(residual: seq<string>, page: PageFetch, answer: Completion, items: seq<Record>): Fill {
      if !settings.hybrid || settings.offline || items == [] || residual == [] then Kept
      else match page
        case NotFetched(failure) => if GivenUp(failure) then Kept else FillEscaped(failure)
        case Html(_) =>
          var tail := TailFrom(answer, residual, outside.parseObject, outside.coerce);
          if tail == map[] then Kept else Filled(MergedAll(items, tail), tail.Keys)
    }

    // ---- page fetches ----

    /** The strategy that last worked for the URL's host. */
    ghost function Saved(url: string): Option<string>
      reads reg`domains
    {
      reg.WorkingStrategy(client.cfg.host(url))
    }

    /** What the engine's own fetch of a page gives, given the strategy saved and the GETs sent; with
        the GETs sent after it. */
    ghost function PageFrom(saved: Option<string>, sent: nat, url: string): (PageFetch, nat) {
      PageOf(client.cfg, client.answers, outside.render, saved, sent, url)
    }

    ghost function PageNow(url: string): PageFetch
      reads reg`domains, client`sent
    {
      PageFrom(Saved(url), client.sent, url).0
    }

    method Fetch(url: string) returns (page: PageFetch)
      requires client.Valid()
      modifies client
      ensures client.Valid()
      ensures (page, client.sent) == PageFrom(Saved(url), old(client.sent), url)
      ensures client.sent <= old(client.sent) + PAGE_GETS
    {
      page := FetchPage(client, reg.WorkingStrategy(client.cfg.host(url)), url, outside.render);
    }

    /** `_maybe_hybrid_fill`: at most one model call, and none (nor any fetch) when nothing is residual. */
    method MaybeHybridFill(url: string, family: string, items: seq<Record>) returns (fill: Fill)
      requires client.Valid()
      modifies reg`audit, c, client
      ensures client.Valid() && client.sent <= old(client.sent) + PAGE_GETS
      ensures fill == FillOf(old(Residual(family)), old(PageNow(url)), c.answers(old(c.calls)), items)
      ensures reg.audit == old(reg.audit)
        + if fill.Filled? then [Audit(Some(family), HybridFill(url, fill.fields))] else []
      ensures c.calls <= old(c.calls) + 1
      ensures old(Residual(family)) == [] ==> c.calls == old(c.calls) && client.sent == old(client.sent)
    {
      fill := Kept;
      assert reg.audit == old(reg.audit) + [];
      if !settings.hybrid || settings.offline || items == [] {
        return;
      }
      var residual := ActiveResidual(reg.versions, reg.audit, family);
      if residual == [] {
        return;
      }
      var page := Fetch(url);
      if page.NotFetched? {
        return if GivenUp(page.failure) then Kept else FillEscaped(page.failure);
      }
      var tail := FillResidual(c, residual, outside.parseObject, outside.coerce);
      if tail == map[] {
        return;
      }
      var merged := MergeAll(items, tail);
      reg.WriteAudit(Some(family), HybridFill(url, tail.Keys));
      fill := Filled(merged, tail.Keys);
    }

    // ---- the regeneration loop ----

    /** What a loop is asked to do. */
    ghost function JobFor(family: string, schemaRef: string, seeds: seq<string>, audits: nat): Driver.Job {
      Driver.Job(family, schemaRef, outside.schemaOf(schemaRef), seeds, outside.tools, outside.loopConfig,
                 outside.fixtures(family, audits))
    }

    /** The loop's record is that of a run of its job. */
    ghost predicate Genuine(family: string, schemaRef: string, l: LoopRun) {
      Driver.IsRun(JobFor(family, schemaRef, l.seeds, l.audits), settings.model, c.answers, reg.gate,
                   l.tiers, l.before, l.after, l.r)
    }

    /** The families table after the loop proper. */
    ghost function AfterTiers(families: map<string, Family>, job: Driver.Job, l: LoopRun): map<string, Family> {
      if |l.tiers| < 2 then Driver.FamiliesAfter(families, job, l.r)
      else Driver.FamiliesAfter(Driver.FamiliesAfter(families, job, l.tiers[0].r), job, l.tiers[1].r)
    }

    /** ... and after the engine's own marks around it: healthy exactly when the loop did not escalate. */
    ghost function AfterLoop(families: map<string, Family>, family: string, schemaRef: string, l: LoopRun): map<string, Family> {
      var after := AfterTiers(Marked(families, family, FamilyStatus.Regenerating),
                              JobFor(family, schemaRef, l.seeds, l.audits), l);
      if l.r.Returned? && !l.r.result.escalated then Marked(after, family, FamilyStatus.Healthy) else after
    }

    /** `_run_loop_once`. */
    method RunLoopOnce(family: string, schemaRef: string, seeds: seq<string>)
      returns (r: Driver.LoopOutcome, ghost l: LoopRun)
      modifies reg`families, reg`versions, reg`audit, c
      ensures Genuine(family, schemaRef, l)
      ensures l.r == r && l.seeds == seeds && l.audits == |old(reg.audit)|
      ensures l.before == old(Driver.StateOf(reg)) && l.after == Driver.StateOf(reg)
      ensures reg.families == AfterLoop(old(reg.families), family, schemaRef, l)
      ensures c.calls <= old(c.calls) + 2 * Driver.TierBudget(outside.loopConfig)
      ensures NarrowSchemas() && old(Clean()) ==> Clean()
    {
      var marked := reg.SetFamilyStatus(family, FamilyStatus.Regenerating);
      var job := Driver.Job(
        family, schemaRef, outside.schemaOf(schemaRef), seeds, outside.tools, outside.loopConfig,
        outside.fixtures(family, |reg.audit|));
      ghost var tiers: seq<Driver.Tier>;
      ghost var before := Driver.StateOf(reg);
      r, tiers := Driver.RunLoop(job, settings.model, reg, c);
      l := LoopRun(seeds, |before.audit|, tiers, before, Driver.StateOf(reg), r);
      if NarrowSchemas() && Driver.NothingPersisted(before.audit) {
        Driver.RunKeepsClean(job, settings.model, c.answers, reg.gate, tiers, before, l.after, r);
      }
      if r.Returned? && !r.result.escalated {
        var healthy := reg.SetFamilyStatus(family, FamilyStatus.Healthy);
      }
    }

    /** The family's status ends healthy exactly when the loop promoted, escalated when it returned
        without promoting, and as far as the loop got when it raised; other families are untouched. */
    lemma StatusAfterLoop(families: map<string, Family>, family: string, schemaRef: string, l: LoopRun)
      requires Genuine(family, schemaRef, l)
      ensures var after := AfterLoop(families, family, schemaRef, l);
        && (Driver.Won(l.r) ==> family in after && after[family].status == FamilyStatus.Healthy)
        && (l.r.Returned? && !l.r.result.ok ==> family in after && after[family].status == FamilyStatus.Escalated)
        && (l.r.LoopRaised? ==> family in after ==>
              after[family].status == FamilyStatus.Regenerating || after[family].status == FamilyStatus.Escalated)
        && forall g :: g != family ==>
             (g in after <==> g in families) && (g in after ==> after[g] == families[g])
    {
      var job := JobFor(family, schemaRef, l.seeds, l.audits);
      if !Driver.Won(l.r) {
        Driver.LosingLeavesLadder(job, settings.model, c.answers, reg.gate, l.tiers, l.before, l.after, l.r);
      } else {
        Driver.WinningResult(job, settings.model, c.answers, reg.gate, l.tiers, l.before, l.after, l.r);
      }
    }

    /** What `_trigger_loop` does when loops run in the background. */
    ghost predicate Scheduled(
      family: string, before: set<string>, after: set<string>, queue: seq<string>, queue': seq<string>)
    {
      after == before + {family} && queue' == queue + if family in before then [] else [family]
    }

    /** A loop ran inline, and is on record; or it was left to the background, and nothing else changed. */
    ghost predicate Triggered(
      family: string, schemaRef: string, loop: Option<LoopRun>, s: Driver.State, s': Driver.State,
      families: map<string, Family>, families': map<string, Family>, flags: set<string>, flags': set<string>,
      queue: seq<string>, queue': seq<string>)
    {
      match loop
      case None => !settings.inline && Scheduled(family, flags, flags', queue, queue') && s' == s && families' == families
      case Some(l) =>
        && settings.inline && flags' == flags && queue' == queue
        && Genuine(family, schemaRef, l) && l.before == s && l.after == s'
        && families' == AfterLoop(families, family, schemaRef, l)
    }

    /** `_trigger_loop`: run inline, or schedule in the background unless one is in flight. */
    method TriggerLoop(family: string, schemaRef: string, seedUrl: string)
      returns (r: Option<Driver.LoopOutcome>, ghost loop: Option<LoopRun>)
      modifies this`inflight, this`scheduled, reg`families, reg`versions, reg`audit, c
      ensures c.calls <= old(c.calls) + LoopBudget()
      ensures r == Ran(loop)
      ensures Triggered(
        family, schemaRef, loop, old(Driver.StateOf(reg)), Driver.StateOf(reg), old(reg.families), reg.families,
        old(inflight), inflight, old(scheduled), scheduled)
      ensures loop.Some? ==>
        loop.value.seeds == FirstSeen(RecentUrls(reg.history, family, HISTORY_LIMIT) + [seedUrl])
      ensures NarrowSchemas() && old(Clean()) ==> Clean()
    {
      var seeds := LoopSeeds(reg.history, family, seedUrl);
      r, loop := None, None;
      if settings.inline {
        var ran: Driver.LoopOutcome;
        ghost var l: LoopRun;
        ran, l := RunLoopOnce(family, schemaRef, seeds);
        r, loop := Some(ran), Some(l);
        return;
      }
      Schedule(family);
    }

    /** The background branch: a duplicate trigger while a loop is in flight is a no-op. */
    method Schedule(family: string)
      modifies this`inflight, this`scheduled
      ensures Scheduled(family, old(inflight), inflight, old(scheduled), scheduled)
    {
      if family in inflight {
        assert inflight == old(inflight) + {family};
        return;
      }
      inflight := inflight + {family};
      scheduled := scheduled + [family];
    }

    // ---- failures of a known family ----

    /** The extraction the model's next answers give for a schema. */
    ghost function ModelSays(calls: nat, schemaRef: string): Extraction {
      FirstUsable(c.answers, calls, 1 + LoopCourse.MAX_REPAIRS, outside.tools.parseItems, outside.schemaOf(schemaRef)).0
    }

    /** Recovery from here, given the strategy saved and the GETs sent. */
    ghost function RecoveryFrom(saved: Option<string>, sent: nat, url: string): AccessRecovery.Recovery {
      AccessRecovery.RecoveryOf(client.cfg, client.answers, outside.render, saved, sent, url, RECOVERY_ROUNDS)
    }

    /** The loop an extraction sets off, and the answer with its rows. */
    method HealAndAnswer(
      got: Extraction, url: string, family: string, schemaRef: string, origin: Origin, fine: Answers.Reason,
      failed: Answers.Reason) returns (o: Outcome, ghost loop: Option<LoopRun>)
      requires !got.ModelRaised?
      modifies this`inflight, this`scheduled, reg`families, reg`versions, reg`audit, c
      ensures o == ModelAnswer(got, loop, origin, family, fine, failed)
      ensures Triggered(
        family, schemaRef, loop, old(Driver.StateOf(reg)), Driver.StateOf(reg), old(reg.families), reg.families,
        old(inflight), inflight, old(scheduled), scheduled)
      ensures c.calls <= old(c.calls) + LoopBudget()
      ensures NarrowSchemas() && old(Clean()) ==> Clean()
    {
      var ran: Option<Driver.LoopOutcome>;
      ran, loop := TriggerLoop(family, schemaRef, url);
      o := AnswerWith(got, ran, origin, family, fine, failed);
    }

    /** Unless the provider's error came first, the loop is triggered; run inline, it is genuine. */
    ghost predicate LoopFollows(got: Extraction, loop: Option<LoopRun>, family: string, schemaRef: string) {
      (loop.Some? <==> settings.inline && !got.ModelRaised?)
      && (loop.Some? ==> Genuine(family, schemaRef, loop.value))
    }

    /** GETs a recovery may send. */
    function RecoveryGets(url: string): nat {
      AccessRecovery.GetsFor(RECOVERY_ROUNDS, |client.cfg.strategies(client.cfg.host(url))| + 1)
    }

    /** `_serve_drift`: answer from the model now, then regenerate. A block met while re-fetching
        is an access problem instead. */
    method ServeDrift(url: string, family: string, schemaRef: string) returns (o: Outcome, ghost loop: Option<LoopRun>)
      requires client.Valid()
      modifies this, reg, c, client, site
      ensures client.Valid() && client.sent <= old(client.sent) + PAGE_GETS + RecoveryGets(url)
      ensures var (page, next) := old(PageFrom(Saved(url), client.sent, url));
        if DriftRoute(page) == BlockedAway then
          && loop == None && c.calls == old(c.calls)
          && o == BlockedAnswer(RecoveryFrom(old(Saved(url)), next, url),
                                RunOf(old(reg.versions), old(site.clock), url, family), family)
        else
          && o == DriftAnswer(page, ModelSays(old(c.calls), schemaRef), loop, family)
          && (page.Html? ==> LoopFollows(ModelSays(old(c.calls), schemaRef), loop, family, schemaRef))
          && (page.NotFetched? ==> loop == None && c.calls == old(c.calls))
      ensures old(PageNow(url)).NotFetched? || settings.inline ==>
        inflight == old(inflight) && scheduled == old(scheduled)
      ensures o.Answered? && !settings.inline && old(PageNow(url)).Html? ==>
        Scheduled(family, old(inflight), inflight, old(scheduled), scheduled)
      ensures c.calls <= old(c.calls) + 2 + LoopBudget()
      ensures NarrowSchemas() && old(Clean()) ==> Clean()
    {
      loop := None;
      var page := Fetch(url);
      if page.NotFetched? {
        if page.failure.FetchBlocked? {
          o := ServeBlocked(url, family);
          return;
        }
        if page.failure.FetchError? {
          return Answered(Plain([], FromFallback, family, DriftRefetchFailed)), loop;
        }
        return Escaped(page.failure), loop;
      }
      var got := DirectExtract(c, outside.schemaOf(schemaRef), outside.tools.parseItems, LoopCourse.MAX_REPAIRS);
      if got.ModelRaised? {
        return Escaped(ProviderFailure), loop;
      }
      o, loop := HealAndAnswer(got, url, family, schemaRef, FromFallback, DriftFallback, DriftFallbackFailed);
    }

    /** `_serve_blocked`: recover access, then try the ladder exactly once more. No model call. */
    method ServeBlocked(url: string, family: string) returns (o: Outcome)
      requires client.Valid()
      modifies reg, client, site
      ensures client.Valid() && client.sent <= old(client.sent) + RecoveryGets(url)
      ensures o == BlockedAnswer(RecoveryFrom(old(Saved(url)), old(client.sent), url),
                                 RunOf(old(reg.versions), old(site.clock), url, family), family)
      ensures var rec := RecoveryFrom(old(Saved(url)), old(client.sent), url);
        && AccessRecovery.Stores(
             rec, client.cfg.host(url), true, old(reg.domains), reg.domains, old(reg.audit), reg.audit)
        && reg.versions == (if rec.Returned? && rec.r.ok
             then AfterRun(old(reg.versions), old(site.clock), url, family) else old(reg.versions))
        && reg.families == old(reg.families)
      ensures old(Clean()) ==> Clean()
    {
      var rec, tried := AccessRecovery.RecoverAccess(url, reg, client, outside.render, RECOVERY_ROUNDS, true);
      if rec.RecoveryRaised? {
        return Escaped(rec.failure);
      }
      var strategy := rec.r.strategy;
      if !rec.r.ok {
        return Answered(Plain([], FromRecovery, family, BlockedEscalated).(strategy := strategy));
      }
      var run := RunFamily(url, family);
      if run == Executor.RunRaised(UnauthorizedDomain) {
        return Escaped(UnauthorizedDomain);
      }
      if !run.Served? {
        return Answered(Plain([], FromRecovery, family, RecoveredRetryFailed).(strategy := strategy));
      }
      o := Answered(RequestResult(
        run.items, FromRecovery, family, Some(run.version), None, strategy, RecoveredAccess, false));
    }

    /** What at most `left` retries of a family give. */
    ghost function RetriesOf(versions: seq<Version>, t: nat, url: string, family: string, left: nat): Outcome
      decreases left
    {
      if left == 0 then Answered(Plain([], FromRegistry, family, TransientGaveUp))
      else
        var run := RunOf(versions, t, url, family);
        if run == Executor.RunRaised(UnauthorizedDomain) then Escaped(UnauthorizedDomain)
        else if run.Served? then
          Answered(RequestResult(run.items, FromRegistry, family, Some(run.version), None, None, Ok, false))
        else
          RetriesOf(AfterRun(versions, t, url, family), VerdictsOf(versions, t, url, family).1, url, family, left - 1)
    }

    /** The walk of retry `k`, after `k` walks of which none served or was stopped. */
    ghost function RetryRun(versions: seq<Version>, t: nat, url: string, family: string, k: nat): Executor.FamilyRun
      decreases k
    {
      if k == 0 then RunOf(versions, t, url, family)
      else RetryRun(AfterRun(versions, t, url, family), VerdictsOf(versions, t, url, family).1, url, family, k - 1)
    }

    /** Retry `k` is the first to serve or to be stopped by policy, and it is stopped. */
    ghost predicate StoppedAt(versions: seq<Version>, t: nat, url: string, family: string, k: nat) {
      && RetryRun(versions, t, url, family, k) == Executor.RunRaised(UnauthorizedDomain)
      && forall j: nat :: j < k ==> !Ends(RetryRun(versions, t, url, family, j))
    }

    ghost predicate Ends(run: Executor.FamilyRun) {
      run.Served? || run == Executor.RunRaised(UnauthorizedDomain)
    }

    lemma StoppedLater(versions: seq<Version>, t: nat, url: string, family: string, k: nat)
      requires !Ends(RunOf(versions, t, url, family))
      ensures StoppedAt(versions, t, url, family, k + 1) <==>
        StoppedAt(AfterRun(versions, t, url, family), VerdictsOf(versions, t, url, family).1, url, family, k)
    {
      var after, next := AfterRun(versions, t, url, family), VerdictsOf(versions, t, url, family).1;
      if StoppedAt(versions, t, url, family, k + 1) {
        forall j: nat | j < k ensures !Ends(RetryRun(after, next, url, family, j)) {
          assert !Ends(RetryRun(versions, t, url, family, j + 1));
        }
      }
      if StoppedAt(after, next, url, family, k) {
        forall j: nat | j < k + 1 ensures !Ends(RetryRun(versions, t, url, family, j)) {
          if j > 0 {
            assert !Ends(RetryRun(after, next, url, family, j - 1));
          }
        }
      }
    }

    /** An error leaves the retries exactly when one within the cap is stopped by policy before any
        serves; and it is the policy stop. */
    lemma {:induction false} RetriesEscape(versions: seq<Version>, t: nat, url: string, family: string, left: nat)
      ensures var o := RetriesOf(versions, t, url, family, left);
        && (o.Escaped? <==> exists k: nat :: k < left && StoppedAt(versions, t, url, family, k))
        && (o.Escaped? ==> o.failure == UnauthorizedDomain)
      decreases left
    {
      if left > 0 {
        var run := RunOf(versions, t, url, family);
        assert RetryRun(versions, t, url, family, 0) == run;
        if run == Executor.RunRaised(UnauthorizedDomain) {
          assert StoppedAt(versions, t, url, family, 0);
        } else if !run.Served? {
          var after, next := AfterRun(versions, t, url, family), VerdictsOf(versions, t, url, family).1;
          RetriesEscape(after, next, url, family, left - 1);
          forall k: nat ensures StoppedAt(versions, t, url, family, k + 1) <==> StoppedAt(after, next, url, family, k) {
            StoppedLater(versions, t, url, family, k);
          }
          if k: nat :| k < left && StoppedAt(versions, t, url, family, k) {
            assert k > 0;
            assert StoppedAt(after, next, url, family, k - 1);
          }
          if k: nat :| k < left - 1 && StoppedAt(after, next, url, family, k) {
            assert StoppedAt(versions, t, url, family, k + 1);
          }
        }
      }
    }

    /** What the retries come to, `whole`, is what `left` more come to from here. */
    ghost predicate StillToRetry(whole: Outcome, versions: seq<Version>, t: nat, url: string, family: string, left: nat) {
      forall o :: o in [whole] ==> o == RetriesOf(versions, t, url, family, left)
    }

    lemma AllRetries(versions: seq<Version>, t: nat, url: string, family: string, left: nat) returns (whole: Outcome)
      ensures whole == RetriesOf(versions, t, url, family, left)
      ensures StillToRetry(whole, versions, t, url, family, left)
    {
      whole := RetriesOf(versions, t, url, family, left);
    }

    lemma RetryDecides(whole: Outcome, versions: seq<Version>, t: nat, url: string, family: string, left: nat)
      requires StillToRetry(whole, versions, t, url, family, left)
      ensures
        if left == 0 then whole == Answered(Plain([], FromRegistry, family, TransientGaveUp))
        else
          var run := RunOf(versions, t, url, family);
          if run == Executor.RunRaised(UnauthorizedDomain) then whole == Escaped(UnauthorizedDomain)
          else if run.Served? then
            whole == Answered(RequestResult(run.items, FromRegistry, family, Some(run.version), None, None, Ok, false))
          else StillToRetry(whole, AfterRun(versions, t, url, family), VerdictsOf(versions, t, url, family).1,
                            url, family, left - 1)
    {
      assert whole in [whole];
    }

    /** One more retry: it serves, is stopped, or leaves the question to those left. */
    method RetryOnce(url: string, family: string, ghost whole: Outcome, ghost left: nat) returns (end: Option<Outcome>)
      requires left > 0 && StillToRetry(whole, reg.versions, site.clock, url, family, left)
      modifies reg`versions, reg`history, site
      ensures end.Some? ==> whole == end.value
      ensures end.None? ==> StillToRetry(whole, reg.versions, site.clock, url, family, left - 1)
    {
      RetryDecides(whole, reg.versions, site.clock, url, family, left);
      var run := RunFamily(url, family);
      if run == Executor.RunRaised(UnauthorizedDomain) {
        return Some(Escaped(UnauthorizedDomain));
      }
      if run.Served? {
        return Some(Answered(RequestResult(
          run.items, FromRegistry, family, Some(run.version), None, None, Ok, false)));
      }
      end := None;
    }

    /** `_serve_transient`: a bounded number of retries, then an empty answer. No model call. */
    method ServeTransient(url: string, family: string) returns (o: Outcome)
      modifies reg`versions, reg`history, site
      ensures o == RetriesOf(old(reg.versions), old(site.clock), url, family, settings.maxTransientRetries)
    {
      ghost var whole := AllRetries(reg.versions, site.clock, url, family, settings.maxTransientRetries);
      for attempt := 0 to settings.maxTransientRetries
        invariant StillToRetry(whole, reg.versions, site.clock, url, family, settings.maxTransientRetries - attempt)
      {
        var end := RetryOnce(url, family, whole, settings.maxTransientRetries - attempt);
        if end.Some? {
          return end.value;
        }
      }
      RetryDecides(whole, reg.versions, site.clock, url, family, 0);
      o := Answered(Plain([], FromRegistry, family, TransientGaveUp));
    }

    ghost function Begin(url: string, family: string): Start
      reads reg`versions, reg`audit, reg`domains, site`clock, c`calls, client`sent
    {
      Start(reg.versions, Residual(family), Saved(url), site.clock, c.calls, client.sent)
    }

    /** Recovery starts right after the failed walk, or after the page that turned out blocked. */
    ghost function RecoveryStart(run: Executor.FamilyRun, sent: nat, afterPage: nat): nat {
      if Classify(FailureOf(run)) == Some(Drift) then afterPage else sent
    }

    /** What a request for a known family meets, from the state it starts in. */
    ghost function FactsFrom(url: string, family: string, schemaRef: string, s: Start, loop: Option<LoopRun>): Facts {
      var run := RunOf(s.versions, s.clock, url, family);
      var after, next := AfterRun(s.versions, s.clock, url, family), VerdictsOf(s.versions, s.clock, url, family).1;
      var (page, sent) := PageFrom(s.saved, s.sent, url);
      Facts(run, RunOf(after, next, url, family),
            RetriesOf(after, next, url, family, settings.maxTransientRetries), page,
            FillOf(s.residual, page, c.answers(s.calls), if run.Served? then run.items else []),
            RecoveryFrom(s.saved, RecoveryStart(run, s.sent, sent), url), ModelSays(s.calls, schemaRef), loop)
    }

    ghost function FactsNow(url: string, family: string, loop: Option<LoopRun>): Facts
      requires family in reg.families
      reads reg`families, reg`versions, reg`audit, reg`domains, site`clock, c`calls, client`sent
    {
      FactsFrom(url, family, reg.families[family].schemaRef, Begin(url, family), loop)
    }

    // ---- which errors leave beside the policy stop ----

    /** The provider fails on the first answer, or on the repair of an unusable one. */
    ghost predicate ProviderFails(calls: nat, schemaRef: string) {
      || c.answers(calls).ProviderError?
      || (!Fallback.Usable(c.answers(calls), outside.tools.parseItems, outside.schemaOf(schemaRef))
          && c.answers(calls + 1).ProviderError?)
    }

    lemma ProviderRaises(calls: nat, schemaRef: string)
      ensures ModelSays(calls, schemaRef).ModelRaised? <==> ProviderFails(calls, schemaRef)
    {
      var parse, sc := outside.tools.parseItems, outside.schemaOf(schemaRef);
      assert FirstUsable(c.answers, calls + 2, 0, parse, sc).0 == ExtractionFailed;
      assert FirstUsable(c.answers, calls + 1, 1, parse, sc).0.ModelRaised? <==> c.answers(calls + 1).ProviderError?;
    }

    /** The loop's last tier fails in sampling or in a model call, or its winner at the gate. */
    ghost predicate LoopFails(family: string, schemaRef: string, loop: Option<LoopRun>) {
      loop.Some? && loop.value.tiers != [] &&
      var job := JobFor(family, schemaRef, loop.value.seeds, loop.value.audits);
      var error := Driver.ErrorOf(Driver.WinnerOf(job, c.answers, Driver.LastTier(loop.value.tiers)), reg.gate);
      error.Some? && error.value != UnauthorizedDomain
    }

    lemma LoopRaises(family: string, schemaRef: string, l: LoopRun)
      requires Genuine(family, schemaRef, l)
      ensures RaisedOddly(Some(l)) <==> LoopFails(family, schemaRef, Some(l))
    {
      var job := JobFor(family, schemaRef, l.seeds, l.audits);
      Driver.RaisesExactly(job, settings.model, c.answers, reg.gate, l.tiers, l.before, l.after, l.r);
    }

    /** A rung cannot be built, or one is tried at which redirects run into the limit. */
    ghost predicate RecoveryFails(saved: Option<string>, sent: nat, url: string) {
      || Unbuildable(client.cfg, url, saved)
      || LadderLets(client.cfg, client.answers, outside.render, saved, sent, url, RECOVERY_ROUNDS, FetchError(None))
    }

    lemma RecoveryEscapes(saved: Option<string>, sent: nat, url: string)
      requires client.cfg.authorized(url)
      ensures var rec := RecoveryFrom(saved, sent, url);
        rec.RecoveryRaised? && rec.failure != UnauthorizedDomain <==> RecoveryFails(saved, sent, url)
    {
      var rec := RecoveryFrom(saved, sent, url);
      RecoveryRaises(client.cfg, client.answers, outside.render, saved, sent, url, RECOVERY_ROUNDS, BuildFailure);
      RecoveryRaises(client.cfg, client.answers, outside.render, saved, sent, url, RECOVERY_ROUNDS, FetchError(None));
      if rec.RecoveryRaised? {
        RecoveryRaises(client.cfg, client.answers, outside.render, saved, sent, url, RECOVERY_ROUNDS, rec.failure);
      }
    }

    /** Asking the model about a page fails: the host has no usable fast strategy, or the page comes
        and the provider or the loop fails. */
    ghost predicate AskingFails(
      url: string, schemaRef: string, saved: Option<string>, sent: nat, calls: nat, loopFails: bool)
    {
      || Misconfigured(client.cfg, url, saved)
      || (PageFrom(saved, sent, url).0.Html? && (ProviderFails(calls, schemaRef) || loopFails))
    }

    /** When an error other than the policy stop leaves a known family's request: on the direct route
        only if the hybrid has something to fill and no strategy to fetch with; after a block, if
        recovery fails; after drift, if the page is blocked and recovery fails, or asking the model
        does; on the retried and the gone route never. */
    ghost predicate LetsOut(url: string, family: string, schemaRef: string, s: Start, loopFails: bool) {
      var run := RunOf(s.versions, s.clock, url, family);
      var (page, sent) := PageFrom(s.saved, s.sent, url);
      if run.Served? then
        settings.hybrid && !settings.offline && run.items != [] && s.residual != [] && Misconfigured(client.cfg, url, s.saved)
      else match Classify(FailureOf(run))
        case Some(Blocked) => RecoveryFails(s.saved, s.sent, url)
        case Some(Drift) =>
          if DriftRoute(page) == BlockedAway then RecoveryFails(s.saved, sent, url)
          else AskingFails(url, schemaRef, s.saved, s.sent, s.calls, loopFails)
        case _ => false
    }

    /** What leaves around the model. */
    lemma AskingEscapes(
      url: string, family: string, schemaRef: string, s: Start, loop: Option<LoopRun>, loopFails: bool,
      origin: Origin, fine: Answers.Reason, failed: Answers.Reason)
      requires client.cfg.authorized(url)
      requires PageFrom(s.saved, s.sent, url).0.Html? ==> (RaisedOddly(loop) <==> loopFails)
      ensures var page := PageFrom(s.saved, s.sent, url).0;
        AskingFails(url, schemaRef, s.saved, s.sent, s.calls, loopFails) <==>
          if page.Html? then Undocumented(ModelAnswer(ModelSays(s.calls, schemaRef), loop, origin, family, fine, failed))
          else Odd(page.failure)
    {
      PageFails(client.cfg, client.answers, outside.render, s.saved, s.sent, url);
      ProviderRaises(s.calls, schemaRef);
    }

    /** The hybrid's own fetch fails oddly. */
    lemma DirectEscapes(url: string, s: Start, run: Executor.FamilyRun, family: string)
      requires client.cfg.authorized(url) && run.Served?
      ensures Undocumented(DirectAnswer(
          run, FillOf(s.residual, PageFrom(s.saved, s.sent, url).0, c.answers(s.calls), run.items), family))
        <==> settings.hybrid && !settings.offline && run.items != [] && s.residual != []
             && Misconfigured(client.cfg, url, s.saved)
    {
      PageFails(client.cfg, client.answers, outside.render, s.saved, s.sent, url);
    }

    /** The condition is exact. */
    lemma LetsOutExactly(
      url: string, family: string, schemaRef: string, s: Start, loop: Option<LoopRun>, loopFails: bool)
      requires client.cfg.authorized(url)
      requires var facts := FactsFrom(url, family, schemaRef, s, loop);
        RouteOf(facts.run, facts.page) == Drifted && facts.page.Html? ==> (RaisedOddly(loop) <==> loopFails)
      ensures Undocumented(KnownAnswer(FactsFrom(url, family, schemaRef, s, loop), family)) <==>
        LetsOut(url, family, schemaRef, s, loopFails)
    {
      var facts := FactsFrom(url, family, schemaRef, s, loop);
      var (page, sent) := PageFrom(s.saved, s.sent, url);
      match RouteOf(facts.run, facts.page) {
        case Direct =>
          DirectEscapes(url, s, facts.run, family);
        case BlockedAway =>
          RecoveryEscapes(s.saved, RecoveryStart(facts.run, s.sent, sent), url);
        case Retried =>
          RetriesEscape(AfterRun(s.versions, s.clock, url, family), VerdictsOf(s.versions, s.clock, url, family).1,
                        url, family, settings.maxTransientRetries);
        case Drifted =>
          AskingEscapes(url, family, schemaRef, s, loop, loopFails, FromFallback, DriftFallback, DriftFallbackFailed);
        case _ =>
      }
    }

    /** The same for an unknown family, where the missing schema is the usage error. */
    ghost predicate NewLetsOut(url: string, schemaRef: Option<string>, s: Start, loopFails: bool) {
      schemaRef.None? || AskingFails(url, schemaRef.value, s.saved, s.sent, s.calls, loopFails)
    }

    lemma NewLetsOutExactly(
      url: string, schemaRef: Option<string>, s: Start, loop: Option<LoopRun>, loopFails: bool)
      requires client.cfg.authorized(url)
      requires schemaRef.Some? && PageFrom(s.saved, s.sent, url).0.Html? ==> (RaisedOddly(loop) <==> loopFails)
      ensures var got := ModelSays(s.calls, if schemaRef.Some? then schemaRef.value else "");
        Undocumented(NewFamilyAnswer(schemaRef, PageFrom(s.saved, s.sent, url).0, got, loop, outside.familyOf(url)))
        <==> NewLetsOut(url, schemaRef, s, loopFails)
    {
      if schemaRef.Some? {
        AskingEscapes(url, outside.familyOf(url), schemaRef.value, s, loop, loopFails,
                      FromBootstrap, NewFamily, NewFamilyFallbackFailed);
      }
    }

    // ---- known families ----

    /** The answer, the model calls and the loop follow from the facts. */
    ghost predicate ServedAs(
      facts: Facts, family: string, schemaRef: string, o: Outcome, clean: bool, before: nat, after: nat)
    {
      && o == KnownAnswer(facts, family)
      && KnownBudget(RouteOf(facts.run, facts.page), clean, before, after)
      && (facts.run.Served? && clean ==> o.Answered?)
      && LoopOnRoute(facts, family, schemaRef)
    }

    /** The same for an unknown family. */
    ghost predicate ServedNew(
      url: string, schemaRef: Option<string>, page: PageFetch, loop: Option<LoopRun>, o: Outcome, before: nat, after: nat)
    {
      var family, ref := outside.familyOf(url), if schemaRef.Some? then schemaRef.value else "";
      var got := ModelSays(before, ref);
      && o == NewFamilyAnswer(schemaRef, page, got, loop, family)
      && (if schemaRef.Some? && page.Html? then LoopFollows(got, loop, family, ref) else loop == None)
      && after <= before + 2 + LoopBudget()
      && (schemaRef.None? || page.NotFetched? ==> after == before)
    }

    /** `_serve_known_family`: the answer follows from the facts, and another error than the policy
        stop leaves exactly when the state and the network say so. */
    method ServeKnownFamily(url: string, family: string) returns (o: Outcome, ghost loop: Option<LoopRun>)
      requires client.Valid() && family in reg.families
      modifies this, reg, c, client, site
      ensures client.Valid() && client.sent <= old(client.sent) + PAGE_GETS + RecoveryGets(url)
      ensures ServedAs(old(FactsNow(url, family, None)).(loop := loop), family,
                       old(reg.families[family].schemaRef), o, old(Clean()), old(c.calls), c.calls)
      ensures client.cfg.authorized(url) ==>
        var ref := old(reg.families[family].schemaRef);
        Undocumented(o) <==> LetsOut(url, family, ref, old(Begin(url, family)), LoopFails(family, ref, loop))
      ensures NarrowSchemas() && old(Clean()) ==> Clean()
    {
      ghost var start, clean := Begin(url, family), Clean();
      var schemaRef := reg.families[family].schemaRef;
      o, loop := ServeOrHandle(url, family, schemaRef, FactsNow(url, family, None), clean);
      if client.cfg.authorized(url) {
        if loop.Some? {
          LoopRaises(family, schemaRef, loop.value);
        }
        LetsOutExactly(url, family, schemaRef, start, loop, LoopFails(family, schemaRef, loop));
      }
    }

    /** One walk down the ladder, and then what its outcome asks for. */
    method ServeOrHandle(url: string, family: string, schemaRef: string, ghost facts: Facts, ghost clean: bool)
      returns (o: Outcome, ghost loop: Option<LoopRun>)
      requires client.Valid() && family in reg.families && schemaRef == reg.families[family].schemaRef
      requires facts == FactsNow(url, family, None) && clean == Clean()
      modifies this, reg, c, client, site
      ensures client.Valid() && client.sent <= old(client.sent) + PAGE_GETS + RecoveryGets(url)
      ensures ServedAs(facts.(loop := loop), family, schemaRef, o, clean, old(c.calls), c.calls)
      ensures NarrowSchemas() && old(Clean()) ==> Clean()
    {
      loop := None;
      if Clean() {
        CleanServesFree();
      }
      var run := RunFamily(url, family);
      if run.Served? {
        o := ServeDirect(url, family, run);
        return;
      }
      o, loop := HandleFailure(url, family, schemaRef, run, facts, clean);
    }

    /** The served rows, with the hybrid's work on them. */
    method ServeDirect(url: string, family: string, run: Executor.FamilyRun) returns (o: Outcome)
      requires client.Valid() && run.Served?
      modifies reg`audit, c, client
      ensures client.Valid() && client.sent <= old(client.sent) + PAGE_GETS
      ensures o == DirectAnswer(
        run, FillOf(old(Residual(family)), old(PageNow(url)), c.answers(old(c.calls)), run.items), family)
      ensures c.calls <= old(c.calls) + 1
      ensures old(Residual(family)) == [] ==> c.calls == old(c.calls) && o.Answered?
      ensures old(Clean()) ==> Clean()
    {
      var fill := MaybeHybridFill(url, family, run.items);
      match fill {
        case FillEscaped(failure) => o := Escaped(failure);
        case Kept =>
          o := Answered(RequestResult(
            run.items, FromRegistry, family, Some(run.version), None, None, Ok, false));
        case Filled(items, _) =>
          o := Answered(RequestResult(items, FromRegistry, family, Some(run.version), None, None, Ok, true));
      }
    }

    /** Model calls by route; none on the direct one after a clean trail. */
    ghost predicate KnownBudget(route: Route, clean: bool, before: nat, after: nat) {
      match route
      case Direct => if clean then after == before else after <= before + 1
      case Drifted => after <= before + 2 + LoopBudget()
      case _ => after == before
    }

    /** A loop runs only on the drift route, for a page that was fetched, and is then genuine. */
    ghost predicate LoopOnRoute(facts: Facts, family: string, schemaRef: string) {
      if RouteOf(facts.run, facts.page) == Drifted && facts.page.Html?
      then LoopFollows(facts.got, facts.loop, family, schemaRef) else facts.loop == None
    }

    /** The facts of a failed walk, seen from right after it. */
    ghost predicate FactsAfterWalk(facts: Facts, url: string, family: string, schemaRef: string)
      reads reg`versions, reg`domains, site`clock, c`calls, client`sent
    {
      var (page, sent) := PageFrom(Saved(url), client.sent, url);
      && !facts.run.Served? && facts.loop == None
      && facts.again == RunOf(reg.versions, site.clock, url, family)
      && facts.retries == RetriesOf(reg.versions, site.clock, url, family, settings.maxTransientRetries)
      && facts.page == page
      && facts.rec == RecoveryFrom(Saved(url), RecoveryStart(facts.run, client.sent, sent), url)
      && facts.got == ModelSays(c.calls, schemaRef)
    }

    /** `_handle_failure`: dispatch on the failure's class. */
    method HandleFailure(
      url: string, family: string, schemaRef: string, run: Executor.FamilyRun, ghost facts: Facts, ghost clean: bool)
      returns (o: Outcome, ghost loop: Option<LoopRun>)
      requires client.Valid() && facts.run == run && FactsAfterWalk(facts, url, family, schemaRef)
      modifies this, reg, c, client, site
      ensures client.Valid() && client.sent <= old(client.sent) + PAGE_GETS + RecoveryGets(url)
      ensures ServedAs(facts.(loop := loop), family, schemaRef, o, clean, old(c.calls), c.calls)
      ensures NarrowSchemas() && old(Clean()) ==> Clean()
    {
      loop := None;
      match Classify(if run.RunRaised? then run.failure else AllVersionsFailed) {
        case None =>
          o := Escaped(UnauthorizedDomain);
        case Some(Drift) =>
          o, loop := ServeDrift(url, family, schemaRef);
        case Some(Blocked) =>
          o := ServeBlocked(url, family);
        case Some(Transient) =>
          o := ServeTransient(url, family);
        case Some(Gone) =>
          o := Answered(Plain([], FromRegistry, family, PageGone));
      }
    }

    // ---- unknown families ----

    /** `_bootstrap`: extract with the model, register the family, grow its first crawler. */
    method Bootstrap(url: string, schemaRef: Option<string>) returns (o: Outcome, ghost loop: Option<LoopRun>)
      requires client.Valid()
      modifies this, reg, c, client
      ensures client.Valid() && client.sent <= old(client.sent) + PAGE_GETS
      ensures ServedNew(url, schemaRef, old(PageNow(url)), loop, o, old(c.calls), c.calls)
      ensures
        || schemaRef.None?
        || old(PageNow(url)).NotFetched?
        || ModelSays(old(c.calls), schemaRef.value).ModelRaised?
        ==> reg.families == old(reg.families) && reg.versions == old(reg.versions)
      ensures o.Answered? && old(PageNow(url)).Html? ==> outside.familyOf(url) in reg.families
      ensures o.Answered? && !settings.inline && old(PageNow(url)).Html? ==>
        Scheduled(outside.familyOf(url), old(inflight), inflight, old(scheduled), scheduled)
      ensures NarrowSchemas() && old(Clean()) ==> Clean()
    {
      loop := None;
      if schemaRef.None? {
        return Escaped(MissingSchema), loop;
      }
      var family := outside.familyOf(url);
      var page := Fetch(url);
      if page.NotFetched? {
        if page.failure.FetchBlocked? || page.failure.FetchError? {
          return Answered(Plain([], FromBootstrap, family, BootstrapFetchFailed)), loop;
        }
        return Escaped(page.failure), loop;
      }
      var got := DirectExtract(c, outside.schemaOf(schemaRef.value), outside.tools.parseItems, LoopCourse.MAX_REPAIRS);
      if got.ModelRaised? {
        return Escaped(ProviderFailure), loop;
      }
      o, loop := RegisterAndHeal(got, url, family, schemaRef.value);
    }

    /** The family is registered, and its first crawler is asked for. */
    method RegisterAndHeal(got: Extraction, url: string, family: string, schemaRef: string)
      returns (o: Outcome, ghost loop: Option<LoopRun>)
      requires !got.ModelRaised?
      modifies this`inflight, this`scheduled, reg`families, reg`versions, reg`audit, c
      ensures o == ModelAnswer(got, loop, FromBootstrap, family, NewFamily, NewFamilyFallbackFailed)
      ensures LoopFollows(got, loop, family, schemaRef)
      ensures o.Answered? ==> family in reg.families
      ensures o.Answered? && !settings.inline ==>
        Scheduled(family, old(inflight), inflight, old(scheduled), scheduled)
      ensures c.calls <= old(c.calls) + LoopBudget()
      ensures NarrowSchemas() && old(Clean()) ==> Clean()
    {
      reg.UpsertFamily(family, [outside.patternOf(url)], schemaRef);
      o, loop := HealAndAnswer(got, url, family, schemaRef, FromBootstrap, NewFamily, NewFamilyFallbackFailed);
    }

    /** An unknown family's request. */
    method ServeNewFamily(url: string, schemaRef: Option<string>) returns (o: Outcome, ghost loop: Option<LoopRun>)
      requires client.Valid() && client.cfg.authorized(url)
      modifies this, reg, c, client
      ensures client.Valid() && client.sent <= old(client.sent) + PAGE_GETS
      ensures ServedNew(url, schemaRef, old(PageNow(url)), loop, o, old(c.calls), c.calls)
      ensures Undocumented(o) <==> NewLetsOut(
        url, schemaRef, old(Begin(url, "")), schemaRef.Some? && LoopFails(outside.familyOf(url), schemaRef.value, loop))
      ensures NarrowSchemas() && old(Clean()) ==> Clean()
    {
      ghost var start := Begin(url, "");
      o, loop := Bootstrap(url, schemaRef);
      if loop.Some? {
        LoopRaises(outside.familyOf(url), schemaRef.value, loop.value);
      }
      NewLetsOutExactly(url, schemaRef, start, loop,
                        schemaRef.Some? && LoopFails(outside.familyOf(url), schemaRef.value, loop));
    }

    /** `request`: an off-list URL is refused before anything else. Otherwise the answer follows from
        what the request meets; an error other than the policy stop leaves exactly when the state and
        the network say so; each way of answering has its own model budget; the engine's own GETs
        are bounded; and over narrow schemas the audit trail stays clean, so that requests served
        from the ladder go on making no model call. */
    method Request(url: string, schemaRef: Option<string>) returns (o: Outcome, ghost loop: Option<LoopRun>)
      requires client.Valid() && RoutesToKnown()
      modifies this, reg, c, client, site
      ensures client.Valid() && client.sent <= old(client.sent) + PAGE_GETS + RecoveryGets(url)
      ensures !client.cfg.authorized(url) ==>
        o == Escaped(UnauthorizedDomain)
        && reg.versions == old(reg.versions) && reg.families == old(reg.families) && reg.audit == old(reg.audit)
        && client.sent == old(client.sent) && c.calls == old(c.calls)
      ensures client.cfg.authorized(url) && outside.route(url, old(reg.families)).Some? ==>
        ServedAs(old(FactsNow(url, outside.route(url, reg.families).value, None)).(loop := loop),
                 outside.route(url, old(reg.families)).value,
                 old(reg.families[outside.route(url, reg.families).value].schemaRef), o, old(Clean()),
                 old(c.calls), c.calls)
      ensures client.cfg.authorized(url) && outside.route(url, old(reg.families)).Some? ==>
        var family := outside.route(url, old(reg.families)).value;
        var ref := old(reg.families)[family].schemaRef;
        Undocumented(o) <==> LetsOut(url, family, ref, old(Begin(url, family)), LoopFails(family, ref, loop))
      ensures client.cfg.authorized(url) && outside.route(url, old(reg.families)).None? ==>
        ServedNew(url, schemaRef, old(PageNow(url)), loop, o, old(c.calls), c.calls)
      ensures client.cfg.authorized(url) && outside.route(url, old(reg.families)).None? ==>
        (Undocumented(o) <==> NewLetsOut(
          url, schemaRef, old(Begin(url, "")), schemaRef.Some? && LoopFails(outside.familyOf(url), schemaRef.value, loop)))
      ensures NarrowSchemas() && old(Clean()) ==> Clean()
    {
      loop := None;
      if !client.cfg.authorized(url) {
        return Escaped(UnauthorizedDomain), loop;
      }
      var family := outside.route(url, reg.families);
      if family.None? {
        o, loop := ServeNewFamily(url, schemaRef);
        return;
      }
      o, loop := ServeKnownFamily(url, family.value);
    }
  }
}
