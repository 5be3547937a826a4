// Running a family (crawloop/executor.py): pagination of one version, and the walk down the
// version ladder to the first version whose extraction validates.
module Executor {
  import opened Wrappers
  import opened Sorting
  import opened Values
  import opened Failures
  import opened Ladder
  import opened Registry

  datatype PageResult = Crawled(items: seq<Record>, next: Option<string>) | Crashed(failure: Failure)

  /** The outside world as crawlers see it: what crawling a URL yields may differ at each moment. */
  class Site {
    const pages: Pages
    var clock: nat

    constructor (pages: Pages)
      ensures this.pages == pages && clock == 0
    {
      this.pages := pages;
      clock := 0;
    }

    method Crawl(source: string, url: string) returns (r: PageResult)
      modifies this
      ensures clock == old(clock) + 1 && r == pages(old(clock), source, url)
    {
      r := pages(clock, source, url);
      clock := clock + 1;
    }
  }

  // ---- pagination ----

  datatype VersionRun = Extracted(items: seq<Record>, pages: nat) | Raised(failure: Failure)

  type Pages = (nat, string, string) -> PageResult

  /** Following `next_url` from `url` for at most `budget` pages from moment `t`; with the moment
      after the last one. */
  function Paginate(pages: Pages, t: nat, source: string, url: Option<string>, budget: nat): (VersionRun, nat)
    decreases budget
  {
    if url.None? || budget == 0 then (Extracted([], 0), t)
    else match pages(t, source, url.value)
      case Crashed(f) => (Raised(f), t + 1)
      case Crawled(items, next) =>
        var (rest, end) := Paginate(pages, t + 1, source, next, budget - 1);
        if rest.Raised? then (rest, end) else (Extracted(items + rest.items, rest.pages + 1), end)
  }

  /** What the run comes to, `whole`, is the rows so far and what the pages from here on add. */
  ghost predicate Fetching(
    whole: (VersionRun, nat), pages: Pages, t: nat, source: string, url: Option<string>, left: nat,
    items: seq<Record>, fetched: nat)
  {
    forall w :: w in [whole] ==>
      var (rest, end) := Paginate(pages, t, source, url, left);
      w == if rest.Raised? then (rest, end) else (Extracted(items + rest.items, fetched + rest.pages), end)
  }

  lemma FetchingStarts(pages: Pages, t: nat, source: string, url: Option<string>, left: nat)
    ensures Fetching(Paginate(pages, t, source, url, left), pages, t, source, url, left, [], 0)
  {
    var run := Paginate(pages, t, source, url, left).0;
    assert run.Extracted? ==> [] + run.items == run.items;
  }

  /** One more page, or the end. */
  lemma FetchDecides(
    whole: (VersionRun, nat), pages: Pages, t: nat, source: string, url: Option<string>, left: nat,
    items: seq<Record>, fetched: nat)
    requires Fetching(whole, pages, t, source, url, left, items, fetched)
    ensures
      if url.None? || left == 0 then whole == (Extracted(items, fetched), t)
      else match pages(t, source, url.value)
        case Crashed(f) => whole == (Raised(f), t + 1)
        case Crawled(more, next) => Fetching(whole, pages, t + 1, source, next, left - 1, items + more, fetched + 1)
  {
    assert whole in [whole];
    assert items + [] == items;
    if url.Some? && left > 0 && pages(t, source, url.value).Crawled? {
      var page := pages(t, source, url.value);
      var rest := Paginate(pages, t + 1, source, page.next, left - 1).0;
      if rest.Extracted? {
        assert items + (page.items + rest.items) == (items + page.items) + rest.items;
      }
    }
  }

  /** `run_version`. */
  method RunVersion(site: Site, source: string, startUrl: string, maxPages: nat) returns (r: VersionRun)
    modifies site
    ensures (r, site.clock) == Paginate(site.pages, old(site.clock), source, Some(startUrl), maxPages)
    ensures r.Extracted? ==> site.clock == old(site.clock) + r.pages && r.pages <= maxPages
  {
    var items: seq<Record> := [];
    var url: Option<string> := Some(startUrl);
    var fetched := 0;
    ghost var whole := Paginate(site.pages, site.clock, source, url, maxPages);
    FetchingStarts(site.pages, site.clock, source, url, maxPages);
    while url.Some? && fetched < maxPages
      invariant fetched <= maxPages && site.clock == old(site.clock) + fetched
      invariant Fetching(whole, site.pages, site.clock, source, url, maxPages - fetched, items, fetched)
      decreases maxPages - fetched
    {
      FetchDecides(whole, site.pages, site.clock, source, url, maxPages - fetched, items, fetched);
      var page := site.Crawl(source, url.value);
      if page.Crashed? {
        return Raised(page.failure);
      }
      items, fetched, url := items + page.items, fetched + 1, page.next;
    }
    FetchDecides(whole, site.pages, site.clock, source, url, maxPages - fetched, items, fetched);
    r := Extracted(items, fetched);
  }

  /** The cap is the only bound: the walk stops short of it only at a page without a next one,
      so a page that links to itself is fetched exactly `budget` times. */
  lemma {:induction false} SelfLinkRunsToTheCap(pages: Pages, t: nat, source: string, url: string, budget: nat)
    requires forall k :: k >= t ==> pages(k, source, url).Crawled? && pages(k, source, url).next == Some(url)
    ensures var r := Paginate(pages, t, source, Some(url), budget).0; r.Extracted? && r.pages == budget
    decreases budget
  {
    if budget > 0 {
      SelfLinkRunsToTheCap(pages, t + 1, source, url, budget - 1);
    }
  }

  /** A page that came: where it was, its rows and its next link. */
  datatype PageSeen = PageSeen(url: string, rows: seq<Record>, next: Option<string>)

  /** Where the page after `seen` is, from `url` on. */
  function NextUrl(url: Option<string>, seen: seq<PageSeen>): Option<string> {
    if seen == [] then url else seen[|seen| - 1].next
  }

  /** The pages that came, moment by moment, each at the next link of the one before. */
  ghost predicate Came(pages: Pages, t: nat, source: string, url: Option<string>, seen: seq<PageSeen>) {
    forall j {:trigger seen[j]} :: 0 <= j < |seen| ==>
      && pages(t + j, source, seen[j].url) == Crawled(seen[j].rows, seen[j].next)
      && Some(seen[j].url) == NextUrl(url, seen[..j])
  }

  /** Their rows, joined in that order. */
  function AllRows(seen: seq<PageSeen>): seq<Record> {
    if seen == [] then [] else AllRows(seen[..|seen| - 1]) + seen[|seen| - 1].rows
  }

  lemma {:induction false} AllRowsFront(first: PageSeen, rest: seq<PageSeen>)
    ensures AllRows([first] + rest) == first.rows + AllRows(rest)
  {
    var all := [first] + rest;
    if rest == [] {
      assert all[..0] == [];
    } else {
      assert all[..|all| - 1] == [first] + rest[..|rest| - 1];
      AllRowsFront(first, rest[..|rest| - 1]);
    }
  }

  lemma CameFront(pages: Pages, t: nat, source: string, first: PageSeen, rest: seq<PageSeen>)
    requires pages(t, source, first.url) == Crawled(first.rows, first.next)
    requires Came(pages, t + 1, source, first.next, rest)
    ensures Came(pages, t, source, Some(first.url), [first] + rest)
    ensures NextUrl(Some(first.url), [first] + rest) == NextUrl(first.next, rest)
  {
    var all := [first] + rest;
    forall j | 0 <= j < |all|
      ensures pages(t + j, source, all[j].url) == Crawled(all[j].rows, all[j].next)
      ensures Some(all[j].url) == NextUrl(Some(first.url), all[..j])
    {
      if j > 0 {
        assert all[j] == rest[j - 1];
        assert all[..j] == [first] + rest[..j - 1];
      }
    }
  }

  /** How a run over the pages `seen` ends: at the cap or at a page without a next one, with their
      rows; or at a page that crashed. */
  ghost predicate EndsAfter(
    pages: Pages, t: nat, source: string, url: Option<string>, budget: nat, seen: seq<PageSeen>, run: VersionRun, end: nat)
  {
    var next := NextUrl(url, seen);
    match run
    case Extracted(items, k) =>
      && k == |seen| <= budget && end == t + k && items == AllRows(seen)
      && (k == budget || next.None?)
    case Raised(failure) =>
      && |seen| < budget && end == t + |seen| + 1
      && next.Some? && pages(t + |seen|, source, next.value) == Crashed(failure)
  }

  /** The pages `seen` came, and then the run ended with `ended`. */
  ghost predicate Traced(
    pages: Pages, t: nat, source: string, url: Option<string>, budget: nat, seen: seq<PageSeen>, ended: (VersionRun, nat))
  {
    Came(pages, t, source, url, seen) && EndsAfter(pages, t, source, url, budget, seen, ended.0, ended.1)
  }

  lemma TracedFront(
    pages: Pages, t: nat, source: string, first: PageSeen, budget: nat, rest: seq<PageSeen>, ended: (VersionRun, nat))
    requires pages(t, source, first.url) == Crawled(first.rows, first.next)
    requires Traced(pages, t + 1, source, first.next, budget, rest, ended)
    ensures Traced(pages, t, source, Some(first.url), budget + 1, [first] + rest,
                   (if ended.0.Raised? then ended.0 else Extracted(first.rows + ended.0.items, ended.0.pages + 1), ended.1))
  {
    CameFront(pages, t, source, first, rest);
    AllRowsFront(first, rest);
  }

  lemma PaginateFront(pages: Pages, t: nat, source: string, first: PageSeen, budget: nat)
    requires pages(t, source, first.url) == Crawled(first.rows, first.next)
    ensures var rest := Paginate(pages, t + 1, source, first.next, budget);
      Paginate(pages, t, source, Some(first.url), budget + 1)
        == (if rest.0.Raised? then rest.0 else Extracted(first.rows + rest.0.items, rest.0.pages + 1), rest.1)
  {
  }

  lemma NoPages(pages: Pages, t: nat, source: string, url: Option<string>, budget: nat)
    requires url.None? || budget == 0 || pages(t, source, url.value).Crashed?
    ensures Traced(pages, t, source, url, budget, [], Paginate(pages, t, source, url, budget))
  {
  }

  /** An extraction is the rows of the pages that came, in the order they were fetched. */
  lemma {:induction false} ItemsInFetchOrder(pages: Pages, t: nat, source: string, url: Option<string>, budget: nat)
    returns (seen: seq<PageSeen>)
    ensures Traced(pages, t, source, url, budget, seen, Paginate(pages, t, source, url, budget))
    decreases budget
  {
    if url.None? || budget == 0 || pages(t, source, url.value).Crashed? {
      seen := [];
      NoPages(pages, t, source, url, budget);
    } else {
      var page := pages(t, source, url.value);
      var first := PageSeen(url.value, page.items, page.next);
      var rest := ItemsInFetchOrder(pages, t + 1, source, page.next, budget - 1);
      TracedFront(pages, t, source, first, budget - 1, rest, Paginate(pages, t + 1, source, page.next, budget - 1));
      PaginateFront(pages, t, source, first, budget - 1);
      seen := [first] + rest;
    }
  }

  // ---- the ladder walk ----

  /** What happened at one rung. */
  datatype Verdict = Serves(items: seq<Record>, pages: nat) | Rejects | Raises(failure: Failure)

  datatype FamilyRun =
    | Served(items: seq<Record>, version: int, pages: nat)
    | NoneServed
    | RunRaised(failure: Failure)

  /** A walk tries rungs in order and goes on only after a rejection. */
  ghost predicate IsWalk(ladder: seq<Version>, verdicts: seq<Verdict>) {
    && |verdicts| <= |ladder|
    && (forall j :: 0 <= j < |verdicts| - 1 ==> verdicts[j].Rejects?)
    && (verdicts == [] || verdicts[|verdicts| - 1].Rejects? ==> |verdicts| == |ladder|)
  }

  type Validator = (string, seq<Record>) -> bool

  /** The verdict of one rung tried at moment `t`; with the moment after it. */
  function VerdictAt(
    pages: Pages, t: nat, rung: Version, url: string, accepts: Validator, maxPages: nat): (Verdict, nat)
  {
    var (run, next) := Paginate(pages, t, rung.source, Some(url), maxPages);
    match run
    case Raised(f) => (Raises(f), next)
    case Extracted(items, k) => (if accepts(rung.source, items) then Serves(items, k) else Rejects, next)
  }

  /** The verdicts of a walk from rung `i` on, from moment `t`; with the moment after it. */
  function VerdictsFrom(
    pages: Pages, t: nat, ladder: seq<Version>, url: string, accepts: Validator, maxPages: nat, i: nat): (seq<Verdict>, nat)
    requires i <= |ladder|
    decreases |ladder| - i
  {
    if i == |ladder| then ([], t)
    else
      var (v, next) := VerdictAt(pages, t, ladder[i], url, accepts, maxPages);
      if v.Rejects? then
        var (rest, end) := VerdictsFrom(pages, next, ladder, url, accepts, maxPages, i + 1);
        ([v] + rest, end)
      else ([v], next)
  }

  /** Verdicts of the rungs from `i` on, as a walk. */
  ghost predicate WalkFrom(ladder: seq<Version>, i: nat, verdicts: seq<Verdict>, accepts: Validator) {
    && i + |verdicts| <= |ladder|
    && (forall j :: 0 <= j < |verdicts| - 1 ==> verdicts[j].Rejects?)
    && (verdicts == [] || verdicts[|verdicts| - 1].Rejects? ==> i + |verdicts| == |ladder|)
    && (forall j :: 0 <= j < |verdicts| && verdicts[j].Serves? ==> accepts(ladder[i + j].source, verdicts[j].items))
  }

  lemma RejectThenWalk(ladder: seq<Version>, i: nat, rest: seq<Verdict>, accepts: Validator)
    requires i < |ladder| && WalkFrom(ladder, i + 1, rest, accepts)
    ensures WalkFrom(ladder, i, [Rejects] + rest, accepts)
  {
    var more := [Rejects] + rest;
    assert forall j :: 1 <= j < |more| ==> more[j] == rest[j - 1];
  }

  /** The verdicts are those of a walk: on past rejections only, and down to the last rung unless
      one served or raised; whatever serves was accepted. */
  lemma {:induction false} VerdictsAreWalk(
    pages: Pages, t: nat, ladder: seq<Version>, url: string, accepts: Validator, maxPages: nat, i: nat)
    requires i <= |ladder|
    ensures WalkFrom(ladder, i, VerdictsFrom(pages, t, ladder, url, accepts, maxPages, i).0, accepts)
    decreases |ladder| - i
  {
    if i < |ladder| {
      var (v, next) := VerdictAt(pages, t, ladder[i], url, accepts, maxPages);
      if v.Rejects? {
        VerdictsAreWalk(pages, next, ladder, url, accepts, maxPages, i + 1);
        var rest := VerdictsFrom(pages, next, ladder, url, accepts, maxPages, i + 1).0;
        RejectThenWalk(ladder, i, rest, accepts);
      }
    }
  }

  /** The outcome is that of the first rung that did not reject. */
  ghost function OutcomeOf(ladder: seq<Version>, verdicts: seq<Verdict>): FamilyRun
    requires |verdicts| <= |ladder|
  {
    if verdicts == [] then NoneServed
    else match verdicts[|verdicts| - 1]
      case Serves(items, pages) => Served(items, ladder[|verdicts| - 1].n, pages)
      case Rejects => NoneServed
      case Raises(f) => RunRaised(f)
  }

  /** The run counters after the walk, one `record_run` at a time. */
  ghost function Recorded(vs: seq<Version>, family: string, ladder: seq<Version>, verdicts: seq<Verdict>): seq<Version>
    requires |verdicts| <= |ladder|
  {
    if verdicts == [] then vs
    else
      var k := |verdicts| - 1;
      var before := Recorded(vs, family, ladder, verdicts[..k]);
      if verdicts[k].Raises? then before
      else Update(before, family, Credit(ladder[k].n, verdicts[k].Serves?))
  }

  function SuccessesOf(rows: seq<Version>): nat {
    if rows == [] then 0 else SuccessesOf(rows[..|rows| - 1]) + rows[|rows| - 1].successes
  }

  /** `_total_successes`. */
  function TotalSuccesses(vs: seq<Version>, family: string): nat {
    SuccessesOf(RowsOf(vs, family))
  }

  /** The outcome of one rung: its verdict and its credit. */
  method RunRung(reg: Registry, site: Site, family: string, url: string, rung: Version, accepts: Validator, maxPages: nat)
    returns (v: Verdict)
    modifies reg`versions, site
    ensures (v, site.clock) == VerdictAt(site.pages, old(site.clock), rung, url, accepts, maxPages)
    ensures reg.versions ==
      if v.Raises? then old(reg.versions) else Update(old(reg.versions), family, Credit(rung.n, v.Serves?))
  {
    var run := RunVersion(site, rung.source, url, maxPages);
    if run.Raised? {
      return Raises(run.failure);
    }
    var ok := accepts(rung.source, run.items);
    var _ := reg.RecordRun(family, rung.n, ok);
    v := if ok then Serves(run.items, run.pages) else Rejects;
  }

  /** The counters after one more rung. */
  lemma RecordedNext(vs: seq<Version>, family: string, ladder: seq<Version>, before: seq<Verdict>, v: Verdict)
    requires |before| < |ladder|
    ensures var recorded := Recorded(vs, family, ladder, before);
      Recorded(vs, family, ladder, before + [v]) ==
        if v.Raises? then recorded else Update(recorded, family, Credit(ladder[|before|].n, v.Serves?))
  {
    assert (before + [v])[..|before|] == before;
  }

  /** The verdicts `before` of the first `i` rungs are how the whole walk begins. */
  ghost predicate Begins(
    pages: Pages, start: nat, t: nat, ladder: seq<Version>, url: string, accepts: Validator, maxPages: nat,
    before: seq<Verdict>)
    requires |before| <= |ladder|
  {
    var (rest, end) := VerdictsFrom(pages, t, ladder, url, accepts, maxPages, |before|);
    VerdictsFrom(pages, start, ladder, url, accepts, maxPages, 0) == (before + rest, end)
  }

  lemma BeginsNext(
    pages: Pages, start: nat, t: nat, ladder: seq<Version>, url: string, accepts: Validator, maxPages: nat,
    before: seq<Verdict>)
    requires |before| < |ladder| && Begins(pages, start, t, ladder, url, accepts, maxPages, before)
    ensures var (v, next) := VerdictAt(pages, t, ladder[|before|], url, accepts, maxPages);
      if v.Rejects? then Begins(pages, start, next, ladder, url, accepts, maxPages, before + [v])
      else VerdictsFrom(pages, start, ladder, url, accepts, maxPages, 0) == (before + [v], next)
  {
    var (v, next) := VerdictAt(pages, t, ladder[|before|], url, accepts, maxPages);
    if v.Rejects? {
      var rest := VerdictsFrom(pages, next, ladder, url, accepts, maxPages, |before| + 1).0;
      assert before + ([v] + rest) == (before + [v]) + rest;
    }
  }

  lemma BeginsWithNothing(
    pages: Pages, start: nat, ladder: seq<Version>, url: string, accepts: Validator, maxPages: nat)
    ensures Begins(pages, start, start, ladder, url, accepts, maxPages, [])
  {
    var whole := VerdictsFrom(pages, start, ladder, url, accepts, maxPages, 0).0;
    assert [] + whole == whole;
  }

  lemma BeginsWithAll(
    pages: Pages, start: nat, t: nat, ladder: seq<Version>, url: string, accepts: Validator, maxPages: nat,
    all: seq<Verdict>)
    requires |all| == |ladder| && Begins(pages, start, t, ladder, url, accepts, maxPages, all)
    ensures VerdictsFrom(pages, start, ladder, url, accepts, maxPages, 0) == (all, t)
  {
    assert all + [] == all;
  }

  /** What the caller is told when `v` ends the walk. */
  function EndedBy(rung: Version, v: Verdict): FamilyRun {
    match v
    case Serves(items, pages) => Served(items, rung.n, pages)
    case Rejects => NoneServed
    case Raises(f) => RunRaised(f)
  }

  lemma OutcomeNext(ladder: seq<Version>, before: seq<Verdict>, v: Verdict)
    requires |before| < |ladder|
    ensures OutcomeOf(ladder, before + [v]) == EndedBy(ladder[|before|], v)
  {
  }

  lemma OutcomeOfRejections(ladder: seq<Version>, verdicts: seq<Verdict>)
    requires |verdicts| <= |ladder| && (verdicts != [] ==> verdicts[|verdicts| - 1].Rejects?)
    ensures OutcomeOf(ladder, verdicts) == NoneServed
  {
  }

  /** Rungs in ladder order until one serves or raises. */
  method TryRungs(
    reg: Registry, site: Site, family: string, url: string, ladder: seq<Version>, accepts: Validator, maxPages: nat)
    returns (r: FamilyRun, ghost verdicts: seq<Verdict>)
    modifies reg`versions, site
    ensures (verdicts, site.clock) == VerdictsFrom(site.pages, old(site.clock), ladder, url, accepts, maxPages, 0)
    ensures |verdicts| <= |ladder| && r == OutcomeOf(ladder, verdicts)
    ensures reg.versions == Recorded(old(reg.versions), family, ladder, verdicts)
  {
    verdicts := [];
    ghost var start, vs := site.clock, reg.versions;
    BeginsWithNothing(site.pages, start, ladder, url, accepts, maxPages);
    for i := 0 to |ladder|
      invariant |verdicts| == i && (verdicts != [] ==> verdicts[i - 1].Rejects?)
      invariant Begins(site.pages, start, site.clock, ladder, url, accepts, maxPages, verdicts)
      invariant reg.versions == Recorded(vs, family, ladder, verdicts)
    {
      BeginsNext(site.pages, start, site.clock, ladder, url, accepts, maxPages, verdicts);
      var v := RunRung(reg, site, family, url, ladder[i], accepts, maxPages);
      RecordedNext(vs, family, ladder, verdicts, v);
      OutcomeNext(ladder, verdicts, v);
      verdicts := verdicts + [v];
      if !v.Rejects? {
        return EndedBy(ladder[i], v), verdicts;
      }
    }
    BeginsWithAll(site.pages, start, site.clock, ladder, url, accepts, maxPages, verdicts);
    OutcomeOfRejections(ladder, verdicts);
    r := NoneServed;
  }

  /** `run_family`: the first validating rung in ladder order serves. `accepts` is the injected
      validator, `every` the snapshot cadence. */
  method RunFamily(
    reg: Registry, site: Site, family: string, url: string, accepts: Validator,
    snapshots: bool, every: nat, maxPages: nat)
    returns (r: FamilyRun, wrote: bool, ghost verdicts: seq<Verdict>)
    requires every > 0
    modifies reg`versions, reg`history, site
    ensures var ladder := VersionLadder(old(reg.versions), family);
      && (verdicts, site.clock) == VerdictsFrom(site.pages, old(site.clock), ladder, url, accepts, maxPages, 0)
      && IsWalk(ladder, verdicts)
      && r == OutcomeOf(ladder, verdicts)
      && reg.versions == Recorded(old(reg.versions), family, ladder, verdicts)
    ensures reg.history == old(reg.history) +
      if r.Served? then [History(family, url, r.version, r.items)] else []
    ensures wrote <==> r.Served? && snapshots && TotalSuccesses(reg.versions, family) % every == 0
  {
    var ladder := VersionLadder(reg.versions, family);
    VerdictsAreWalk(site.pages, site.clock, ladder, url, accepts, maxPages, 0);
    wrote := false;
    r, verdicts := TryRungs(reg, site, family, url, ladder, accepts, maxPages);
    if r.Served? {
      reg.RecordHistory(family, url, r.version, r.items);
      wrote := snapshots && TotalSuccesses(reg.versions, family) % every == 0;
    }
  }

  // ---- what the walk does to each counter ----

  /** What a row's rung was credited with. */
  function CreditAt(v: Version, verdicts: seq<Verdict>, j: nat): Version {
    if j >= |verdicts| || verdicts[j].Raises? then v
    else v.(runs := v.runs + 1, successes := v.successes + if verdicts[j].Serves? then 1 else 0)
  }

  lemma {:induction false} RecordedElsewhere(
    vs: seq<Version>, family: string, ladder: seq<Version>, verdicts: seq<Verdict>, i: nat)
    requires |verdicts| <= |ladder| && i < |vs|
    ensures |Recorded(vs, family, ladder, verdicts)| == |vs|
    ensures vs[i].family != family ==> Recorded(vs, family, ladder, verdicts)[i] == vs[i]
  {
    if verdicts != [] {
      RecordedElsewhere(vs, family, ladder, verdicts[..|verdicts| - 1], i);
    }
  }

  /** Rungs before the winner gain a failed run, the winner a successful one, later rungs and
      other families nothing. */
  lemma {:induction false} RungCredit(
    vs: seq<Version>, family: string, ladder: seq<Version>, verdicts: seq<Verdict>, i: nat, j: nat)
    requires |verdicts| <= |ladder| && i < |vs| && j < |ladder|
    requires vs[i].family == family && ladder[j].n == vs[i].n
    requires forall a, b :: 0 <= a < b < |ladder| ==> ladder[a].n != ladder[b].n
    ensures |Recorded(vs, family, ladder, verdicts)| == |vs|
    ensures Recorded(vs, family, ladder, verdicts)[i] == CreditAt(vs[i], verdicts, j)
  {
    if verdicts != [] {
      RungCredit(vs, family, ladder, verdicts[..|verdicts| - 1], i, j);
    }
  }

  /** Each row of the family has its own rung, so `RungCredit` covers every row. */
  lemma RowHasRung(vs: seq<Version>, family: string, i: nat) returns (j: nat)
    requires Good(vs) && i < |vs| && vs[i].family == family
    ensures j < |VersionLadder(vs, family)| && VersionLadder(vs, family)[j] == vs[i]
  {
    RowsOfFamily(vs, family);
    SortPermutes(RowsOf(vs, family), LadderLe);
    SameMembers(VersionLadder(vs, family), RowsOf(vs, family), vs[i]);
    assert vs[i] in vs;
    j :| 0 <= j < |VersionLadder(vs, family)| && VersionLadder(vs, family)[j] == vs[i];
  }

  // ---- the snapshot cadence ----

  lemma {:induction false} CreditSum(rows: seq<Version>, family: string, n: int, ok: bool)
    requires Numbered(rows) && forall i :: 0 <= i < |rows| ==> rows[i].family == family
    ensures SuccessesOf(Update(rows, family, Credit(n, ok))) ==
      SuccessesOf(rows) + if ok && 1 <= n <= |rows| then 1 else 0
  {
    if rows != [] {
      var m := |rows| - 1;
      assert Update(rows, family, Credit(n, ok))[..m] == Update(rows[..m], family, Credit(n, ok));
      CreditSum(rows[..m], family, n, ok);
    }
  }

  /** A walk over a good table adds exactly one success when it serves and none otherwise. */
  lemma {:induction false} WalkSuccesses(
    vs: seq<Version>, family: string, ladder: seq<Version>, verdicts: seq<Verdict>)
    requires Good(vs) && |verdicts| <= |ladder|
    requires forall j :: 0 <= j < |ladder| ==> 1 <= ladder[j].n <= |RowsOf(vs, family)|
    requires forall j :: 0 <= j < |verdicts| - 1 ==> verdicts[j].Rejects?
    ensures var after := Recorded(vs, family, ladder, verdicts);
      && Good(after) && |RowsOf(after, family)| == |RowsOf(vs, family)|
      && TotalSuccesses(after, family) == TotalSuccesses(vs, family) +
           if verdicts != [] && verdicts[|verdicts| - 1].Serves? then 1 else 0
  {
    if verdicts != [] {
      var k := |verdicts| - 1;
      WalkSuccesses(vs, family, ladder, verdicts[..k]);
      var before := Recorded(vs, family, ladder, verdicts[..k]);
      if !verdicts[k].Raises? {
        var op := Record(family, ladder[k].n, verdicts[k].Serves?);
        forall g ensures GoodRows(RowsOf(Step(before, op), g)) {
          StepKeeps(before, op, g);
        }
        assert Recorded(vs, family, ladder, verdicts) == Step(before, op);
        RowsOfUpdate(before, family, Credit(ladder[k].n, verdicts[k].Serves?), family);
        RowsOfFamily(before, family);
        assert GoodRows(RowsOf(before, family));
        CreditSum(RowsOf(before, family), family, ladder[k].n, verdicts[k].Serves?);
      }
    }
  }

  /** Things that happen to a registry: walks of the watched family, and other operations. */
  datatype Happening = Walk(verdicts: seq<Verdict>) | Other(op: Op)

  ghost predicate CanHappen(vs: seq<Version>, family: string, h: Happening) {
    match h
    case Walk(verdicts) => IsWalk(VersionLadder(vs, family), verdicts)
    case Other(op) => op.Record? ==> op.family != family
  }

  ghost function After(vs: seq<Version>, family: string, h: Happening): seq<Version>
    requires CanHappen(vs, family, h)
  {
    match h
    case Walk(verdicts) => Recorded(vs, family, VersionLadder(vs, family), verdicts)
    case Other(op) => Step(vs, op)
  }

  /** Whether `RunFamily` writes a snapshot at this happening. */
  ghost predicate Snapshots(vs: seq<Version>, family: string, h: Happening, every: nat)
    requires every > 0 && CanHappen(vs, family, h)
  {
    && h.Walk? && h.verdicts != [] && h.verdicts[|h.verdicts| - 1].Serves?
    && TotalSuccesses(After(vs, family, h), family) % every == 0
  }

  ghost predicate CanRun(vs: seq<Version>, family: string, hs: seq<Happening>)
    decreases |hs|
  {
    hs != [] ==> CanHappen(vs, family, hs[0]) && CanRun(After(vs, family, hs[0]), family, hs[1..])
  }

  ghost function Finally(vs: seq<Version>, family: string, hs: seq<Happening>): seq<Version>
    requires CanRun(vs, family, hs)
    decreases |hs|
  {
    if hs == [] then vs else Finally(After(vs, family, hs[0]), family, hs[1..])
  }

  ghost function SnapshotCount(vs: seq<Version>, family: string, hs: seq<Happening>, every: nat): nat
    requires every > 0 && CanRun(vs, family, hs)
    decreases |hs|
  {
    if hs == [] then 0
    else (if Snapshots(vs, family, hs[0], every) then 1 else 0)
         + SnapshotCount(After(vs, family, hs[0]), family, hs[1..], every)
  }

  lemma {:induction false} StatusKeepsSum(rows: seq<Version>, family: string, c: Change)
    requires !c.Credit?
    ensures SuccessesOf(Update(rows, family, c)) == SuccessesOf(rows)
  {
    if rows != [] {
      var m := |rows| - 1;
      assert Update(rows, family, c)[..m] == Update(rows[..m], family, c);
      StatusKeepsSum(rows[..m], family, c);
    }
  }

  lemma AddKeepsTotal(vs: seq<Version>, f: string, source: string, family: string)
    ensures TotalSuccesses(Added(vs, f, source), family) == TotalSuccesses(vs, family)
  {
    RowsOfAdded(vs, f, source, family);
    var rows := RowsOf(Added(vs, f, source), family);
    if f == family {
      assert rows[..|rows| - 1] == RowsOf(vs, family);
    } else {
      assert rows == RowsOf(vs, family);
    }
  }

  lemma StepKeepsGood(vs: seq<Version>, op: Op)
    requires Good(vs)
    ensures Good(Step(vs, op))
  {
    forall g ensures GoodRows(RowsOf(Step(vs, op), g)) {
      StepKeeps(vs, op, g);
    }
  }

  /** Ladder surgery never changes the family's success total. */
  lemma OtherKeepsTotal(vs: seq<Version>, family: string, op: Op)
    requires Good(vs) && (op.Record? ==> op.family != family)
    ensures Good(Step(vs, op)) && TotalSuccesses(Step(vs, op), family) == TotalSuccesses(vs, family)
  {
    StepKeepsGood(vs, op);
    match op
    case Add(f, source) =>
      AddKeepsTotal(vs, f, source, family);
    case SetActive(f, n) =>
      MovesKeepTotal(vs, f, Fallback, n, family);
    case Rollback(f) =>
      if TopFallback(RowsOf(vs, f)).Some? {
        MovesKeepTotal(vs, f, Archived, TopFallback(RowsOf(vs, f)).value, family);
      }
    case Record(_, _, _) =>
      StepKeeps(vs, op, family);
  }

  lemma MovesKeepTotal(vs: seq<Version>, f: string, to: Status, n: int, family: string)
    ensures TotalSuccesses(Update(Update(vs, f, Demote(to)), f, Promote(n)), family) ==
      TotalSuccesses(vs, family)
  {
    RowsOfUpdate(vs, f, Demote(to), family);
    RowsOfUpdate(Update(vs, f, Demote(to)), f, Promote(n), family);
    StatusKeepsSum(RowsOf(vs, family), f, Demote(to));
    StatusKeepsSum(RowsOf(Update(vs, f, Demote(to)), family), f, Promote(n));
  }

  lemma HappeningTotal(vs: seq<Version>, family: string, h: Happening)
    requires Good(vs) && CanHappen(vs, family, h)
    ensures Good(After(vs, family, h))
    ensures TotalSuccesses(After(vs, family, h), family) == TotalSuccesses(vs, family) +
      if h.Walk? && h.verdicts != [] && h.verdicts[|h.verdicts| - 1].Serves? then 1 else 0
  {
    match h
    case Other(op) => OtherKeepsTotal(vs, family, op);
    case Walk(verdicts) =>
      var ladder := VersionLadder(vs, family);
      SortPermutes(RowsOf(vs, family), LadderLe);
      assert GoodRows(RowsOf(vs, family));
      forall j | 0 <= j < |ladder| ensures 1 <= ladder[j].n <= |RowsOf(vs, family)| {
        SameMembers(ladder, RowsOf(vs, family), ladder[j]);
        var i :| 0 <= i < |RowsOf(vs, family)| && RowsOf(vs, family)[i] == ladder[j];
      }
      WalkSuccesses(vs, family, ladder, verdicts);
  }

  lemma NextMultiple(total: nat, every: nat)
    requires every > 0
    ensures (total + 1) / every == total / every + if (total + 1) % every == 0 then 1 else 0
  {
    var q, r := (total + 1) / every, (total + 1) % every;
    assert total + 1 == q * every + r;
    if r == 0 {
      assert total == (q - 1) * every + (every - 1);
      Quotient(total, every, q - 1, every - 1);
    } else {
      Quotient(total, every, q, r - 1);
    }
  }

  lemma Quotient(a: int, b: int, q: int, r: int)
    requires b > 0 && 0 <= r < b && a == q * b + r
    ensures a / b == q
  {
    var p := a / b;
    assert a == p * b + a % b;
    if p < q {
      Gap(q - p, b);
    } else if q < p {
      Gap(p - q, b);
    }
  }

  lemma Gap(d: int, b: int)
    requires d >= 1 && b > 0
    ensures d * b >= b
  {
  }

  /** Over any sequence of walks and other operations the snapshots written are exactly the
      multiples of `every` that the success total passed. */
  lemma {:induction false} SnapshotCadence(vs: seq<Version>, family: string, hs: seq<Happening>, every: nat)
    requires Good(vs) && every > 0 && CanRun(vs, family, hs)
    ensures SnapshotCount(vs, family, hs, every) + TotalSuccesses(vs, family) / every ==
      TotalSuccesses(Finally(vs, family, hs), family) / every
    decreases |hs|
  {
    if hs != [] {
      var after := After(vs, family, hs[0]);
      HappeningTotal(vs, family, hs[0]);
      SnapshotCadence(after, family, hs[1..], every);
      OneSnapshot(vs, family, hs[0], every);
    }
  }

  lemma OneSnapshot(vs: seq<Version>, family: string, h: Happening, every: nat)
    requires every > 0 && CanHappen(vs, family, h)
    requires TotalSuccesses(After(vs, family, h), family) == TotalSuccesses(vs, family) +
      if h.Walk? && h.verdicts != [] && h.verdicts[|h.verdicts| - 1].Serves? then 1 else 0
    ensures TotalSuccesses(After(vs, family, h), family) / every ==
      TotalSuccesses(vs, family) / every + if Snapshots(vs, family, h, every) then 1 else 0
  {
    NextMultiple(TotalSuccesses(vs, family), every);
  }

  /** From a fresh family: snapshots written = successes / every, rounded down. */
  lemma FreshFamilyCadence(vs: seq<Version>, family: string, hs: seq<Happening>, every: nat)
    requires Good(vs) && every > 0 && CanRun(vs, family, hs) && RowsOf(vs, family) == []
    ensures SnapshotCount(vs, family, hs, every) ==
      TotalSuccesses(Finally(vs, family, hs), family) / every
  {
    SnapshotCadence(vs, family, hs, every);
    Quotient(0, every, 0, 0);
  }
}
