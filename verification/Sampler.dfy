// Collecting sample pages (crawloop/loop/sampler.py): seeds first, then a budgeted
// breadth-first harvest of same-host links. Fetching is a function from URL to an optional
// page; link extraction, URL joining and host parsing are parameters.
module Sampler {
  import opened Wrappers
  import opened Pages
  import opened Positions
  import opened Failures

  /** A page, a typed access failure (which sampling swallows), or an error it lets through. */
  datatype Fetched = Html(html: string) | Failed | Stops(failure: Failure)

  datatype Web = Web(
    fetch: string -> Fetched, hrefs: string -> seq<string>,
    join: (string, string) -> Option<string>, host: string -> string)
  {
    function Get(url: string): Option<string> {
      if fetch(url).Html? then Some(fetch(url).html) else None
    }
  }

  /** Same-host targets of the page's hrefs, first occurrences in order. */
  function Links(w: Web, hrefs: seq<string>, pageUrl: string): seq<string> {
    if hrefs == [] then []
    else
      var before := Links(w, hrefs[..|hrefs| - 1], pageUrl);
      var target := w.join(pageUrl, hrefs[|hrefs| - 1]);
      if target.None? || target.value == "" || target.value in before then before
      else if w.host(target.value) != w.host(pageUrl) then before
      else before + [target.value]
  }

  /** `_harvest_links`. */
  method HarvestLinks(w: Web, html: string, pageUrl: string) returns (out: seq<string>)
    ensures out == Links(w, w.hrefs(html), pageUrl)
  {
    var hrefs := w.hrefs(html);
    out := [];
    for i := 0 to |hrefs|
      invariant out == Links(w, hrefs[..i], pageUrl)
    {
      assert hrefs[..i + 1][..i] == hrefs[..i];
      var target := w.join(pageUrl, hrefs[i]);
      if target.None? || target.value == "" || target.value in out {
        continue;
      }
      if w.host(target.value) != w.host(pageUrl) {
        continue;
      }
      out := out + [target.value];
    }
    assert hrefs[..|hrefs|] == hrefs;
  }

  /** A link is harvested exactly when some href joins to it, it is not empty and its host is the page's. */
  lemma {:induction false} LinkExact(w: Web, hrefs: seq<string>, pageUrl: string, link: string)
    ensures link in Links(w, hrefs, pageUrl) <==>
      && link != "" && w.host(link) == w.host(pageUrl)
      && exists i :: 0 <= i < |hrefs| && w.join(pageUrl, hrefs[i]) == Some(link)
    ensures forall i, j :: 0 <= i < j < |Links(w, hrefs, pageUrl)| ==>
      Links(w, hrefs, pageUrl)[i] != Links(w, hrefs, pageUrl)[j]
  {
    if hrefs != [] {
      var n := |hrefs| - 1;
      LinkExact(w, hrefs[..n], pageUrl, link);
      assert forall i :: 0 <= i < n ==> hrefs[..n][i] == hrefs[i];
    }
  }

  /** What the hrefs join to. */
  ghost function Targets(w: Web, hrefs: seq<string>, pageUrl: string): (r: seq<Option<string>>)
    ensures |r| == |hrefs|
  {
    seq(|hrefs|, i requires 0 <= i < |hrefs| => w.join(pageUrl, hrefs[i]))
  }

  ghost function Somes(links: seq<string>): (r: seq<Option<string>>)
    ensures |r| == |links|
  {
    seq(|links|, i requires 0 <= i < |links| => Some(links[i]))
  }

  /** Links stand in the order of the first href that joins to each. */
  lemma {:induction false} LinksInOrder(w: Web, hrefs: seq<string>, pageUrl: string)
    ensures InFirstOrder(Somes(Links(w, hrefs, pageUrl)), Targets(w, hrefs, pageUrl))
  {
    if hrefs != [] {
      var n := |hrefs| - 1;
      var front, last := hrefs[..n], hrefs[n];
      var target := w.join(pageUrl, last);
      var before := Links(w, front, pageUrl);
      LinksInOrder(w, front, pageUrl);
      assert Targets(w, hrefs, pageUrl) == Targets(w, front, pageUrl) + [target];
      if Links(w, hrefs, pageUrl) == before {
        SameInFirstOrder(Somes(before), Targets(w, front, pageUrl), target);
      } else {
        assert Somes(before + [target.value]) == Somes(before) + [target];
        NewTarget(w, front, pageUrl, target.value);
        MoreInFirstOrder(Somes(before), Targets(w, front, pageUrl), target);
      }
    }
  }

  /** A link of the page that no href so far was harvested for is not what any of them joins to. */
  lemma NewTarget(w: Web, hrefs: seq<string>, pageUrl: string, link: string)
    requires link != "" && w.host(link) == w.host(pageUrl) && link !in Links(w, hrefs, pageUrl)
    ensures Some(link) !in Targets(w, hrefs, pageUrl)
  {
    LinkExact(w, hrefs, pageUrl, link);
  }

  // ---- the searched graph ----

  ghost predicate Edge(w: Web, u: string, v: string) {
    w.Get(u).Some? && v in Links(w, w.hrefs(w.Get(u).value), u)
  }

  /** A walk over fetchable pages from a seed along harvested links. */
  ghost predicate Walk(w: Web, seeds: seq<string>, p: seq<string>) {
    && p != [] && p[0] in seeds
    && (forall i :: 0 <= i < |p| ==> w.Get(p[i]).Some?)
    && (forall i :: 0 <= i < |p| - 1 ==> Edge(w, p[i], p[i + 1]))
  }

  ghost predicate Reachable(w: Web, seeds: seq<string>, u: string) {
    exists p :: Walk(w, seeds, p) && p[|p| - 1] == u
  }

  lemma SeedReachable(w: Web, seeds: seq<string>, u: string)
    requires u in seeds && w.Get(u).Some?
    ensures Reachable(w, seeds, u)
  {
    assert Walk(w, seeds, [u]);
  }

  lemma LinkReachable(w: Web, seeds: seq<string>, u: string, v: string)
    requires Reachable(w, seeds, u) && Edge(w, u, v) && w.Get(v).Some?
    ensures Reachable(w, seeds, v)
  {
    var p :| Walk(w, seeds, p) && p[|p| - 1] == u;
    assert Walk(w, seeds, p + [v]);
  }

  ghost predicate SeedHost(w: Web, seeds: seq<string>, u: string) {
    exists s :: s in seeds && w.host(s) == w.host(u)
  }

  /** Every reachable page sits on a seed's host. */
  lemma {:induction false} WalkStaysOnHost(w: Web, seeds: seq<string>, p: seq<string>)
    requires Walk(w, seeds, p)
    ensures SeedHost(w, seeds, p[|p| - 1])
  {
    var n := |p| - 1;
    if n > 0 {
      WalkStaysOnHost(w, seeds, p[..n]);
      assert Edge(w, p[n - 1], p[n]);
      LinkExact(w, w.hrefs(w.Get(p[n - 1]).value), p[n - 1], p[n]);
      var s :| s in seeds && w.host(s) == w.host(p[n - 1]);
      assert w.host(s) == w.host(p[n]);
    }
  }

  // ---- the search state ----

  /** `halted`: an attempt ended in an error that leaves the search. */
  datatype Search = State(collected: seq<Page>, seen: set<string>, attempts: nat, halted: Option<Failure>)

  function Urls(pages: seq<Page>): set<string> {
    set i | 0 <= i < |pages| :: pages[i].url
  }

  function LinksOn(w: Web, page: Page): seq<string> {
    Links(w, w.hrefs(page.html), page.url)
  }

  /** A seed, or a link of a collected page. */
  ghost predicate Known(w: Web, seeds: seq<string>, pages: seq<Page>, u: string) {
    u in seeds || exists i :: 0 <= i < |pages| && u in LinksOn(w, pages[i])
  }

  /** Pages collected so far answered, are reachable and are distinct. */
  ghost predicate Collected(w: Web, seeds: seq<string>, s: Search) {
    && (forall i :: 0 <= i < |s.collected| ==>
          && s.collected[i].url in s.seen
          && w.Get(s.collected[i].url) == Some(s.collected[i].html)
          && Reachable(w, seeds, s.collected[i].url))
    && (forall i, j :: 0 <= i < j < |s.collected| ==> s.collected[i].url != s.collected[j].url)
  }

  /** The error is that of a URL tried, and there is none only if no URL tried has one. */
  ghost predicate Halts(w: Web, tried: set<string>, halted: Option<Failure>) {
    match halted
    case None => forall u :: u in tried ==> !w.fetch(u).Stops?
    case Some(failure) => exists u :: u in tried && w.fetch(u) == Stops(failure)
  }

  /** Attempts are exactly the distinct URLs tried, all of them known, and the collected pages
      are exactly the ones that answered. */
  ghost predicate Consistent(w: Web, seeds: seq<string>, s: Search) {
    && |s.seen| == s.attempts
    && Collected(w, seeds, s)
    && (forall u :: u in s.seen ==> Known(w, seeds, s.collected, u))
    && (forall u :: u in s.seen && w.Get(u).Some? ==> u in Urls(s.collected))
    && Halts(w, s.seen, s.halted)
  }

  /** The guard both loops re-check before every attempt; an escaping error ends them too. */
  predicate Stop(s: Search, n: int, maxFetch: int) {
    s.halted.Some? || |s.collected| >= n || s.attempts >= maxFetch
  }

  predicate Within(s: Search, n: int, maxFetch: int) {
    && (|s.collected| <= n || s.collected == [])
    && (s.attempts <= maxFetch || s.attempts == 0)
  }

  function Answered(w: Web, url: string): seq<Page> {
    match w.Get(url)
    case None => []
    case Some(html) => [Page(url, html)]
  }

  /** The state after trying `url`: nothing for one already tried. */
  function Attempt(w: Web, s: Search, url: string): Search {
    if url in s.seen then s
    else State(s.collected + Answered(w, url), s.seen + {url}, s.attempts + 1,
               if w.fetch(url).Stops? then Some(w.fetch(url).failure) else s.halted)
  }

  /** `_try_fetch`. */
  method TryFetch(w: Web, url: string, s: Search) returns (r: Search)
    ensures r == Attempt(w, s, url)
  {
    if url in s.seen {
      return s;
    }
    var seen := s.seen + {url};
    match w.fetch(url) {
      case Html(html) => r := State(s.collected + [Page(url, html)], seen, s.attempts + 1, s.halted);
      case Failed => r := State(s.collected, seen, s.attempts + 1, s.halted);
      case Stops(failure) => r := State(s.collected, seen, s.attempts + 1, Some(failure));
    }
  }

  lemma KnownReachable(w: Web, seeds: seq<string>, s: Search, u: string)
    requires Consistent(w, seeds, s) && Known(w, seeds, s.collected, u) && w.Get(u).Some?
    ensures Reachable(w, seeds, u)
  {
    if u in seeds {
      SeedReachable(w, seeds, u);
    } else {
      var i :| 0 <= i < |s.collected| && u in LinksOn(w, s.collected[i]);
      assert Edge(w, s.collected[i].url, u);
      LinkReachable(w, seeds, s.collected[i].url, u);
    }
  }

  lemma KnownGrows(w: Web, seeds: seq<string>, pages: seq<Page>, more: seq<Page>, u: string)
    requires Known(w, seeds, pages, u)
    ensures Known(w, seeds, pages + more, u)
  {
    if u !in seeds {
      var i :| 0 <= i < |pages| && u in LinksOn(w, pages[i]);
      assert (pages + more)[i] == pages[i];
    }
  }

  lemma AttemptCollects(w: Web, seeds: seq<string>, s: Search, url: string)
    requires Collected(w, seeds, s) && (w.Get(url).Some? ==> Reachable(w, seeds, url))
    ensures Collected(w, seeds, Attempt(w, s, url))
  {
  }

  lemma AttemptKnown(w: Web, seeds: seq<string>, s: Search, url: string)
    requires forall u :: u in s.seen + {url} ==> Known(w, seeds, s.collected, u)
    ensures var r := Attempt(w, s, url);
      forall u :: u in r.seen ==> Known(w, seeds, r.collected, u)
  {
    forall u | u in s.seen + {url} ensures Known(w, seeds, s.collected + Answered(w, url), u) {
      KnownGrows(w, seeds, s.collected, Answered(w, url), u);
    }
  }

  lemma AttemptAnswers(w: Web, s: Search, url: string)
    requires forall u :: u in s.seen && w.Get(u).Some? ==> u in Urls(s.collected)
    ensures var r := Attempt(w, s, url);
      forall u :: u in r.seen && w.Get(u).Some? ==> u in Urls(r.collected)
  {
    var r := Attempt(w, s, url);
    forall u | u in r.seen && w.Get(u).Some? ensures u in Urls(r.collected) {
      if u in s.seen {
        var k :| 0 <= k < |s.collected| && s.collected[k].url == u;
        assert r.collected[k].url == u;
      } else {
        assert r.collected[|s.collected|].url == u;
      }
    }
  }

  lemma AttemptKeeps(w: Web, seeds: seq<string>, s: Search, url: string, n: int, maxFetch: int)
    requires Consistent(w, seeds, s) && Within(s, n, maxFetch) && !Stop(s, n, maxFetch)
    requires Known(w, seeds, s.collected, url)
    ensures var r := Attempt(w, s, url);
      Consistent(w, seeds, r) && Within(r, n, maxFetch) && r.seen == s.seen + {url}
  {
    if w.Get(url).Some? {
      KnownReachable(w, seeds, s, url);
    }
    AttemptCollects(w, seeds, s, url);
    AttemptKnown(w, seeds, s, url);
    AttemptAnswers(w, s, url);
  }

  // ---- breadth first ----

  /** `rank` is -1 for a seed, otherwise the first collected page that links to `u`. */
  ghost predicate HasRank(w: Web, seeds: seq<string>, pages: seq<Page>, u: string, rank: int) {
    if u in seeds then rank == -1
    else
      && 0 <= rank < |pages| && u in LinksOn(w, pages[rank])
      && forall i :: 0 <= i < rank ==> u !in LinksOn(w, pages[i])
  }

  /** What is tried at rank `rank`: the seeds, or the links of page `rank`. */
  ghost function Queue(w: Web, seeds: seq<string>, pages: seq<Page>, rank: int): seq<string>
    requires -1 <= rank < |pages|
  {
    if rank == -1 then seeds else LinksOn(w, pages[rank])
  }

  /** `u` first occurs in the queue before `v` does. */
  ghost predicate Earlier(queue: seq<string>, u: string, v: string) {
    forall i: nat, j: nat :: FirstAt(queue, u, i) && FirstAt(queue, v, j) ==> i < j
  }

  /** Pages stand in breadth-first order: seeds first, then by the page they were found on, which
      always comes earlier; of one rank, in the order of the seeds, or of that page's links. */
  ghost predicate Ranked(w: Web, seeds: seq<string>, pages: seq<Page>, ranks: seq<int>) {
    && |ranks| == |pages|
    && (forall k :: 0 <= k < |pages| ==> -1 <= ranks[k] < k && HasRank(w, seeds, pages, pages[k].url, ranks[k]))
    && (forall j, k :: 0 <= j < k < |pages| ==> ranks[j] <= ranks[k])
    && (forall j, k :: 0 <= j < k < |pages| && ranks[j] == ranks[k] ==>
          Earlier(Queue(w, seeds, pages, ranks[k]), pages[j].url, pages[k].url))
  }

  /** In order, and none found beyond page `top`. */
  ghost predicate RankedUpTo(w: Web, seeds: seq<string>, pages: seq<Page>, ranks: seq<int>, top: int) {
    Ranked(w, seeds, pages, ranks) && forall k :: 0 <= k < |ranks| ==> ranks[k] <= top
  }

  /** Every page of rank `rank` comes before `url` in that rank's queue. */
  ghost predicate AllEarlier(w: Web, seeds: seq<string>, pages: seq<Page>, ranks: seq<int>, url: string, rank: int)
    requires |ranks| == |pages| && -1 <= rank < |pages|
  {
    forall j :: 0 <= j < |pages| && ranks[j] == rank ==> Earlier(Queue(w, seeds, pages, rank), pages[j].url, url)
  }

  lemma RanksStay(w: Web, seeds: seq<string>, pages: seq<Page>, page: Page, u: string, rank: int)
    requires -1 <= rank < |pages|
    ensures HasRank(w, seeds, pages, u, rank) ==> HasRank(w, seeds, pages + [page], u, rank)
    ensures Queue(w, seeds, pages + [page], rank) == Queue(w, seeds, pages, rank)
  {
  }

  lemma AllRanksStay(w: Web, seeds: seq<string>, pages: seq<Page>, ranks: seq<int>, page: Page)
    requires Ranked(w, seeds, pages, ranks)
    ensures forall k :: 0 <= k < |pages| ==> -1 <= ranks[k] < k && HasRank(w, seeds, pages + [page], pages[k].url, ranks[k])
  {
    forall k | 0 <= k < |pages| ensures HasRank(w, seeds, pages + [page], pages[k].url, ranks[k]) {
      RanksStay(w, seeds, pages, page, pages[k].url, ranks[k]);
    }
  }

  lemma AllOrdersStay(w: Web, seeds: seq<string>, pages: seq<Page>, ranks: seq<int>, page: Page)
    requires Ranked(w, seeds, pages, ranks)
    ensures forall j, k :: 0 <= j < k < |pages| && ranks[j] == ranks[k] ==>
      Earlier(Queue(w, seeds, pages + [page], ranks[k]), pages[j].url, pages[k].url)
  {
    forall j, k | 0 <= j < k < |pages| && ranks[j] == ranks[k]
      ensures Earlier(Queue(w, seeds, pages + [page], ranks[k]), pages[j].url, pages[k].url)
    {
      RanksStay(w, seeds, pages, page, pages[k].url, ranks[k]);
    }
  }

  lemma RankedNext(w: Web, seeds: seq<string>, pages: seq<Page>, ranks: seq<int>, page: Page, rank: int)
    requires Ranked(w, seeds, pages, ranks) && HasRank(w, seeds, pages, page.url, rank)
    requires -1 <= rank < |pages| && forall k :: 0 <= k < |ranks| ==> ranks[k] <= rank
    requires AllEarlier(w, seeds, pages, ranks, page.url, rank)
    ensures Ranked(w, seeds, pages + [page], ranks + [rank])
  {
    AllRanksStay(w, seeds, pages, ranks, page);
    AllOrdersStay(w, seeds, pages, ranks, page);
    RanksStay(w, seeds, pages, page, page.url, rank);
  }

  /** The order after an attempt at a URL of rank `rank`. */
  lemma AttemptRanked(
    w: Web, seeds: seq<string>, s: Search, ranks: seq<int>, url: string, rank: int) returns (after: seq<int>)
    requires RankedUpTo(w, seeds, s.collected, ranks, rank) && -1 <= rank < |s.collected|
    requires url !in s.seen ==>
      HasRank(w, seeds, s.collected, url, rank) && AllEarlier(w, seeds, s.collected, ranks, url, rank)
    ensures RankedUpTo(w, seeds, Attempt(w, s, url).collected, after, rank)
  {
    after := ranks;
    if url !in s.seen && w.Get(url).Some? {
      RankedNext(w, seeds, s.collected, ranks, Page(url, w.Get(url).value), rank);
      after := ranks + [rank];
    } else {
      assert Attempt(w, s, url).collected == s.collected;
    }
  }

  // ---- what has been tried ----

  /** `u` is among what comes first: everything of rank below `rank`, and the first `k` of that rank. */
  ghost predicate ComesFirst(w: Web, seeds: seq<string>, pages: seq<Page>, rank: int, k: nat, u: string)
    requires -1 <= rank < |pages| && k <= |Queue(w, seeds, pages, rank)|
  {
    || (exists r :: -1 <= r < rank && u in Queue(w, seeds, pages, r))
    || u in Queue(w, seeds, pages, rank)[..k]
  }

  /** Exactly what comes first has been tried. */
  ghost predicate TriedFirst(w: Web, seeds: seq<string>, pages: seq<Page>, seen: set<string>, rank: int, k: nat) {
    && -1 <= rank < |pages| && k <= |Queue(w, seeds, pages, rank)|
    && forall u :: u in seen <==> ComesFirst(w, seeds, pages, rank, k, u)
  }

  /** New pages at the end do not change what comes first. */
  lemma FirstAmongMore(w: Web, seeds: seq<string>, pages: seq<Page>, more: seq<Page>, rank: int, k: nat, u: string)
    requires -1 <= rank < |pages| && k <= |Queue(w, seeds, pages, rank)|
    ensures Queue(w, seeds, pages + more, rank) == Queue(w, seeds, pages, rank)
    ensures ComesFirst(w, seeds, pages + more, rank, k, u) <==> ComesFirst(w, seeds, pages, rank, k, u)
  {
    forall r | -1 <= r <= rank ensures Queue(w, seeds, pages + more, r) == Queue(w, seeds, pages, r) {
    }
  }

  /** Trying the next URL of the queue. */
  lemma TriedOneMore(w: Web, seeds: seq<string>, s: Search, rank: int, k: nat)
    requires TriedFirst(w, seeds, s.collected, s.seen, rank, k) && k < |Queue(w, seeds, s.collected, rank)|
    ensures var r := Attempt(w, s, Queue(w, seeds, s.collected, rank)[k]);
      TriedFirst(w, seeds, r.collected, r.seen, rank, k + 1)
  {
    var queue := Queue(w, seeds, s.collected, rank);
    var r := Attempt(w, s, queue[k]);
    var more := if queue[k] in s.seen then [] else Answered(w, queue[k]);
    assert r.collected == s.collected + more;
    assert queue[..k + 1] == queue[..k] + [queue[k]];
    assert r.seen == s.seen + {queue[k]};
    FirstAmongMore(w, seeds, s.collected, more, rank, k + 1, queue[k]);
    forall u ensures u in r.seen <==> ComesFirst(w, seeds, r.collected, rank, k + 1, u) {
      FirstAmongMore(w, seeds, s.collected, more, rank, k + 1, u);
    }
  }

  /** A whole queue tried is none of the next one tried. */
  lemma NextQueue(w: Web, seeds: seq<string>, pages: seq<Page>, seen: set<string>, rank: int)
    requires -1 <= rank < |pages| - 1
    requires TriedFirst(w, seeds, pages, seen, rank, |Queue(w, seeds, pages, rank)|)
    ensures TriedFirst(w, seeds, pages, seen, rank + 1, 0)
  {
    var queue := Queue(w, seeds, pages, rank);
    assert queue[..|queue|] == queue;
    forall u ensures ComesFirst(w, seeds, pages, rank + 1, 0, u) <==> ComesFirst(w, seeds, pages, rank, |queue|, u) {
      if u in queue {
        assert u in Queue(w, seeds, pages, rank);
      }
    }
  }

  /** The next URL of the queue, if it is new, comes after every page of its rank. */
  lemma NewIsLast(w: Web, seeds: seq<string>, s: Search, ranks: seq<int>, rank: int, k: nat)
    requires TriedFirst(w, seeds, s.collected, s.seen, rank, k) && k < |Queue(w, seeds, s.collected, rank)|
    requires Ranked(w, seeds, s.collected, ranks)
    requires forall i :: 0 <= i < |s.collected| ==> s.collected[i].url in s.seen
    requires Queue(w, seeds, s.collected, rank)[k] !in s.seen
    ensures AllEarlier(w, seeds, s.collected, ranks, Queue(w, seeds, s.collected, rank)[k], rank)
  {
    var queue := Queue(w, seeds, s.collected, rank);
    forall j | 0 <= j < |s.collected| && ranks[j] == rank ensures Earlier(queue, s.collected[j].url, queue[k]) {
      FirstOfItsRank(w, seeds, s.collected, s.collected[j].url, rank, k);
      NotBefore(w, seeds, s, rank, k);
    }
  }

  /** What comes first and has rank `rank` is among the first `k` of that rank. */
  lemma FirstOfItsRank(w: Web, seeds: seq<string>, pages: seq<Page>, u: string, rank: int, k: nat)
    requires -1 <= rank < |pages| && k <= |Queue(w, seeds, pages, rank)|
    requires HasRank(w, seeds, pages, u, rank) && ComesFirst(w, seeds, pages, rank, k, u)
    ensures u in Queue(w, seeds, pages, rank)[..k]
    ensures forall i: nat :: FirstAt(Queue(w, seeds, pages, rank), u, i) ==> i < k
  {
    forall r | -1 <= r < rank ensures u !in Queue(w, seeds, pages, r) {
    }
    var queue := Queue(w, seeds, pages, rank);
    var j :| 0 <= j < k && queue[..k][j] == u;
    assert queue[j] == u;
  }

  lemma NotBefore(w: Web, seeds: seq<string>, s: Search, rank: int, k: nat)
    requires TriedFirst(w, seeds, s.collected, s.seen, rank, k) && k < |Queue(w, seeds, s.collected, rank)|
    requires Queue(w, seeds, s.collected, rank)[k] !in s.seen
    ensures forall i: nat :: FirstAt(Queue(w, seeds, s.collected, rank), Queue(w, seeds, s.collected, rank)[k], i) ==> i >= k
  {
    var queue := Queue(w, seeds, s.collected, rank);
    assert !ComesFirst(w, seeds, s.collected, rank, k, queue[k]);
    forall i | 0 <= i < k ensures queue[i] != queue[k] {
      assert queue[..k][i] == queue[i];
    }
  }

  /** `v` comes before `u`: of a lower rank, or earlier in the queue of their rank. */
  ghost predicate InFront(w: Web, seeds: seq<string>, pages: seq<Page>, v: string, u: string) {
    exists rv, ru ::
      && -1 <= rv <= ru < |pages| && HasRank(w, seeds, pages, v, rv) && HasRank(w, seeds, pages, u, ru)
      && (rv == ru ==> Earlier(Queue(w, seeds, pages, ru), v, u))
  }

  lemma HasRankInQueue(w: Web, seeds: seq<string>, pages: seq<Page>, u: string, rank: int)
    requires HasRank(w, seeds, pages, u, rank) && -1 <= rank < |pages|
    ensures u in Queue(w, seeds, pages, rank)
    ensures forall r :: -1 <= r < rank ==> u !in Queue(w, seeds, pages, r)
  {
  }

  /** No known URL in front of a tried one is left untried. */
  lemma NoneSkipped(
    w: Web, seeds: seq<string>, pages: seq<Page>, tried: set<string>, rank: int, k: nat, v: string, u: string)
    requires TriedFirst(w, seeds, pages, tried, rank, k) && u in tried && InFront(w, seeds, pages, v, u)
    ensures v in tried
  {
    var rv, ru :| -1 <= rv <= ru < |pages| && HasRank(w, seeds, pages, v, rv) && HasRank(w, seeds, pages, u, ru)
      && (rv == ru ==> Earlier(Queue(w, seeds, pages, ru), v, u));
    HasRankInQueue(w, seeds, pages, v, rv);
    HasRankInQueue(w, seeds, pages, u, ru);
    assert ComesFirst(w, seeds, pages, rank, k, u);
    if rv < rank {
      assert v in Queue(w, seeds, pages, rv);
    } else {
      var queue := Queue(w, seeds, pages, rank);
      FirstOfItsRank(w, seeds, pages, u, rank, k);
      var i := HasFirst(queue, v);
      var j := HasFirst(queue, u);
      assert queue[..k][i] == v;
    }
    assert ComesFirst(w, seeds, pages, rank, k, v);
  }

  // ---- the loops ----

  /** The URLs in order, each tried unless the search has stopped. */
  function TryFrom(w: Web, s: Search, urls: seq<string>, n: int, maxFetch: int): Search
    decreases |urls|
  {
    if urls == [] || Stop(s, n, maxFetch) then s
    else TryFrom(w, Attempt(w, s, urls[0]), urls[1..], n, maxFetch)
  }

  /** The pages collected, from page `i` on, each expanded unless the search has stopped. */
  function ExpandFrom(w: Web, s: Search, i: nat, n: int, maxFetch: int): Search
    decreases n - i
  {
    if Stop(s, n, maxFetch) || i >= |s.collected| then s
    else ExpandFrom(w, TryFrom(w, s, LinksOn(w, s.collected[i]), n, maxFetch), i + 1, n, maxFetch)
  }

  const NOTHING: Search := State([], {}, 0, None)

  /** The seed loop. */
  method FetchSeeds(w: Web, seeds: seq<string>, n: int, maxFetch: int) returns (s: Search)
    ensures s == TryFrom(w, NOTHING, seeds, n, maxFetch)
  {
    s := NOTHING;
    for k := 0 to |seeds|
      invariant TryFrom(w, NOTHING, seeds, n, maxFetch) == TryFrom(w, s, seeds[k..], n, maxFetch)
    {
      if Stop(s, n, maxFetch) {
        return;
      }
      assert seeds[k..][1..] == seeds[k + 1..];
      s := TryFetch(w, seeds[k], s);
    }
  }

  /** The link loop of one frontier page. */
  method ExpandPage(w: Web, i: nat, s: Search, n: int, maxFetch: int) returns (r: Search)
    requires i < |s.collected|
    ensures r == TryFrom(w, s, LinksOn(w, s.collected[i]), n, maxFetch)
  {
    var page := s.collected[i];
    var links := HarvestLinks(w, page.html, page.url);
    r := s;
    for k := 0 to |links|
      invariant TryFrom(w, s, links, n, maxFetch) == TryFrom(w, r, links[k..], n, maxFetch)
    {
      if Stop(r, n, maxFetch) {
        return;
      }
      assert links[k..][1..] == links[k + 1..];
      r := TryFetch(w, links[k], r);
    }
  }

  // ---- what the loops keep ----

  /** What holds of the search while rank `rank` is tried, of which the first `k` were. */
  ghost predicate Sound(
    w: Web, seeds: seq<string>, s: Search, ranks: seq<int>, rank: int, k: nat, n: int, maxFetch: int)
  {
    && Consistent(w, seeds, s) && Within(s, n, maxFetch)
    && RankedUpTo(w, seeds, s.collected, ranks, rank)
    && TriedFirst(w, seeds, s.collected, s.seen, rank, k)
  }

  /** The same, said of the one search there is: `SoundNow` tells what it says. */
  ghost predicate Searching(
    w: Web, seeds: seq<string>, s: Search, ranks: seq<int>, rank: int, k: nat, n: int, maxFetch: int)
  {
    && -1 <= rank < |s.collected| && k <= |Queue(w, seeds, s.collected, rank)|
    && forall t :: t in [s] ==> Sound(w, seeds, t, ranks, rank, k, n, maxFetch)
  }

  lemma SoundNow(w: Web, seeds: seq<string>, s: Search, ranks: seq<int>, rank: int, k: nat, n: int, maxFetch: int)
    ensures Searching(w, seeds, s, ranks, rank, k, n, maxFetch) <==> Sound(w, seeds, s, ranks, rank, k, n, maxFetch)
  {
    assert s in [s];
  }

  /** The next URL of the queue is known; if it is new, it has the queue's rank. */
  lemma NextIsRanked(w: Web, seeds: seq<string>, s: Search, rank: int, k: nat)
    requires TriedFirst(w, seeds, s.collected, s.seen, rank, k) && k < |Queue(w, seeds, s.collected, rank)|
    ensures Known(w, seeds, s.collected, Queue(w, seeds, s.collected, rank)[k])
    ensures Queue(w, seeds, s.collected, rank)[k] !in s.seen ==>
      HasRank(w, seeds, s.collected, Queue(w, seeds, s.collected, rank)[k], rank)
  {
    var url := Queue(w, seeds, s.collected, rank)[k];
    if url !in s.seen {
      assert !ComesFirst(w, seeds, s.collected, rank, k, url);
      assert rank > -1 ==> url !in Queue(w, seeds, s.collected, -1);
      forall i | 0 <= i < rank ensures url !in LinksOn(w, s.collected[i]) {
        assert url !in Queue(w, seeds, s.collected, i);
      }
    }
  }

  lemma OneTried(
    w: Web, seeds: seq<string>, s: Search, ranks: seq<int>, rank: int, k: nat, n: int, maxFetch: int)
    returns (after: seq<int>)
    requires Searching(w, seeds, s, ranks, rank, k, n, maxFetch) && !Stop(s, n, maxFetch)
    requires k < |Queue(w, seeds, s.collected, rank)|
    ensures var r := Attempt(w, s, Queue(w, seeds, s.collected, rank)[k]);
      && Searching(w, seeds, r, after, rank, k + 1, n, maxFetch) && s.collected <= r.collected
      && Queue(w, seeds, r.collected, rank) == Queue(w, seeds, s.collected, rank)
  {
    var url := Queue(w, seeds, s.collected, rank)[k];
    SoundNow(w, seeds, s, ranks, rank, k, n, maxFetch);
    NextIsRanked(w, seeds, s, rank, k);
    if url !in s.seen {
      NewIsLast(w, seeds, s, ranks, rank, k);
    }
    AttemptKeeps(w, seeds, s, url, n, maxFetch);
    after := AttemptRanked(w, seeds, s, ranks, url, rank);
    TriedOneMore(w, seeds, s, rank, k);
    SoundNow(w, seeds, Attempt(w, s, url), after, rank, k + 1, n, maxFetch);
  }

  /** The rest of the queue of one rank: all of it is tried, unless the search stops. */
  lemma {:induction false} QueueTried(
    w: Web, seeds: seq<string>, s: Search, ranks: seq<int>, rank: int, k: nat, n: int, maxFetch: int)
    returns (after: seq<int>, tried: nat)
    requires Searching(w, seeds, s, ranks, rank, k, n, maxFetch)
    ensures var queue := Queue(w, seeds, s.collected, rank);
      var r := TryFrom(w, s, queue[k..], n, maxFetch);
      && Searching(w, seeds, r, after, rank, tried, n, maxFetch) && s.collected <= r.collected
      && (Stop(r, n, maxFetch) || tried == |queue|) && Queue(w, seeds, r.collected, rank) == queue
    decreases |Queue(w, seeds, s.collected, rank)| - k
  {
    after, tried := ranks, k;
    var queue := Queue(w, seeds, s.collected, rank);
    if k < |queue| && !Stop(s, n, maxFetch) {
      var next := OneTried(w, seeds, s, ranks, rank, k, n, maxFetch);
      after, tried := QueueTried(w, seeds, Attempt(w, s, queue[k]), next, rank, k + 1, n, maxFetch);
      assert queue[k..][1..] == queue[k + 1..];
    }
  }

  lemma RankedHigher(w: Web, seeds: seq<string>, s: Search, ranks: seq<int>, i: nat, k: nat, n: int, maxFetch: int)
    requires Searching(w, seeds, s, ranks, i - 1, k, n, maxFetch) && i < |s.collected|
    requires k == |Queue(w, seeds, s.collected, i - 1)|
    ensures Searching(w, seeds, s, ranks, i, 0, n, maxFetch)
  {
    SoundNow(w, seeds, s, ranks, i - 1, k, n, maxFetch);
    NextQueue(w, seeds, s.collected, s.seen, i - 1);
    SoundNow(w, seeds, s, ranks, i, 0, n, maxFetch);
  }

  /** One frontier page, after all of lower rank. */
  lemma PageTried(w: Web, seeds: seq<string>, s: Search, ranks: seq<int>, i: nat, k: nat, n: int, maxFetch: int)
    returns (after: seq<int>, tried: nat)
    requires Searching(w, seeds, s, ranks, i - 1, k, n, maxFetch) && i < |s.collected|
    requires k == |Queue(w, seeds, s.collected, i - 1)|
    ensures var r := TryFrom(w, s, LinksOn(w, s.collected[i]), n, maxFetch);
      && Searching(w, seeds, r, after, i, tried, n, maxFetch)
      && (Stop(r, n, maxFetch) || tried == |Queue(w, seeds, r.collected, i)|)
  {
    RankedHigher(w, seeds, s, ranks, i, k, n, maxFetch);
    var queue := Queue(w, seeds, s.collected, i);
    assert queue[0..] == queue;
    after, tried := QueueTried(w, seeds, s, ranks, i, 0, n, maxFetch);
  }

  /** All the ranks from `i` on, until the search stops or the last page is expanded. */
  lemma {:induction false} RanksTried(
    w: Web, seeds: seq<string>, s: Search, ranks: seq<int>, i: nat, k: nat, n: int, maxFetch: int)
    returns (after: seq<int>, rank: int, tried: nat)
    requires Searching(w, seeds, s, ranks, i - 1, k, n, maxFetch)
    requires Stop(s, n, maxFetch) || k == |Queue(w, seeds, s.collected, i - 1)|
    ensures var r := ExpandFrom(w, s, i, n, maxFetch);
      && Searching(w, seeds, r, after, rank, tried, n, maxFetch)
      && (Stop(r, n, maxFetch) || (rank == |r.collected| - 1 && tried == |Queue(w, seeds, r.collected, rank)|))
    decreases n - i
  {
    after, rank, tried := ranks, i - 1, k;
    if !Stop(s, n, maxFetch) && i < |s.collected| {
      after, tried := PageTried(w, seeds, s, ranks, i, k, n, maxFetch);
      var r := TryFrom(w, s, LinksOn(w, s.collected[i]), n, maxFetch);
      after, rank, tried := RanksTried(w, seeds, r, after, i + 1, tried, n, maxFetch);
    }
  }

  lemma NothingYet(w: Web, seeds: seq<string>, n: int, maxFetch: int)
    ensures Searching(w, seeds, NOTHING, [], -1, 0, n, maxFetch)
  {
    SoundNow(w, seeds, NOTHING, [], -1, 0, n, maxFetch);
  }

  /** The whole search. */
  lemma SearchKeeps(w: Web, seeds: seq<string>, n: int, maxFetch: int)
    returns (ranks: seq<int>, rank: int, tried: nat)
    ensures var s := ExpandFrom(w, TryFrom(w, NOTHING, seeds, n, maxFetch), 0, n, maxFetch);
      && Sound(w, seeds, s, ranks, rank, tried, n, maxFetch)
      && (Stop(s, n, maxFetch) || ExpandedUpTo(w, seeds, s, |s.collected|))
  {
    NothingYet(w, seeds, n, maxFetch);
    assert seeds[0..] == seeds && Queue(w, seeds, NOTHING.collected, -1) == seeds;
    ranks, tried := QueueTried(w, seeds, NOTHING, [], -1, 0, n, maxFetch);
    var s := TryFrom(w, NOTHING, seeds, n, maxFetch);
    ranks, rank, tried := RanksTried(w, seeds, s, ranks, 0, tried, n, maxFetch);
    SearchEnds(w, seeds, ExpandFrom(w, s, 0, n, maxFetch), ranks, rank, tried, n, maxFetch);
  }

  lemma SearchEnds(
    w: Web, seeds: seq<string>, s: Search, ranks: seq<int>, rank: int, tried: nat, n: int, maxFetch: int)
    requires Searching(w, seeds, s, ranks, rank, tried, n, maxFetch)
    requires Stop(s, n, maxFetch) || (rank == |s.collected| - 1 && tried == |Queue(w, seeds, s.collected, rank)|)
    ensures Sound(w, seeds, s, ranks, rank, tried, n, maxFetch)
    ensures Stop(s, n, maxFetch) || ExpandedUpTo(w, seeds, s, |s.collected|)
  {
    SoundNow(w, seeds, s, ranks, rank, tried, n, maxFetch);
    if !Stop(s, n, maxFetch) {
      AllTried(w, seeds, s, rank);
    }
  }

  /** Every link of page `i` has been tried. */
  ghost predicate Expanded(w: Web, s: Search, i: nat)
    requires i < |s.collected|
  {
    forall v :: v in LinksOn(w, s.collected[i]) ==> v in s.seen
  }

  /** Every seed and every link of the first `i` pages have been tried. */
  ghost predicate ExpandedUpTo(w: Web, seeds: seq<string>, s: Search, i: nat)
    requires i <= |s.collected|
  {
    && (forall u :: u in seeds ==> u in s.seen)
    && forall k :: 0 <= k < i ==> Expanded(w, s, k)
  }

  lemma AllTried(w: Web, seeds: seq<string>, s: Search, rank: int)
    requires rank == |s.collected| - 1
    requires TriedFirst(w, seeds, s.collected, s.seen, rank, |Queue(w, seeds, s.collected, rank)|)
    ensures ExpandedUpTo(w, seeds, s, |s.collected|)
  {
    var last := Queue(w, seeds, s.collected, rank);
    assert last[..|last|] == last;
    forall r, u | -1 <= r <= rank && u in Queue(w, seeds, s.collected, r) ensures u in s.seen {
      assert ComesFirst(w, seeds, s.collected, rank, |last|, u);
    }
    forall u | u in seeds ensures u in s.seen {
      assert u in Queue(w, seeds, s.collected, -1);
    }
    forall k | 0 <= k < |s.collected| ensures Expanded(w, s, k) {
      forall v | v in LinksOn(w, s.collected[k]) ensures v in s.seen {
        assert v in Queue(w, seeds, s.collected, k);
      }
    }
  }

  lemma {:induction false} WalkCollected(w: Web, seeds: seq<string>, s: Search, p: seq<string>)
    requires Consistent(w, seeds, s) && Walk(w, seeds, p)
    requires ExpandedUpTo(w, seeds, s, |s.collected|)
    ensures p[|p| - 1] in Urls(s.collected)
  {
    var n := |p| - 1;
    if n > 0 {
      WalkCollected(w, seeds, s, p[..n]);
      assert Edge(w, p[n - 1], p[n]);
      var k :| 0 <= k < |s.collected| && s.collected[k].url == p[n - 1];
      assert Expanded(w, s, k);
    }
  }

  /** A closed search has found exactly the reachable pages. */
  lemma ClosedSearchIsExact(w: Web, seeds: seq<string>, s: Search)
    requires Consistent(w, seeds, s) && ExpandedUpTo(w, seeds, s, |s.collected|)
    ensures forall u :: Reachable(w, seeds, u) <==> u in Urls(s.collected)
  {
    forall u | Reachable(w, seeds, u) ensures u in Urls(s.collected) {
      var p :| Walk(w, seeds, p) && p[|p| - 1] == u;
      WalkCollected(w, seeds, s, p);
    }
  }

  lemma ReachableOnSeedHost(w: Web, seeds: seq<string>, u: string)
    requires Reachable(w, seeds, u)
    ensures SeedHost(w, seeds, u)
  {
    var p :| Walk(w, seeds, p) && p[|p| - 1] == u;
    WalkStaysOnHost(w, seeds, p);
  }

  /** The harvest loop over the growing frontier: what was tried is all of rank below `rank`, and the
      first `tried` of that rank. */
  method SearchFrontier(w: Web, seeds: seq<string>, n: int, maxFetch: int)
    returns (s: Search, ghost ranks: seq<int>, ghost rank: int, ghost tried: nat)
    ensures Consistent(w, seeds, s) && Within(s, n, maxFetch) && Ranked(w, seeds, s.collected, ranks)
    ensures TriedFirst(w, seeds, s.collected, s.seen, rank, tried)
    ensures Stop(s, n, maxFetch) || ExpandedUpTo(w, seeds, s, |s.collected|)
  {
    s := FetchSeeds(w, seeds, n, maxFetch);
    ghost var whole := ExpandFrom(w, s, 0, n, maxFetch);
    var i := 0;
    while s.halted.None? && |s.collected| < n && s.attempts < maxFetch && i < |s.collected|
      invariant whole == ExpandFrom(w, s, i, n, maxFetch)
      decreases n - i
    {
      s := ExpandPage(w, i, s, n, maxFetch);
      i := i + 1;
    }
    ranks, rank, tried := SearchKeeps(w, seeds, n, maxFetch);
  }

  /** `collected[:n]`, which for a negative `n` counts from the end. */
  function TakeFirst(pages: seq<Page>, n: int): seq<Page> {
    if n >= |pages| then pages
    else if n >= 0 then pages[..n]
    else if |pages| + n >= 0 then pages[..|pages| + n]
    else []
  }

  /** `collect_samples`: exact breadth-first search within its budget, which tries exactly what comes
      first: all of rank below `rank`, and the first `last` of that rank. It raises exactly when a
      URL it tried raises something other than a typed access failure. */
  method CollectSamples(w: Web, seeds: seq<string>, n: int, maxFetch: int)
    returns (
      raised: Option<Failure>, pages: seq<Page>, attempts: nat, ghost tried: set<string>, ghost ranks: seq<int>,
      ghost rank: int, ghost last: nat)
    ensures |pages| <= n || pages == []
    ensures attempts <= maxFetch || attempts == 0
    ensures Halts(w, tried, raised)
    ensures |tried| == attempts && forall u :: u in tried ==> Known(w, seeds, pages, u)
    ensures forall u :: u in Urls(pages) <==> u in tried && w.Get(u).Some?
    ensures forall i :: 0 <= i < |pages| ==>
      && w.Get(pages[i].url) == Some(pages[i].html)
      && Reachable(w, seeds, pages[i].url) && SeedHost(w, seeds, pages[i].url)
    ensures forall i, j :: 0 <= i < j < |pages| ==> pages[i].url != pages[j].url
    ensures Ranked(w, seeds, pages, ranks) && TriedFirst(w, seeds, pages, tried, rank, last)
    ensures raised.None? && |pages| < n && attempts < maxFetch ==>
      forall u :: Reachable(w, seeds, u) <==> u in Urls(pages)
  {
    var s: Search;
    s, ranks, rank, last := SearchFrontier(w, seeds, n, maxFetch);
    raised, pages, attempts, tried := s.halted, TakeFirst(s.collected, n), s.attempts, s.seen;
    assert pages == s.collected;
    forall k | 0 <= k < |pages| ensures SeedHost(w, seeds, pages[k].url) {
      ReachableOnSeedHost(w, seeds, pages[k].url);
    }
    if raised.None? && |pages| < n && attempts < maxFetch {
      ClosedSearchIsExact(w, seeds, s);
    }
  }
}
