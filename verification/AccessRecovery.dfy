// The access-recovery loop (crawloop/loop/access_recovery.py): walk the domain's strategy
// ladder for a bounded number of rounds, remember what worked, or escalate the domain.
module AccessRecovery {
  import opened Wrappers
  import opened Positions
  import opened Failures
  import opened Access
  import opened Registry

  function Names(ladder: seq<Strategy>): (r: seq<string>)
    ensures |r| == |ladder|
  {
    seq(|ladder|, i requires 0 <= i < |ladder| => ladder[i].Name())
  }

  ghost predicate Distinct(names: seq<string>) {
    forall i, j :: 0 <= i < j < |names| ==> names[i] != names[j]
  }

  function ParamsFor(configured: seq<(string, Params)>, kind: string): Params {
    if configured == [] then Params(None, false)
    else if configured[0].0 == kind then configured[0].1
    else ParamsFor(configured[1..], kind)
  }

  /** The saved strategy first, with its configured parameters, then every configured rung. */
  function Ordered(configured: seq<(string, Params)>, saved: Option<string>): seq<(string, Params)> {
    (if saved.Some? then [(saved.value, ParamsFor(configured, saved.value))] else []) + configured
  }

  predicate HasKind(rungs: seq<(string, Params)>, name: string) {
    exists i :: 0 <= i < |rungs| && rungs[i].0 == name
  }

  lemma KindOfPrefix(rungs: seq<(string, Params)>, i: nat, name: string)
    requires i < |rungs|
    ensures HasKind(rungs[..i + 1], name) <==> HasKind(rungs[..i], name) || rungs[i].0 == name
  {
    if HasKind(rungs[..i], name) {
      var j :| 0 <= j < i && rungs[..i][j].0 == name;
      assert rungs[..i + 1][j].0 == name;
    }
    if rungs[i].0 == name {
      assert rungs[..i + 1][i].0 == name;
    }
    if HasKind(rungs[..i + 1], name) {
      var j :| 0 <= j < i + 1 && rungs[..i + 1][j].0 == name;
      assert j < i ==> rungs[..i][j].0 == name;
    }
  }

  lemma OrderedKinds(configured: seq<(string, Params)>, saved: Option<string>, name: string)
    ensures HasKind(Ordered(configured, saved), name) <==> saved == Some(name) || HasKind(configured, name)
  {
    var ordered := Ordered(configured, saved);
    var k := |ordered| - |configured|;
    if HasKind(configured, name) {
      var i :| 0 <= i < |configured| && configured[i].0 == name;
      assert ordered[k + i].0 == name;
    }
    if saved == Some(name) {
      assert ordered[0].0 == name;
    }
    if HasKind(ordered, name) {
      var i :| 0 <= i < |ordered| && ordered[i].0 == name;
      assert i >= k ==> configured[i - k] == ordered[i];
    }
  }

  /** The ladder built so far: distinct names, led by the first rung, one for each kind seen. */
  ghost predicate Covers(built: seq<Strategy>, rungs: seq<(string, Params)>) {
    && Distinct(Names(built))
    && (rungs == [] <==> built == [])
    && (rungs != [] ==> built[0].Name() == rungs[0].0)
    && (forall name :: name in Names(built) <==> HasKind(rungs, name))
  }

  lemma CoversNext(built: seq<Strategy>, rungs: seq<(string, Params)>, i: nat, s: Strategy)
    requires i < |rungs| && Covers(built, rungs[..i]) && s.Name() == rungs[i].0
    ensures s.Name() in Names(built) ==> Covers(built, rungs[..i + 1])
    ensures s.Name() !in Names(built) ==> Covers(built + [s], rungs[..i + 1])
  {
    var more := if s.Name() in Names(built) then built else built + [s];
    assert Names(built + [s]) == Names(built) + [s.Name()];
    forall name ensures name in Names(more) <==> HasKind(rungs[..i + 1], name) {
      KindOfPrefix(rungs, i, name);
    }
    if i == 0 {
      assert rungs[..0] == [];
    } else {
      assert rungs[..i][0] == rungs[..i + 1][0];
    }
  }

  /** Each strategy once, under its first parameters, in order; nothing when a rung cannot be built. */
  function LadderOf(rungs: seq<(string, Params)>): Option<seq<Strategy>> {
    if rungs == [] then Some([])
    else
      var (kind, params) := rungs[|rungs| - 1];
      var before := LadderOf(rungs[..|rungs| - 1]);
      var s := BuildStrategy(kind, params);
      if before.None? || s.None? then None
      else if s.value.Name() in Names(before.value) then before
      else Some(before.value + [s.value])
  }

  lemma {:induction false} UnbuildableRung(rungs: seq<(string, Params)>, i: nat)
    requires i < |rungs| && BuildStrategy(rungs[i].0, rungs[i].1).None?
    ensures LadderOf(rungs).None?
  {
    var n := |rungs| - 1;
    if i < n {
      assert rungs[..n][i] == rungs[i];
      UnbuildableRung(rungs[..n], i);
    }
  }

  ghost predicate AllBuild(rungs: seq<(string, Params)>) {
    forall rung :: rung in rungs ==> BuildStrategy(rung.0, rung.1).Some?
  }

  lemma AllBuildBut(rungs: seq<(string, Params)>)
    requires rungs != []
    ensures var n := |rungs| - 1;
      AllBuild(rungs) <==> AllBuild(rungs[..n]) && BuildStrategy(rungs[n].0, rungs[n].1).Some?
  {
    var n := |rungs| - 1;
    assert rungs == rungs[..n] + [rungs[n]];
  }

  /** A ladder exists exactly when every rung can be built. */
  lemma {:induction false} LadderExists(rungs: seq<(string, Params)>)
    ensures LadderOf(rungs).Some? <==> AllBuild(rungs)
  {
    if rungs != [] {
      LadderExists(rungs[..|rungs| - 1]);
      AllBuildBut(rungs);
    }
  }

  /** It has one rung for each kind, the first kind first. */
  lemma {:induction false} LadderCovers(rungs: seq<(string, Params)>)
    requires LadderOf(rungs).Some?
    ensures Covers(LadderOf(rungs).value, rungs)
  {
    if rungs != [] {
      var n := |rungs| - 1;
      LadderCovers(rungs[..n]);
      assert rungs[..n + 1] == rungs;
      CoversNext(LadderOf(rungs[..n]).value, rungs, n, BuildStrategy(rungs[n].0, rungs[n].1).value);
    }
  }

  function Kinds(rungs: seq<(string, Params)>): (r: seq<string>)
    ensures |r| == |rungs|
  {
    seq(|rungs|, i requires 0 <= i < |rungs| => rungs[i].0)
  }

  lemma KindsHeld(rungs: seq<(string, Params)>, name: string)
    ensures name in Kinds(rungs) <==> HasKind(rungs, name)
  {
    if HasKind(rungs, name) {
      var i :| 0 <= i < |rungs| && rungs[i].0 == name;
      assert Kinds(rungs)[i] == name;
    }
  }

  lemma OrderNext(built: seq<Strategy>, rungs: seq<(string, Params)>, last: (string, Params), s: Strategy)
    requires InFirstOrder(Names(built), Kinds(rungs)) && s.Name() == last.0
    requires forall name :: name in Names(built) <==> HasKind(rungs, name)
    ensures InFirstOrder(Names(if s.Name() in Names(built) then built else built + [s]), Kinds(rungs + [last]))
  {
    KindsHeld(rungs, last.0);
    assert Kinds(rungs + [last]) == Kinds(rungs) + [last.0];
    assert Names(built + [s]) == Names(built) + [last.0];
    if last.0 in Names(built) {
      SameInFirstOrder(Names(built), Kinds(rungs), last.0);
    } else {
      MoreInFirstOrder(Names(built), Kinds(rungs), last.0);
    }
  }

  lemma LadderSnoc(rungs: seq<(string, Params)>, last: (string, Params))
    requires LadderOf(rungs + [last]).Some?
    ensures LadderOf(rungs).Some? && BuildStrategy(last.0, last.1).Some?
    ensures var before, s := LadderOf(rungs).value, BuildStrategy(last.0, last.1).value;
      LadderOf(rungs + [last]).value == if s.Name() in Names(before) then before else before + [s]
  {
    assert (rungs + [last])[..|rungs|] == rungs;
  }

  /** Its rungs stand in the order in which their kinds first occur. */
  lemma {:induction false} LadderInOrder(rungs: seq<(string, Params)>)
    requires LadderOf(rungs).Some?
    ensures InFirstOrder(Names(LadderOf(rungs).value), Kinds(rungs))
  {
    if rungs != [] {
      var front, last := rungs[..|rungs| - 1], rungs[|rungs| - 1];
      assert rungs == front + [last];
      LadderSnoc(front, last);
      LadderInOrder(front);
      LadderCovers(front);
      OrderNext(LadderOf(front).value, front, last, BuildStrategy(last.0, last.1).value);
    }
  }

  /** It is no longer than the rungs it is built from. */
  lemma {:induction false} LadderLength(rungs: seq<(string, Params)>)
    requires LadderOf(rungs).Some?
    ensures |LadderOf(rungs).value| <= |rungs|
  {
    if rungs != [] {
      LadderLength(rungs[..|rungs| - 1]);
    }
  }

  /** The ladder has distinct names, the saved strategy first, and otherwise exactly the configured
      kinds. */
  lemma LadderOfDomain(configured: seq<(string, Params)>, saved: Option<string>)
    requires LadderOf(Ordered(configured, saved)).Some?
    ensures var names := Names(LadderOf(Ordered(configured, saved)).value);
      && Distinct(names)
      && (saved.Some? ==> names != [] && names[0] == saved.value)
      && forall name :: name in names <==> saved == Some(name) || HasKind(configured, name)
  {
    var ordered := Ordered(configured, saved);
    LadderCovers(ordered);
    forall name ensures HasKind(ordered, name) <==> saved == Some(name) || HasKind(configured, name) {
      OrderedKinds(configured, saved, name);
    }
  }

  /** One more rung: the ladder so far with it, without it, or none at all. */
  lemma LadderNext(rungs: seq<(string, Params)>, i: nat, built: seq<Strategy>)
    requires i < |rungs| && LadderOf(rungs[..i]) == Some(built)
    ensures var s := BuildStrategy(rungs[i].0, rungs[i].1);
      if s.None? then LadderOf(rungs) == None
      else LadderOf(rungs[..i + 1]) == Some(if s.value.Name() in Names(built) then built else built + [s.value])
  {
    assert rungs[..i + 1][..i] == rungs[..i];
    if BuildStrategy(rungs[i].0, rungs[i].1).None? {
      UnbuildableRung(rungs, i);
    }
  }

  /** `_build_ladder`. */
  method BuildLadder(configured: seq<(string, Params)>, saved: Option<string>)
    returns (ladder: Option<seq<Strategy>>)
    ensures ladder == LadderOf(Ordered(configured, saved))
  {
    var ordered := Ordered(configured, saved);
    var built: seq<Strategy> := [];
    for i := 0 to |ordered|
      invariant LadderOf(ordered[..i]) == Some(built)
    {
      LadderNext(ordered, i, built);
      var (kind, params) := ordered[i];
      var strategy := BuildStrategy(kind, params);
      if strategy.None? {
        return None;
      }
      if strategy.value.Name() !in Names(built) {
        built := built + [strategy.value];
      }
    }
    assert ordered[..|ordered|] == ordered;
    ladder := Some(built);
  }

  // ---- the cost of one pass ----

  function PassCost(ladder: seq<Strategy>): nat {
    if ladder == [] then 0 else PassCost(ladder[..|ladder| - 1]) + ladder[|ladder| - 1].Cost()
  }

  /** Only the backoff rung costs more than one GET chain, and it is there at most once. */
  lemma {:induction false} PassCostBound(ladder: seq<Strategy>)
    requires Distinct(Names(ladder))
    ensures PassCost(ladder) <= 6 * |ladder| + if "backoff" in Names(ladder) then 12 else 0
  {
    if ladder != [] {
      var n := |ladder| - 1;
      var before := ladder[..n];
      assert Names(ladder) == Names(before) + [ladder[n].Name()];
      assert Distinct(Names(before)) by {
        assert forall i :: 0 <= i < n ==> Names(before)[i] == Names(ladder)[i];
      }
      PassCostBound(before);
      if ladder[n].Backoff? {
        forall i | 0 <= i < n ensures Names(before)[i] != "backoff" {
          assert Names(ladder)[i] != Names(ladder)[n];
        }
      }
    }
  }

  // ---- the walk ----

  datatype RecoveryResult = RecoveryResult(ok: bool, strategy: Option<string>, rounds: int)

  /** Recovery returns, or lets a policy stop, a redirect cycle or a build error through. */
  datatype Recovery = Returned(r: RecoveryResult) | RecoveryRaised(failure: Failure)

  ghost function StrategySet(domains: map<string, Domain>, host: string, name: string): map<string, Domain> {
    domains[host := Domain(Some(name), if host in domains then domains[host].status else None)]
  }

  ghost function StatusSet(domains: map<string, Domain>, host: string, status: string): map<string, Domain> {
    domains[host := Domain(if host in domains then domains[host].strategy else None, Some(status))]
  }

  /** How a walk ends: a rung got through, none did, or a failure escaped at a rung. */
  datatype Walked = GotThrough(rung: nat) | NoneThrough | Stopped(failure: Failure, rung: nat)

  /** The pass from rung `i` on, whose first GET is number `t`; with the number of the next one. */
  function Pass(
    cfg: Config, net: Network, render: (string, bool) -> Option<string>, ladder: seq<Strategy>, t: nat,
    url: string, i: nat): (Walked, nat)
    requires i <= |ladder|
    decreases |ladder| - i
  {
    if i == |ladder| then (NoneThrough, t)
    else
      var (f, next) := FetchOf(cfg, net, render, ladder[i], t, url);
      if f.Through? then (Stopped(f.failure, i), next)
      else if f.Ended? && f.outcome.Page? then (GotThrough(i), next)
      else Pass(cfg, net, render, ladder, next, url, i + 1)
  }

  /** The names of the rungs that pass tries, in order. */
  function PassTried(
    cfg: Config, net: Network, render: (string, bool) -> Option<string>, ladder: seq<Strategy>, t: nat,
    url: string, i: nat): seq<string>
    requires i <= |ladder|
    decreases |ladder| - i
  {
    if i == |ladder| then []
    else
      var (f, next) := FetchOf(cfg, net, render, ladder[i], t, url);
      [ladder[i].Name()]
      + if f.Through? || (f.Ended? && f.outcome.Page?) then []
        else PassTried(cfg, net, render, ladder, next, url, i + 1)
  }

  /** The rungs tried by a pass that ends with `w`. */
  function TriedIn(names: seq<string>, w: Walked): seq<string>
    requires !w.NoneThrough? ==> w.rung < |names|
  {
    if w.NoneThrough? then names else names[..w.rung + 1]
  }

  /** A pass tries every rung up to the one that ends it, or all of them. */
  lemma {:induction false} PassTriesInOrder(
    cfg: Config, net: Network, render: (string, bool) -> Option<string>, ladder: seq<Strategy>, t: nat,
    url: string, i: nat)
    requires i <= |ladder|
    ensures var w := Pass(cfg, net, render, ladder, t, url, i).0;
      && (!w.NoneThrough? ==> i <= w.rung < |ladder|)
      && Names(ladder)[..i] + PassTried(cfg, net, render, ladder, t, url, i) == TriedIn(Names(ladder), w)
    decreases |ladder| - i
  {
    var names := Names(ladder);
    if i == |ladder| {
      assert names[..i] + [] == names;
    } else {
      var (f, next) := FetchOf(cfg, net, render, ladder[i], t, url);
      assert names[..i + 1] == names[..i] + [ladder[i].Name()];
      if f.Through? || (f.Ended? && f.outcome.Page?) {
        assert [ladder[i].Name()] + [] == [ladder[i].Name()];
      } else {
        var rest := PassTried(cfg, net, render, ladder, next, url, i + 1);
        PassTriesInOrder(cfg, net, render, ladder, next, url, i + 1);
        Regroup(names[..i], [ladder[i].Name()], rest);
      }
    }
  }

  lemma WholePass(
    cfg: Config, net: Network, render: (string, bool) -> Option<string>, ladder: seq<Strategy>, t: nat, url: string)
    ensures var w := Pass(cfg, net, render, ladder, t, url, 0).0;
      && (!w.NoneThrough? ==> w.rung < |ladder|)
      && PassTried(cfg, net, render, ladder, t, url, 0) == TriedIn(Names(ladder), w)
  {
    PassTriesInOrder(cfg, net, render, ladder, t, url, 0);
    var tried := PassTried(cfg, net, render, ladder, t, url, 0);
    assert Names(ladder)[..0] + tried == tried;
  }

  /** The trace after one more rung: complete if that rung ends the pass. */
  lemma PassTriedNext(
    cfg: Config, net: Network, render: (string, bool) -> Option<string>, ladder: seq<Strategy>, t: nat,
    url: string, i: nat, tried: seq<string>)
    requires i < |ladder|
    ensures var (f, next) := FetchOf(cfg, net, render, ladder[i], t, url);
      tried + PassTried(cfg, net, render, ladder, t, url, i) == tried + [ladder[i].Name()]
        + if f.Through? || (f.Ended? && f.outcome.Page?) then []
          else PassTried(cfg, net, render, ladder, next, url, i + 1)
  {
    var (f, next) := FetchOf(cfg, net, render, ladder[i], t, url);
    Regroup(tried, [ladder[i].Name()], if f.Through? || (f.Ended? && f.outcome.Page?) then []
            else PassTried(cfg, net, render, ladder, next, url, i + 1));
  }

  /** One pass: try the rungs in order until one gets through. */
  method WalkLadder(
    ladder: seq<Strategy>, url: string, client: GuardedClient, render: (string, bool) -> Option<string>)
    returns (w: Walked, ghost tried: seq<string>)
    requires client.Valid()
    modifies client
    ensures client.Valid() && old(client.log) <= client.log
    ensures (w, client.sent) == Pass(client.cfg, client.answers, render, ladder, old(client.sent), url, 0)
    ensures tried == PassTried(client.cfg, client.answers, render, ladder, old(client.sent), url, 0)
    ensures client.sent <= old(client.sent) + PassCost(ladder)
  {
    tried := [];
    ghost var whole := PassTried(client.cfg, client.answers, render, ladder, client.sent, url, 0);
    assert [] + whole == whole;
    for i := 0 to |ladder|
      invariant tried + PassTried(client.cfg, client.answers, render, ladder, client.sent, url, i) == whole
      invariant client.Valid() && old(client.log) <= client.log
      invariant client.sent <= old(client.sent) + PassCost(ladder[..i])
      invariant Pass(client.cfg, client.answers, render, ladder, old(client.sent), url, 0)
        == Pass(client.cfg, client.answers, render, ladder, client.sent, url, i)
    {
      PassCostGrows(ladder, i);
      PassTriedNext(client.cfg, client.answers, render, ladder, client.sent, url, i, tried);
      tried := tried + [ladder[i].Name()];
      var f := Fetch(client, ladder[i], url, render);
      if f.Through? {
        return Stopped(f.failure, i), tried;
      }
      if f.Ended? && f.outcome.Page? {
        return GotThrough(i), tried;
      }
    }
    assert ladder[..|ladder|] == ladder && tried + [] == tried;
    w := NoneThrough;
  }

  lemma {:induction false} PassCostGrows(ladder: seq<Strategy>, i: nat)
    requires i < |ladder|
    ensures PassCost(ladder[..i]) + ladder[i].Cost() == PassCost(ladder[..i + 1]) <= PassCost(ladder)
  {
    assert ladder[..i + 1][..i] == ladder[..i];
    PrefixCost(ladder, i + 1);
  }

  lemma {:induction false} PrefixCost(ladder: seq<Strategy>, i: nat)
    requires i <= |ladder|
    ensures PassCost(ladder[..i]) <= PassCost(ladder)
  {
    var n := |ladder|;
    if i < n {
      PrefixCost(ladder[..n - 1], i);
      assert ladder[..n - 1][..i] == ladder[..i];
    } else {
      assert ladder[..i] == ladder;
    }
  }

  /** Full passes from round `round` on until one does not end empty; with its round. */
  function Search(
    cfg: Config, net: Network, render: (string, bool) -> Option<string>, ladder: seq<Strategy>, t: nat,
    url: string, round: int, maxRounds: int): (Walked, int)
    decreases maxRounds + 1 - round
  {
    if round > maxRounds then (NoneThrough, maxRounds)
    else
      var (w, next) := Pass(cfg, net, render, ladder, t, url, 0);
      if w.NoneThrough? then Search(cfg, net, render, ladder, next, url, round + 1, maxRounds)
      else (w, round)
  }

  /** The names of the rungs that search tries, in order. */
  function SearchTried(
    cfg: Config, net: Network, render: (string, bool) -> Option<string>, ladder: seq<Strategy>, t: nat,
    url: string, round: int, maxRounds: int): seq<string>
    decreases maxRounds + 1 - round
  {
    if round > maxRounds then []
    else
      var (w, next) := Pass(cfg, net, render, ladder, t, url, 0);
      PassTried(cfg, net, render, ladder, t, url, 0)
      + if w.NoneThrough? then SearchTried(cfg, net, render, ladder, next, url, round + 1, maxRounds) else []
  }

  /** `k` full passes over the ladder. */
  function Passes(names: seq<string>, k: nat): seq<string> {
    if k == 0 then [] else names + Passes(names, k - 1)
  }

  lemma Regroup(a: seq<string>, b: seq<string>, c: seq<string>)
    ensures a + (b + c) == (a + b) + c
  {
  }

  /** A success in round r at rung j means r - 1 full passes and then the rungs up to j were tried;
      finding nothing means every round ran in full. */
  lemma {:induction false} SearchTriesInOrder(
    cfg: Config, net: Network, render: (string, bool) -> Option<string>, ladder: seq<Strategy>, t: nat,
    url: string, round: int, maxRounds: int)
    requires round <= maxRounds + 1
    ensures var (w, last) := Search(cfg, net, render, ladder, t, url, round, maxRounds);
      var names, tried := Names(ladder), SearchTried(cfg, net, render, ladder, t, url, round, maxRounds);
      if w.NoneThrough? then last == maxRounds && tried == Passes(names, maxRounds + 1 - round)
      else
        && w.rung < |ladder| && round <= last <= maxRounds
        && tried == Passes(names, last - round) + names[..w.rung + 1]
    decreases maxRounds + 1 - round
  {
    if round <= maxRounds {
      var names := Names(ladder);
      var (w, next) := Pass(cfg, net, render, ladder, t, url, 0);
      WholePass(cfg, net, render, ladder, t, url);
      if w.NoneThrough? {
        SearchTriesInOrder(cfg, net, render, ladder, next, url, round + 1, maxRounds);
        var (w', last) := Search(cfg, net, render, ladder, next, url, round + 1, maxRounds);
        if !w'.NoneThrough? {
          Regroup(names, Passes(names, last - round - 1), names[..w'.rung + 1]);
        }
      } else {
        assert names[..w.rung + 1] + [] == [] + names[..w.rung + 1];
      }
    }
  }

  /** `rounds` passes at `cost` each. */
  function RoundsCost(rounds: nat, cost: nat): nat {
    if rounds == 0 then 0 else RoundsCost(rounds - 1, cost) + cost
  }

  lemma {:induction false} RoundsCostGrows(done: nat, rounds: nat, cost: nat)
    requires done <= rounds
    ensures RoundsCost(done, cost) <= RoundsCost(rounds, cost)
  {
    if done < rounds {
      RoundsCostGrows(done, rounds - 1, cost);
    }
  }

  lemma {:induction false} RoundsCostIs(rounds: nat, cost: nat)
    ensures RoundsCost(rounds, cost) == rounds * cost
  {
    if rounds > 0 {
      RoundsCostIs(rounds - 1, cost);
    }
  }

  /** The trace after one more round. */
  lemma SearchTriedNext(
    cfg: Config, net: Network, render: (string, bool) -> Option<string>, ladder: seq<Strategy>, t: nat,
    url: string, round: int, maxRounds: int, tried: seq<string>)
    requires round <= maxRounds
    ensures var (w, next) := Pass(cfg, net, render, ladder, t, url, 0);
      tried + SearchTried(cfg, net, render, ladder, t, url, round, maxRounds)
        == tried + PassTried(cfg, net, render, ladder, t, url, 0)
        + if w.NoneThrough? then SearchTried(cfg, net, render, ladder, next, url, round + 1, maxRounds) else []
  {
    var (w, next) := Pass(cfg, net, render, ladder, t, url, 0);
    Regroup(tried, PassTried(cfg, net, render, ladder, t, url, 0),
            if w.NoneThrough? then SearchTried(cfg, net, render, ladder, next, url, round + 1, maxRounds) else []);
  }

  /** The round loop: full passes until one gets through. */
  method WalkRounds(
    ladder: seq<Strategy>, url: string, client: GuardedClient, render: (string, bool) -> Option<string>,
    maxRounds: nat) returns (w: Walked, round: int, ghost tried: seq<string>)
    requires client.Valid()
    modifies client
    ensures client.Valid() && old(client.log) <= client.log
    ensures (w, round) == Search(client.cfg, client.answers, render, ladder, old(client.sent), url, 1, maxRounds)
    ensures tried == SearchTried(client.cfg, client.answers, render, ladder, old(client.sent), url, 1, maxRounds)
    ensures client.sent <= old(client.sent) + RoundsCost(maxRounds, PassCost(ladder))
  {
    tried := [];
    ghost var whole := SearchTried(client.cfg, client.answers, render, ladder, client.sent, url, 1, maxRounds);
    assert [] + whole == whole;
    for k := 1 to maxRounds + 1
      invariant client.Valid() && old(client.log) <= client.log
      invariant Search(client.cfg, client.answers, render, ladder, old(client.sent), url, 1, maxRounds)
        == Search(client.cfg, client.answers, render, ladder, client.sent, url, k, maxRounds)
      invariant tried + SearchTried(client.cfg, client.answers, render, ladder, client.sent, url, k, maxRounds) == whole
      invariant client.sent <= old(client.sent) + RoundsCost(k - 1, PassCost(ladder))
    {
      RoundsCostGrows(k, maxRounds, PassCost(ladder));
      SearchTriedNext(client.cfg, client.answers, render, ladder, client.sent, url, k, maxRounds, tried);
      ghost var pass: seq<string>;
      w, pass := WalkLadder(ladder, url, client, render);
      tried := tried + pass;
      if !w.NoneThrough? {
        return w, k, tried;
      }
    }
    assert tried + [] == tried;
    w, round := NoneThrough, maxRounds;
  }

  /** GETs of `rounds` rounds down a ladder of `rungs`: six a rung and twelve more in each. */
  function GetsFor(rounds: nat, rungs: nat): nat {
    rounds * (6 * (rungs + 2))
  }

  lemma GetsForMore(rounds: nat, rungs: nat, more: nat)
    requires rungs <= more
    ensures GetsFor(rounds, rungs) <= GetsFor(rounds, more)
  {
    Scale(rounds, 6 * (rungs + 2), 6 * (more + 2));
  }

  /** Every round of a domain's ladder costs at most six GETs a rung and twelve more. */
  lemma SearchCost(ladder: seq<Strategy>, rounds: nat)
    requires Distinct(Names(ladder))
    ensures RoundsCost(rounds, PassCost(ladder)) <= GetsFor(rounds, |ladder|)
  {
    PassCostBound(ladder);
    RoundsCostIs(rounds, PassCost(ladder));
    Scale(rounds, PassCost(ladder), 6 * (|Names(ladder)| + 2));
  }

  lemma Scale(k: nat, a: nat, b: nat)
    requires a <= b
    ensures k * a <= k * b
  {
  }

  /** The domain's ladder: the rungs configured for the host, led by the saved one. */
  function DomainLadder(cfg: Config, url: string, saved: Option<string>): Option<seq<Strategy>> {
    LadderOf(Ordered(cfg.strategies(cfg.host(url)), saved))
  }

  /** What a search's end means to the caller. */
  function Conclusion(names: seq<string>, w: Walked, round: int, maxRounds: nat): Recovery
    requires !w.NoneThrough? ==> w.rung < |names|
  {
    match w
    case GotThrough(j) => Returned(RecoveryResult(true, Some(names[j]), round))
    case NoneThrough => Returned(RecoveryResult(false, None, maxRounds))
    case Stopped(failure, _) => RecoveryRaised(failure)
  }

  /** Recovery from the moment GET number `t` is next: off-list first, then the ladder, then the search. */
  function RecoveryOf(
    cfg: Config, net: Network, render: (string, bool) -> Option<string>, saved: Option<string>, t: nat,
    url: string, maxRounds: nat): Recovery
  {
    if !cfg.authorized(url) then RecoveryRaised(UnauthorizedDomain)
    else match DomainLadder(cfg, url, saved)
      case None => RecoveryRaised(BuildFailure)
      case Some(ladder) =>
        SearchTriesInOrder(cfg, net, render, ladder, t, url, 1, maxRounds);
        var (w, round) := Search(cfg, net, render, ladder, t, url, 1, maxRounds);
        Conclusion(Names(ladder), w, round, maxRounds)
  }

  /** A page that redirects to itself makes recovery raise, when a plain fetch is tried first. */
  lemma CycleRaises(
    cfg: Config, net: Network, render: (string, bool) -> Option<string>, saved: Option<string>, t: nat,
    url: string, maxRounds: nat)
    requires cfg.authorized(url) && maxRounds > 0
    requires var ladder := DomainLadder(cfg, url, saved);
      ladder.Some? && ladder.value != [] && ladder.value[0] == Plain
    requires forall k :: k >= t ==>
      net(k, url).Replied? && Redirects(net(k, url).r) && cfg.join(url, net(k, url).r.location.value) == url
    ensures RecoveryOf(cfg, net, render, saved, t, url, maxRounds) == RecoveryRaised(FetchError(None))
  {
    RedirectCycle(cfg, net, t, url, MAX_REDIRECTS + 1);
    var ladder := DomainLadder(cfg, url, saved).value;
    assert FetchOf(cfg, net, render, ladder[0], t, url).0 == Through(FetchError(None));
    assert Pass(cfg, net, render, ladder, t, url, 0).0 == Stopped(FetchError(None), 0);
  }

  /** A success in round r at rung j tried r - 1 full passes and then the rungs up to j; finding
      nothing tried every round in full. */
  ghost predicate TracesSearch(tried: seq<string>, names: seq<string>, w: Walked, round: int, maxRounds: nat) {
    if w.NoneThrough? then tried == Passes(names, maxRounds)
    else
      && w.rung < |names| && 1 <= round <= maxRounds
      && tried == Passes(names, round - 1) + names[..w.rung + 1]
  }

  /** The result and the trace are those of the search. */
  ghost predicate SearchedAs(
    r: Recovery, tried: seq<string>, cfg: Config, net: Network, render: (string, bool) -> Option<string>,
    ladder: seq<Strategy>, t: nat, url: string, maxRounds: nat)
  {
    var (w, round) := Search(cfg, net, render, ladder, t, url, 1, maxRounds);
    && TracesSearch(tried, Names(ladder), w, round, maxRounds)
    && r == Conclusion(Names(ladder), w, round, maxRounds)
  }

  /** What is stored: a success its strategy's name (and an audit entry when there is a sink), a
      failure the domain's status, an escaping error nothing. */
  ghost predicate Stores(
    r: Recovery, host: string, audit: bool, domains: map<string, Domain>, domains': map<string, Domain>,
    entries: seq<Audit>, entries': seq<Audit>)
  {
    match r
    case RecoveryRaised(_) => domains' == domains && entries' == entries
    case Returned(RecoveryResult(true, strategy, round)) =>
      && strategy.Some? && domains' == StrategySet(domains, host, strategy.value)
      && entries' == entries + if audit then [Audit(None, AccessRecovered(host, strategy.value, round))] else []
    case Returned(_) => domains' == StatusSet(domains, host, "escalated") && entries' == entries
  }

  /** `recover_access`: its answer is that of the search down the domain's ladder (of which
      `SearchTriesInOrder` tells what it tried); a success stores only the winner's name, a failure
      only the status. Every GET stays guarded and their number is bounded. */
  method RecoverAccess(
    url: string, reg: Registry, client: GuardedClient, render: (string, bool) -> Option<string>,
    maxRounds: nat, audit: bool) returns (r: Recovery, ghost tried: seq<string>)
    requires client.Valid()
    modifies client, reg`domains, reg`audit
    ensures client.Valid() && old(client.log) <= client.log
    ensures Stores(r, client.cfg.host(url), audit, old(reg.domains), reg.domains, old(reg.audit), reg.audit)
    ensures r == RecoveryOf(client.cfg, client.answers, render, old(reg.WorkingStrategy(client.cfg.host(url))),
                            old(client.sent), url, maxRounds)
    ensures client.sent <= old(client.sent) + GetsFor(maxRounds, |client.cfg.strategies(client.cfg.host(url))| + 1)
    ensures var ladder := DomainLadder(client.cfg, url, old(reg.WorkingStrategy(client.cfg.host(url))));
      if !client.cfg.authorized(url) then
        client.sent == old(client.sent)
      else if ladder.None? then
        client.sent == old(client.sent)
      else
        && SearchedAs(r, tried, client.cfg, client.answers, render, ladder.value, old(client.sent), url, maxRounds)
        && client.sent <= old(client.sent) + GetsFor(maxRounds, |ladder.value|)
  {
    tried := [];
    if !client.cfg.authorized(url) {
      return RecoveryRaised(UnauthorizedDomain), tried;
    }
    var host := client.cfg.host(url);
    var built := BuildLadder(client.cfg.strategies(host), reg.WorkingStrategy(host));
    if built.None? {
      return RecoveryRaised(BuildFailure), tried;
    }
    LadderOfDomain(client.cfg.strategies(host), reg.WorkingStrategy(host));
    LadderLength(Ordered(client.cfg.strategies(host), reg.WorkingStrategy(host)));
    GetsForMore(maxRounds, |built.value|, |client.cfg.strategies(host)| + 1);
    r, tried := RecoverOn(built.value, url, reg, client, render, maxRounds, audit);
  }

  /** The rounds down a built ladder, and what they store. */
  method RecoverOn(
    ladder: seq<Strategy>, url: string, reg: Registry, client: GuardedClient,
    render: (string, bool) -> Option<string>, maxRounds: nat, audit: bool)
    returns (r: Recovery, ghost tried: seq<string>)
    requires client.Valid() && Distinct(Names(ladder))
    modifies client, reg`domains, reg`audit
    ensures client.Valid() && old(client.log) <= client.log
    ensures Stores(r, client.cfg.host(url), audit, old(reg.domains), reg.domains, old(reg.audit), reg.audit)
    ensures client.sent <= old(client.sent) + GetsFor(maxRounds, |ladder|)
    ensures SearchedAs(r, tried, client.cfg, client.answers, render, ladder, old(client.sent), url, maxRounds)
  {
    SearchCost(ladder, maxRounds);
    SearchTriesInOrder(client.cfg, client.answers, render, ladder, client.sent, url, 1, maxRounds);
    var w, round;
    w, round, tried := WalkRounds(ladder, url, client, render, maxRounds);
    r := Conclude(reg, client.cfg.host(url), Names(ladder), w, round, maxRounds, audit);
  }

  /** The last step: store what the search found. */
  method Conclude(
    reg: Registry, host: string, names: seq<string>, w: Walked, round: int, maxRounds: nat, audit: bool)
    returns (r: Recovery)
    requires !w.NoneThrough? ==> w.rung < |names|
    modifies reg`domains, reg`audit
    ensures r == Conclusion(names, w, round, maxRounds)
    ensures Stores(r, host, audit, old(reg.domains), reg.domains, old(reg.audit), reg.audit)
  {
    match w {
      case Stopped(failure, _) =>
        r := RecoveryRaised(failure);
      case NoneThrough =>
        reg.MarkDomainStatus(host, "escalated");
        r := Returned(RecoveryResult(false, None, maxRounds));
      case GotThrough(rung) =>
        r := Remember(reg, host, names[rung], round, audit);
    }
  }

  /** What a success stores: the strategy's name, and an audit entry when there is a sink. */
  method Remember(reg: Registry, host: string, name: string, round: int, audit: bool) returns (r: Recovery)
    modifies reg`domains, reg`audit
    ensures r == Returned(RecoveryResult(true, Some(name), round))
    ensures reg.domains == StrategySet(old(reg.domains), host, name)
    ensures reg.audit == old(reg.audit) + (if audit then [Audit(None, AccessRecovered(host, name, round))] else [])
  {
    reg.SetWorkingStrategy(host, name);
    if audit {
      reg.WriteAudit(None, AccessRecovered(host, name, round));
    } else {
      assert reg.audit == old(reg.audit) + [];
    }
    r := Returned(RecoveryResult(true, Some(name), round));
  }
}
