// How recovery ends, and exactly when (crawloop/loop/access_recovery.py): each rung is tried at a
// moment of its own, and the first one that does not pass the question on decides.
module RecoveryEnds {
  import opened Wrappers
  import opened Failures
  import opened Access
  import opened LetThrough
  import opened AccessRecovery

  /** A rung that neither gets through nor raises: the next one is tried. */
  predicate PassesOn(f: Fetched) {
    f.NotEnabled? || (f.Ended? && !f.outcome.Page?)
  }

  /** A ladder on a network, and the URL to get to. */
  datatype Climb = Climb(
    cfg: Config, net: Network, render: (string, bool) -> Option<string>, ladder: seq<Strategy>, url: string)
  {
    /** The number of the next GET when rung `j` is tried, in a pass from `t` on. */
    ghost function RungMoment(t: nat, j: nat): nat
      requires j <= |ladder|
    {
      if j == 0 then t else FetchOf(cfg, net, render, ladder[j - 1], RungMoment(t, j - 1), url).1
    }

    ghost function RungGives(t: nat, j: nat): Fetched
      requires j < |ladder|
    {
      FetchOf(cfg, net, render, ladder[j], RungMoment(t, j), url).0
    }

    /** The rungs before rung `j` pass the question on. */
    ghost predicate RungsReach(t: nat, j: nat)
      requires j <= |ladder|
    {
      forall i: nat :: i < j ==> PassesOn(RungGives(t, i))
    }

    lemma {:induction false} PassReaches(t: nat, j: nat)
      requires j <= |ladder| && RungsReach(t, j)
      ensures Pass(cfg, net, render, ladder, t, url, 0) == Pass(cfg, net, render, ladder, RungMoment(t, j), url, j)
    {
      if j > 0 {
        PassReaches(t, j - 1);
        assert PassesOn(RungGives(t, j - 1));
      }
    }

    /** The rung that ends a pass, or the length of the ladder. */
    lemma {:induction false} LastRung(t: nat) returns (j: nat)
      ensures j <= |ladder| && RungsReach(t, j)
      ensures j < |ladder| ==> !PassesOn(RungGives(t, j))
    {
      j := 0;
      while j < |ladder| && PassesOn(RungGives(t, j))
        invariant j <= |ladder| && RungsReach(t, j)
      {
        j := j + 1;
      }
    }

    /** A pass stops, or gets through, at rung `j` exactly when that rung does, at its own moment,
        and all before it pass the question on; it finds nothing exactly when all of them do. */
    lemma PassEnds(t: nat)
      ensures var (w, next) := Pass(cfg, net, render, ladder, t, url, 0);
        && (forall f, j: nat :: w == Stopped(f, j) <==>
              j < |ladder| && RungsReach(t, j) && RungGives(t, j) == Through(f))
        && (forall j: nat :: w == GotThrough(j) <==>
              j < |ladder| && RungsReach(t, j) && RungGives(t, j).Ended? && RungGives(t, j).outcome.Page?)
        && (w.NoneThrough? <==> RungsReach(t, |ladder|))
        && (w.NoneThrough? ==> next == RungMoment(t, |ladder|))
    {
      var last := LastRung(t);
      PassReaches(t, last);
      forall j: nat | j < |ladder| && RungsReach(t, j) && !PassesOn(RungGives(t, j)) ensures j == last {
      }
    }

    // ---- rounds ----

    /** The number of the next GET after `r` whole rounds. */
    ghost function RoundMoment(t: nat, r: nat): nat {
      if r == 0 then t else RungMoment(RoundMoment(t, r - 1), |ladder|)
    }

    /** The rounds before round `r` (counted from 0) find nothing. */
    ghost predicate RoundsReach(t: nat, r: nat) {
      forall q: nat :: q < r ==> RungsReach(RoundMoment(t, q), |ladder|)
    }

    /** Rung `j` is tried in round `r`. */
    ghost predicate Tries(t: nat, r: nat, j: nat) {
      j < |ladder| && RoundsReach(t, r) && RungsReach(RoundMoment(t, r), j)
    }

    lemma {:induction false} SearchReaches(t: nat, r: nat, maxRounds: nat)
      requires r <= maxRounds && RoundsReach(t, r)
      ensures Search(cfg, net, render, ladder, t, url, 1, maxRounds)
        == Search(cfg, net, render, ladder, RoundMoment(t, r), url, r + 1, maxRounds)
    {
      if r > 0 {
        SearchReaches(t, r - 1, maxRounds);
        PassEnds(RoundMoment(t, r - 1));
        assert RungsReach(RoundMoment(t, r - 1), |ladder|);
      }
    }

    /** The round that ends a search, or the number of rounds. */
    lemma {:induction false} LastRound(t: nat, maxRounds: nat) returns (r: nat)
      ensures r <= maxRounds && RoundsReach(t, r)
      ensures r < maxRounds ==> !RungsReach(RoundMoment(t, r), |ladder|)
    {
      r := 0;
      while r < maxRounds && RungsReach(RoundMoment(t, r), |ladder|)
        invariant r <= maxRounds && RoundsReach(t, r)
      {
        r := r + 1;
      }
    }

    /** A rung that does not pass the question on ends the round, and so the search. */
    lemma OnlyLastRound(t: nat, r: nat, j: nat, last: nat)
      requires Tries(t, r, j) && !PassesOn(RungGives(RoundMoment(t, r), j))
      requires RoundsReach(t, last)
      ensures last <= r && !RungsReach(RoundMoment(t, r), |ladder|)
    {
      assert !RungsReach(RoundMoment(t, r), |ladder|);
    }

    /** The same for the search: it stops, or gets through, exactly where the first rung tried that
        does not pass the question on does. */
    lemma SearchEnds(t: nat, maxRounds: nat, r: nat, j: nat, failure: Failure)
      requires r < maxRounds
      ensures var found := Search(cfg, net, render, ladder, t, url, 1, maxRounds);
        && (found == (Stopped(failure, j), r + 1) <==>
              Tries(t, r, j) && RungGives(RoundMoment(t, r), j) == Through(failure))
        && (found == (GotThrough(j), r + 1) <==>
              Tries(t, r, j) && RungGives(RoundMoment(t, r), j).Ended? && RungGives(RoundMoment(t, r), j).outcome.Page?)
    {
      var last := LastRound(t, maxRounds);
      SearchReaches(t, last, maxRounds);
      PassEnds(RoundMoment(t, last));
      if Tries(t, r, j) && !PassesOn(RungGives(RoundMoment(t, r), j)) {
        OnlyLastRound(t, r, j, last);
      }
    }

    /** And it finds nothing exactly when every round finds nothing. */
    lemma SearchFindsNothing(t: nat, maxRounds: nat)
      ensures Search(cfg, net, render, ladder, t, url, 1, maxRounds).0.NoneThrough? <==> RoundsReach(t, maxRounds)
    {
      var last := LastRound(t, maxRounds);
      SearchReaches(t, last, maxRounds);
      PassEnds(RoundMoment(t, last));
    }

    /** In some round within the budget some rung is tried that lets `failure` through. */
    ghost predicate SomeRungLets(t: nat, maxRounds: nat, failure: Failure) {
      exists r: nat, j: nat :: r < maxRounds && Tries(t, r, j) &&
        LetsThrough(cfg, net, ladder[j], RungMoment(RoundMoment(t, r), j), url, failure)
    }

    lemma RungStops(t: nat, r: nat, j: nat, maxRounds: nat, failure: Failure)
      requires r < maxRounds && Tries(t, r, j)
      requires LetsThrough(cfg, net, ladder[j], RungMoment(RoundMoment(t, r), j), url, failure)
      ensures Search(cfg, net, render, ladder, t, url, 1, maxRounds) == (Stopped(failure, j), r + 1)
    {
      LetsThroughExactly(cfg, net, render, ladder[j], RungMoment(RoundMoment(t, r), j), url, failure);
      SearchEnds(t, maxRounds, r, j, failure);
    }

    lemma StopsInRound(t: nat, maxRounds: nat)
      ensures var (w, round) := Search(cfg, net, render, ladder, t, url, 1, maxRounds);
        w.Stopped? ==> 1 <= round <= maxRounds && w.rung < |ladder|
    {
      SearchTriesInOrder(cfg, net, render, ladder, t, url, 1, maxRounds);
    }

    lemma StopsAtRung(t: nat, maxRounds: nat)
      ensures var w := Search(cfg, net, render, ladder, t, url, 1, maxRounds).0;
        w.Stopped? ==> SomeRungLets(t, maxRounds, w.failure)
    {
      StopsInRound(t, maxRounds);
      var (w, round) := Search(cfg, net, render, ladder, t, url, 1, maxRounds);
      if w.Stopped? {
        var r: nat := round - 1;
        SearchEnds(t, maxRounds, r, w.rung, w.failure);
        assert Tries(t, r, w.rung);
        LetsThroughExactly(cfg, net, render, ladder[w.rung], RungMoment(RoundMoment(t, r), w.rung), url, w.failure);
      }
    }

    /** A search stops with `failure` exactly when a rung it tries lets that through. */
    lemma SearchStops(t: nat, maxRounds: nat, failure: Failure)
      ensures var w := Search(cfg, net, render, ladder, t, url, 1, maxRounds).0;
        w.Stopped? && w.failure == failure <==> SomeRungLets(t, maxRounds, failure)
    {
      StopsAtRung(t, maxRounds);
      if SomeRungLets(t, maxRounds, failure) {
        var r: nat, j: nat :| r < maxRounds && Tries(t, r, j) &&
          LetsThrough(cfg, net, ladder[j], RungMoment(RoundMoment(t, r), j), url, failure);
        RungStops(t, r, j, maxRounds, failure);
      }
    }
  }

  /** Some rung configured for the host, or saved for it, cannot be built. */
  ghost predicate Unbuildable(cfg: Config, url: string, saved: Option<string>) {
    exists rung :: rung in Ordered(cfg.strategies(cfg.host(url)), saved) && BuildStrategy(rung.0, rung.1).None?
  }

  /** A rung of the domain's ladder is tried that lets `failure` through. */
  ghost predicate LadderLets(
    cfg: Config, net: Network, render: (string, bool) -> Option<string>, saved: Option<string>, t: nat,
    url: string, maxRounds: nat, failure: Failure)
  {
    var ladder := DomainLadder(cfg, url, saved);
    ladder.Some? && Climb(cfg, net, render, ladder.value, url).SomeRungLets(t, maxRounds, failure)
  }

  /** What recovery raises, and exactly when: the policy stop off the allowlist; otherwise a build
      error when some rung cannot be built, or what a rung lets through that the search tries. */
  lemma RecoveryRaises(
    cfg: Config, net: Network, render: (string, bool) -> Option<string>, saved: Option<string>, t: nat,
    url: string, maxRounds: nat, failure: Failure)
    ensures RecoveryOf(cfg, net, render, saved, t, url, maxRounds) == RecoveryRaised(failure) <==>
      if !cfg.authorized(url) then failure == UnauthorizedDomain
      else
        || (failure == BuildFailure && Unbuildable(cfg, url, saved))
        || LadderLets(cfg, net, render, saved, t, url, maxRounds, failure)
  {
    LadderExists(Ordered(cfg.strategies(cfg.host(url)), saved));
    var ladder := DomainLadder(cfg, url, saved);
    if ladder.Some? {
      Climb(cfg, net, render, ladder.value, url).SearchStops(t, maxRounds, failure);
    }
  }
}
