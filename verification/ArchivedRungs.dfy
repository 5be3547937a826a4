// Which rungs the runtime walk reaches (crawloop/executor.py over `version_ladder` of
// crawloop/registry.py), archived versions included.
module ArchivedRungs {
  import opened Wrappers
  import opened Sorting
  import opened Values
  import opened Failures
  import opened Ladder
  import opened Executor

  /** The moment rung `j` is tried at, if the walk gets there. */
  function MomentOf(
    pages: Pages, t: nat, ladder: seq<Version>, url: string, accepts: Validator, maxPages: nat, i: nat, j: nat): nat
    requires i <= j <= |ladder|
    decreases j - i
  {
    if i == j then t
    else MomentOf(pages, VerdictAt(pages, t, ladder[i], url, accepts, maxPages).1, ladder, url, accepts, maxPages, i + 1, j)
  }

  /** What rung `j` would say there. */
  function VerdictThere(
    pages: Pages, t: nat, ladder: seq<Version>, url: string, accepts: Validator, maxPages: nat, i: nat, j: nat): Verdict
    requires i <= j < |ladder|
  {
    VerdictAt(pages, MomentOf(pages, t, ladder, url, accepts, maxPages, i, j), ladder[j], url, accepts, maxPages).0
  }

  /** Every rung from `i` up to `j` rejects. */
  predicate AllReject(
    pages: Pages, t: nat, ladder: seq<Version>, url: string, accepts: Validator, maxPages: nat, i: nat, j: nat)
    requires i <= j <= |ladder|
  {
    forall k :: i <= k < j ==> VerdictThere(pages, t, ladder, url, accepts, maxPages, i, k).Rejects?
  }

  lemma AllRejectFrom(
    pages: Pages, t: nat, ladder: seq<Version>, url: string, accepts: Validator, maxPages: nat, i: nat, j: nat)
    requires i < j <= |ladder|
    ensures var (v, next) := VerdictAt(pages, t, ladder[i], url, accepts, maxPages);
      AllReject(pages, t, ladder, url, accepts, maxPages, i, j)
      <==> v.Rejects? && AllReject(pages, next, ladder, url, accepts, maxPages, i + 1, j)
  {
    var (v, next) := VerdictAt(pages, t, ladder[i], url, accepts, maxPages);
    assert VerdictThere(pages, t, ladder, url, accepts, maxPages, i, i) == v;
    if AllReject(pages, t, ladder, url, accepts, maxPages, i, j) {
      var m := i + 1;
      forall k | m <= k < j ensures VerdictThere(pages, next, ladder, url, accepts, maxPages, m, k).Rejects? {
        assert VerdictThere(pages, t, ladder, url, accepts, maxPages, i, k).Rejects?;
      }
    }
    if v.Rejects? && AllReject(pages, next, ladder, url, accepts, maxPages, i + 1, j) {
      forall k | i <= k < j ensures VerdictThere(pages, t, ladder, url, accepts, maxPages, i, k).Rejects? {
        if k > i {
          assert VerdictThere(pages, next, ladder, url, accepts, maxPages, i + 1, k).Rejects?;
        }
      }
    }
  }

  /** Rung `j` is tried exactly when every earlier rung rejects, and then says what it says there. */
  lemma {:induction false} RungIsTried(
    pages: Pages, t: nat, ladder: seq<Version>, url: string, accepts: Validator, maxPages: nat, i: nat, j: nat)
    requires i <= j < |ladder|
    ensures var verdicts := VerdictsFrom(pages, t, ladder, url, accepts, maxPages, i).0;
      && (j - i < |verdicts| <==> AllReject(pages, t, ladder, url, accepts, maxPages, i, j))
      && (j - i < |verdicts| ==>
            verdicts[j - i] == VerdictThere(pages, t, ladder, url, accepts, maxPages, i, j))
    decreases j - i
  {
    var (v, next) := VerdictAt(pages, t, ladder[i], url, accepts, maxPages);
    if i < j {
      AllRejectFrom(pages, t, ladder, url, accepts, maxPages, i, j);
      if v.Rejects? {
        RungIsTried(pages, next, ladder, url, accepts, maxPages, i + 1, j);
      }
    }
  }

  /** The ladder has an archived rung exactly when the family has an archived row. */
  lemma ArchivedRungIsRow(vs: seq<Version>, family: string)
    ensures (exists j :: 0 <= j < |VersionLadder(vs, family)| && VersionLadder(vs, family)[j].status == Archived)
      <==> exists i :: 0 <= i < |vs| && vs[i].family == family && vs[i].status == Archived
  {
    var rows, ladder := RowsOf(vs, family), VersionLadder(vs, family);
    SortPermutes(rows, LadderLe);
    RowsOfFamily(vs, family);
    if j :| 0 <= j < |ladder| && ladder[j].status == Archived {
      SameMembers(ladder, rows, ladder[j]);
      var r :| 0 <= r < |rows| && rows[r] == ladder[j];
      RowIsInTable(vs, family, r);
    }
    if i :| 0 <= i < |vs| && vs[i].family == family && vs[i].status == Archived {
      assert vs[i] in vs;
      SameMembers(ladder, rows, vs[i]);
    }
  }

  lemma {:induction false} RowIsInTable(vs: seq<Version>, family: string, r: nat)
    requires r < |RowsOf(vs, family)|
    ensures exists i :: 0 <= i < |vs| && vs[i] == RowsOf(vs, family)[r] && vs[i].family == family
  {
    var n := |vs| - 1;
    var before := RowsOf(vs[..n], family);
    if r < |before| {
      RowIsInTable(vs[..n], family, r);
      var i :| 0 <= i < n && vs[..n][i] == before[r] && vs[..n][i].family == family;
      assert vs[i] == before[r];
    } else {
      assert vs[n] == RowsOf(vs, family)[r];
    }
  }

  /** One walk of the family tries an archived version. */
  ghost predicate TriesArchived(
    vs: seq<Version>, family: string, pages: Pages, t: nat, url: string, accepts: Validator, maxPages: nat)
  {
    var ladder := VersionLadder(vs, family);
    exists j :: 0 <= j < |VerdictsFrom(pages, t, ladder, url, accepts, maxPages, 0).0| && j < |ladder|
      && ladder[j].status == Archived
  }

  /** It does exactly when every rung before some archived one rejects. */
  lemma ArchivedTriedOnce(
    vs: seq<Version>, family: string, pages: Pages, t: nat, url: string, accepts: Validator, maxPages: nat)
    ensures var ladder := VersionLadder(vs, family);
      TriesArchived(vs, family, pages, t, url, accepts, maxPages)
      <==> exists j :: 0 <= j < |ladder| && ladder[j].status == Archived
             && AllReject(pages, t, ladder, url, accepts, maxPages, 0, j)
  {
    var ladder := VersionLadder(vs, family);
    forall j | 0 <= j < |ladder|
      ensures j < |VerdictsFrom(pages, t, ladder, url, accepts, maxPages, 0).0|
        <==> AllReject(pages, t, ladder, url, accepts, maxPages, 0, j)
    {
      RungIsTried(pages, t, ladder, url, accepts, maxPages, 0, j);
    }
  }

  /** A site without items, and a validator that refuses them. */
  function EmptySite(): Pages {
    (_, _, _) => Crawled([], None)
  }

  function RefuseAll(): Validator {
    (_, _) => false
  }

  lemma {:induction false} RefusedAllTheWay(ladder: seq<Version>, t: nat, i: nat)
    requires i <= |ladder|
    ensures |VerdictsFrom(EmptySite(), t, ladder, "", RefuseAll(), 1, i).0| == |ladder| - i
    decreases |ladder| - i
  {
    if i < |ladder| {
      var (v, next) := VerdictAt(EmptySite(), t, ladder[i], "", RefuseAll(), 1);
      assert v.Rejects?;
      RefusedAllTheWay(ladder, next, i + 1);
    }
  }

  /** "Rollback-only, not tried at runtime" holds of a family on every site exactly when it has no
      archived row. */
  lemma ArchivedNeverTried(vs: seq<Version>, family: string)
    ensures (forall pages, t: nat, url, accepts, maxPages: nat ::
               !TriesArchived(vs, family, pages, t, url, accepts, maxPages))
      <==> forall i :: 0 <= i < |vs| && vs[i].family == family ==> vs[i].status != Archived
  {
    var ladder := VersionLadder(vs, family);
    ArchivedRungIsRow(vs, family);
    RefusedAllTheWay(ladder, 0, 0);
    if j :| 0 <= j < |ladder| && ladder[j].status == Archived {
      assert TriesArchived(vs, family, EmptySite(), 0, "", RefuseAll(), 1);
    }
  }

  // ---- an archived version that serves ----

  /** Two versions of a family, the newer activated and then rolled back. */
  function Rolled(f: string): seq<Op> {
    Activation(f) + [Rollback(f)]
  }

  function Activation(f: string): seq<Op> {
    [Add(f, "old")] + [Add(f, "new")] + [SetActive(f, 2)]
  }

  function Old(f: string): Version {
    Version(f, 1, Active, "old", 0, 0)
  }

  function New(f: string): Version {
    Version(f, 2, Archived, "new", 0, 0)
  }

  /** One more operation, on the table reached before it. */
  lemma StepOnto(before: seq<Op>, vs: seq<Version>, op: Op, vs': seq<Version>)
    requires Run([], before) == vs && Step(vs, op) == vs'
    ensures Run([], before + [op]) == vs'
  {
    assert (before + [op])[..|before|] == before;
  }

  lemma TwoRows(a: Version, b: Version)
    requires a.family == b.family
    ensures RowsOf([a], a.family) == [a] && RowsOf([a, b], a.family) == [a, b]
  {
    assert [a][..0] == [] && [a, b][..1] == [a];
  }

  lemma FirstAdded(f: string)
    ensures Step([], Add(f, "old")) == [Old(f).(status := Fallback)]
  {
  }

  lemma SecondAdded(f: string)
    ensures Step([Old(f).(status := Fallback)], Add(f, "new")) == [Old(f).(status := Fallback), New(f).(status := Fallback)]
  {
    var first := Old(f).(status := Fallback);
    TwoRows(first, first);
    assert [first][..0] == [] && MaxN([first]) == 1;
  }

  lemma NewActivated(f: string)
    ensures Step([Old(f).(status := Fallback), New(f).(status := Fallback)], SetActive(f, 2))
      == [Old(f).(status := Fallback), New(f).(status := Active)]
  {
    var vs := [Old(f).(status := Fallback), New(f).(status := Fallback)];
    assert vs[1].family == f && vs[1].n == 2;
  }

  lemma NewRolledBack(f: string)
    ensures Step([Old(f).(status := Fallback), New(f).(status := Active)], Rollback(f)) == [Old(f), New(f)]
  {
    var first, second := Old(f).(status := Fallback), New(f).(status := Active);
    TwoRows(first, second);
    assert [first][..0] == [] && TopFallback([first]) == Some(1);
    assert [first, second][..1] == [first];
  }

  lemma RolledTable(f: string)
    ensures Run([], Rolled(f)) == [Old(f), New(f)]
  {
    var added1, added2 := [Add(f, "old")], [Add(f, "old")] + [Add(f, "new")];
    var first, second := Old(f).(status := Fallback), New(f).(status := Fallback);
    FirstAdded(f);
    SecondAdded(f);
    NewActivated(f);
    NewRolledBack(f);
    assert [] + [Add(f, "old")] == added1;
    StepOnto([], [], Add(f, "old"), [first]);
    StepOnto(added1, [first], Add(f, "new"), [first, second]);
    StepOnto(added2, [first, second], SetActive(f, 2), [first, New(f).(status := Active)]);
    StepOnto(Activation(f), [first, New(f).(status := Active)], Rollback(f), [Old(f), New(f)]);
  }

  /** A site on which each source yields one row, and a validator that takes the new one's. */
  function OneRowSite(): Pages {
    (_, _, _) => Crawled([map[]], None)
  }

  function NewOnly(): Validator {
    (source, _) => source == "new"
  }

  lemma OneRowRun(t: nat, source: string, url: string)
    ensures Paginate(OneRowSite(), t, source, Some(url), 10) == (Extracted([map[]], 1), t + 1)
  {
    var items: seq<Record> := [map[]];
    assert Paginate(OneRowSite(), t + 1, source, None, 9) == (Extracted([], 0), t + 1);
    assert items + [] == items;
  }

  lemma OldRejectsNewServes(f: string, t: nat, url: string)
    ensures VerdictsFrom(OneRowSite(), t, [Old(f), New(f)], url, NewOnly(), 10, 0).0 == [Rejects, Serves([map[]], 1)]
  {
    var ladder := [Old(f), New(f)];
    OneRowRun(t, "old", url);
    OneRowRun(t + 1, "new", url);
    assert VerdictAt(OneRowSite(), t, ladder[0], url, NewOnly(), 10) == (Rejects, t + 1);
    assert VerdictAt(OneRowSite(), t + 1, ladder[1], url, NewOnly(), 10) == (Serves([map[]], 1), t + 2);
    assert VerdictsFrom(OneRowSite(), t + 1, ladder, url, NewOnly(), 10, 1).0 == [Serves([map[]], 1)];
  }

  lemma OldAboveNew(f: string)
    ensures VersionLadder([Old(f), New(f)], f) == [Old(f), New(f)]
  {
    TwoRows(Old(f), New(f));
    assert [Old(f), New(f)][..1] == [Old(f)] && [Old(f)][..0] == [];
    assert SortBy([Old(f)], LadderLe) == [Old(f)];
    assert Insert([Old(f)], New(f), LadderLe) == [Old(f)] + Insert([], New(f), LadderLe);
  }

  /** The rolled-back version is archived, is reached after the active one rejects, and serves. */
  lemma ArchivedServes(f: string, t: nat, url: string)
    ensures var vs := Run([], Rolled(f));
      var ladder := VersionLadder(vs, f);
      var verdicts := VerdictsFrom(OneRowSite(), t, ladder, url, NewOnly(), 10, 0).0;
      && ladder == [Old(f), New(f)] && ladder[1].status == Archived
      && |verdicts| == 2 && OutcomeOf(ladder, verdicts) == Served([map[]], 2, 1)
      && TriesArchived(vs, f, OneRowSite(), t, url, NewOnly(), 10)
  {
    RolledTable(f);
    OldAboveNew(f);
    OldRejectsNewServes(f, t, url);
  }
}
