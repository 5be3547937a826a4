// The versions table (crawloop/registry.py, crawloop/migrations): one row per crawler
// version, and what add, activate, roll back and record do to it. Queries are filters and
// updates are row maps, as in the SQL.
module Ladder {
  import opened Wrappers
  import opened Sorting

  datatype Status = Active | Fallback | Archived

  datatype Version = Version(
    family: string, n: int, status: Status, source: string, runs: nat, successes: nat)

  /** `SELECT * FROM versions WHERE family = ?`, in insertion order. */
  function RowsOf(vs: seq<Version>, family: string): seq<Version> {
    if vs == [] then []
    else
      var last := vs[|vs| - 1];
      RowsOf(vs[..|vs| - 1], family) + if last.family == family then [last] else []
  }

  /** `MAX(n)`, 0 for no rows. */
  function MaxN(rows: seq<Version>): int {
    if rows == [] then 0
    else
      var before := MaxN(rows[..|rows| - 1]);
      if rows[|rows| - 1].n > before then rows[|rows| - 1].n else before
  }

  /** The highest number among the fallback rows. */
  function TopFallback(rows: seq<Version>): Option<int> {
    if rows == [] then None
    else
      var before, last := TopFallback(rows[..|rows| - 1]), rows[|rows| - 1];
      if last.status == Fallback && (before.None? || last.n > before.value) then Some(last.n) else before
  }

  function ActiveCount(rows: seq<Version>): nat {
    if rows == [] then 0
    else ActiveCount(rows[..|rows| - 1]) + if rows[|rows| - 1].status == Active then 1 else 0
  }

  /** The number of the family's active version, if any. */
  function ActiveN(rows: seq<Version>): Option<int> {
    if rows == [] then None
    else if rows[|rows| - 1].status == Active then Some(rows[|rows| - 1].n)
    else ActiveN(rows[..|rows| - 1])
  }

  // ---- row updates ----

  /** The three UPDATE statements. */
  datatype Change =
    | Demote(to: Status)
    | Promote(n: int)
    | Credit(n: int, ok: bool)

  function Changed(v: Version, family: string, c: Change): Version {
    if v.family != family then v
    else match c
      case Demote(to) => if v.status == Active then v.(status := to) else v
      case Promote(n) => if v.n == n then v.(status := Active) else v
      case Credit(n, ok) =>
        if v.n == n then v.(runs := v.runs + 1, successes := v.successes + if ok then 1 else 0) else v
  }

  function Update(vs: seq<Version>, family: string, c: Change): (r: seq<Version>)
    ensures |r| == |vs|
  {
    seq(|vs|, i requires 0 <= i < |vs| => Changed(vs[i], family, c))
  }

  predicate Exists(vs: seq<Version>, family: string, n: int) {
    exists i :: 0 <= i < |vs| && vs[i].family == family && vs[i].n == n
  }

  // ---- operations ----

  function Added(vs: seq<Version>, family: string, source: string): seq<Version> {
    vs + [Version(family, MaxN(RowsOf(vs, family)) + 1, Fallback, source, 0, 0)]
  }

  /** `set_active`: nothing at all when the version does not exist. */
  function Activated(vs: seq<Version>, family: string, n: int): seq<Version> {
    if Exists(vs, family, n) then Update(Update(vs, family, Demote(Fallback)), family, Promote(n)) else vs
  }

  /** `rollback`: nothing at all when there is no fallback. */
  function RolledBack(vs: seq<Version>, family: string): seq<Version> {
    match TopFallback(RowsOf(vs, family))
    case None => vs
    case Some(n) => Update(Update(vs, family, Demote(Archived)), family, Promote(n))
  }

  datatype Op =
    | Add(family: string, source: string)
    | SetActive(family: string, n: int)
    | Rollback(family: string)
    | Record(family: string, n: int, ok: bool)

  function Step(vs: seq<Version>, op: Op): seq<Version> {
    match op
    case Add(f, source) => Added(vs, f, source)
    case SetActive(f, n) => Activated(vs, f, n)
    case Rollback(f) => RolledBack(vs, f)
    case Record(f, n, ok) => Update(vs, f, Credit(n, ok))
  }

  function Run(vs: seq<Version>, ops: seq<Op>): seq<Version> {
    if ops == [] then vs else Step(Run(vs, ops[..|ops| - 1]), ops[|ops| - 1])
  }

  // ---- how updates act on one family's rows ----

  lemma {:induction false} RowsOfUpdate(vs: seq<Version>, family: string, c: Change, g: string)
    ensures RowsOf(Update(vs, family, c), g) == Update(RowsOf(vs, g), family, c)
  {
    if vs != [] {
      var n := |vs| - 1;
      assert Update(vs, family, c)[..n] == Update(vs[..n], family, c);
      RowsOfUpdate(vs[..n], family, c, g);
    }
  }

  lemma {:induction false} RowsOfFamily(vs: seq<Version>, family: string)
    ensures forall i :: 0 <= i < |RowsOf(vs, family)| ==>
      RowsOf(vs, family)[i].family == family && RowsOf(vs, family)[i] in vs
    ensures forall v :: v in vs && v.family == family ==> v in RowsOf(vs, family)
  {
    if vs != [] {
      var n := |vs| - 1;
      RowsOfFamily(vs[..n], family);
      assert vs == vs[..n] + [vs[n]];
    }
  }

  lemma RowsOfAdded(vs: seq<Version>, family: string, source: string, g: string)
    ensures RowsOf(Added(vs, family, source), g) ==
      RowsOf(vs, g) + if g == family then [Version(family, MaxN(RowsOf(vs, g)) + 1, Fallback, source, 0, 0)] else []
  {
    var all := Added(vs, family, source);
    assert all[..|all| - 1] == vs;
  }

  lemma UpdateElsewhere(rows: seq<Version>, family: string, c: Change, g: string)
    requires g != family && forall i :: 0 <= i < |rows| ==> rows[i].family == g
    ensures Update(rows, family, c) == rows
  {
  }

  // ---- the ladder invariant ----

  /** The family's rows are numbered 1, 2, 3, ... in insertion order. */
  ghost predicate Numbered(rows: seq<Version>) {
    forall i :: 0 <= i < |rows| ==> rows[i].n == i + 1
  }

  ghost predicate Counted(rows: seq<Version>) {
    forall i :: 0 <= i < |rows| ==> rows[i].successes <= rows[i].runs
  }

  ghost predicate GoodRows(rows: seq<Version>) {
    Numbered(rows) && Counted(rows) && ActiveCount(rows) <= 1
  }

  ghost predicate Good(vs: seq<Version>) {
    forall f :: GoodRows(RowsOf(vs, f))
  }

  lemma {:induction false} MaxNumbered(rows: seq<Version>)
    requires Numbered(rows)
    ensures MaxN(rows) == |rows|
  {
    if rows != [] {
      MaxNumbered(rows[..|rows| - 1]);
    }
  }

  lemma {:induction false} NoneActiveAfterDemote(rows: seq<Version>, family: string, to: Status)
    requires to != Active && forall i :: 0 <= i < |rows| ==> rows[i].family == family
    ensures ActiveCount(Update(rows, family, Demote(to))) == 0
  {
    if rows != [] {
      var n := |rows| - 1;
      assert Update(rows, family, Demote(to))[..n] == Update(rows[..n], family, Demote(to));
      NoneActiveAfterDemote(rows[..n], family, to);
    }
  }

  lemma {:induction false} OneActiveAfterPromote(rows: seq<Version>, family: string, n: int)
    requires Numbered(rows) && forall i :: 0 <= i < |rows| ==> rows[i].family == family
    requires ActiveCount(rows) == 0
    ensures ActiveCount(Update(rows, family, Promote(n))) == if 1 <= n <= |rows| then 1 else 0
    ensures 1 <= n <= |rows| ==> ActiveN(Update(rows, family, Promote(n))) == Some(n)
  {
    if rows != [] {
      var m := |rows| - 1;
      assert Update(rows, family, Promote(n))[..m] == Update(rows[..m], family, Promote(n));
      OneActiveAfterPromote(rows[..m], family, n);
    }
  }

  lemma {:induction false} CreditKeepsStatus(rows: seq<Version>, family: string, n: int, ok: bool)
    ensures ActiveCount(Update(rows, family, Credit(n, ok))) == ActiveCount(rows)
    ensures ActiveN(Update(rows, family, Credit(n, ok))) == ActiveN(rows)
  {
    if rows != [] {
      var m := |rows| - 1;
      assert Update(rows, family, Credit(n, ok))[..m] == Update(rows[..m], family, Credit(n, ok));
      CreditKeepsStatus(rows[..m], family, n, ok);
    }
  }

  lemma {:induction false} TopFallbackIsRow(rows: seq<Version>)
    ensures TopFallback(rows).Some? ==>
      exists i :: 0 <= i < |rows| && rows[i].status == Fallback && rows[i].n == TopFallback(rows).value
    ensures forall i :: 0 <= i < |rows| && rows[i].status == Fallback ==>
      TopFallback(rows).Some? && rows[i].n <= TopFallback(rows).value
  {
    if rows != [] {
      var m := |rows| - 1;
      TopFallbackIsRow(rows[..m]);
      if TopFallback(rows).Some? && !(rows[m].status == Fallback && rows[m].n == TopFallback(rows).value) {
        var i :| 0 <= i < m && rows[..m][i].status == Fallback && rows[..m][i].n == TopFallback(rows[..m]).value;
        assert rows[i].status == Fallback && rows[i].n == TopFallback(rows).value;
      }
    }
  }

  /** Moving the active mark within one family leaves exactly one active version, the named one. */
  lemma SwitchActive(rows: seq<Version>, family: string, to: Status, n: int)
    requires to != Active && GoodRows(rows) && 1 <= n <= |rows|
    requires forall i :: 0 <= i < |rows| ==> rows[i].family == family
    ensures var r := Update(Update(rows, family, Demote(to)), family, Promote(n));
      GoodRows(r) && ActiveCount(r) == 1 && ActiveN(r) == Some(n)
  {
    NoneActiveAfterDemote(rows, family, to);
    OneActiveAfterPromote(Update(rows, family, Demote(to)), family, n);
  }

  lemma AppendKeeps(rows: seq<Version>, v: Version)
    requires GoodRows(rows) && v.n == |rows| + 1 && v.successes <= v.runs && v.status != Active
    ensures GoodRows(rows + [v]) && ActiveCount(rows + [v]) == ActiveCount(rows)
  {
    assert (rows + [v])[..|rows|] == rows;
  }

  /** The new version is numbered one past the old maximum and is the only addition. */
  lemma AddKeeps(vs: seq<Version>, family: string, source: string, g: string)
    requires Good(vs)
    ensures GoodRows(RowsOf(Added(vs, family, source), g))
    ensures ActiveCount(RowsOf(Added(vs, family, source), g)) == ActiveCount(RowsOf(vs, g))
  {
    var rows := RowsOf(vs, g);
    assert GoodRows(rows);
    RowsOfAdded(vs, family, source, g);
    if g == family {
      MaxNumbered(rows);
      AppendKeeps(rows, Version(family, MaxN(rows) + 1, Fallback, source, 0, 0));
    } else {
      assert rows + [] == rows;
    }
  }

  lemma ActivateKeeps(vs: seq<Version>, family: string, n: int, g: string)
    requires Good(vs)
    ensures GoodRows(RowsOf(Activated(vs, family, n), g))
    ensures g == family && Exists(vs, family, n) ==>
      ActiveCount(RowsOf(Activated(vs, family, n), g)) == 1
      && ActiveN(RowsOf(Activated(vs, family, n), g)) == Some(n)
    ensures g != family || !Exists(vs, family, n) ==> RowsOf(Activated(vs, family, n), g) == RowsOf(vs, g)
  {
    var rows := RowsOf(vs, g);
    assert GoodRows(rows);
    if Exists(vs, family, n) {
      var demoted := Update(vs, family, Demote(Fallback));
      RowsOfUpdate(vs, family, Demote(Fallback), g);
      RowsOfUpdate(demoted, family, Promote(n), g);
      RowsOfFamily(vs, g);
      if g == family {
        var i :| 0 <= i < |vs| && vs[i].family == family && vs[i].n == n;
        assert vs[i] in rows;
        SwitchActive(rows, family, Fallback, n);
      } else {
        UpdateElsewhere(rows, family, Demote(Fallback), g);
        UpdateElsewhere(rows, family, Promote(n), g);
      }
    }
  }

  lemma RollbackKeeps(vs: seq<Version>, family: string, g: string)
    requires Good(vs)
    ensures GoodRows(RowsOf(RolledBack(vs, family), g))
    ensures g == family && TopFallback(RowsOf(vs, family)).Some? ==>
      ActiveCount(RowsOf(RolledBack(vs, family), g)) == 1
      && ActiveN(RowsOf(RolledBack(vs, family), g)) == TopFallback(RowsOf(vs, family))
    ensures g != family || TopFallback(RowsOf(vs, family)).None? ==>
      RowsOf(RolledBack(vs, family), g) == RowsOf(vs, g)
  {
    var rows, top := RowsOf(vs, g), TopFallback(RowsOf(vs, family));
    assert GoodRows(rows);
    if top.Some? {
      var demoted := Update(vs, family, Demote(Archived));
      RowsOfUpdate(vs, family, Demote(Archived), g);
      RowsOfUpdate(demoted, family, Promote(top.value), g);
      RowsOfFamily(vs, g);
      if g == family {
        TopFallbackIsRow(rows);
        SwitchActive(rows, family, Archived, top.value);
      } else {
        UpdateElsewhere(rows, family, Demote(Archived), g);
        UpdateElsewhere(rows, family, Promote(top.value), g);
      }
    }
  }

  lemma RecordKeeps(vs: seq<Version>, family: string, n: int, ok: bool, g: string)
    requires Good(vs)
    ensures GoodRows(RowsOf(Update(vs, family, Credit(n, ok)), g))
    ensures ActiveCount(RowsOf(Update(vs, family, Credit(n, ok)), g)) == ActiveCount(RowsOf(vs, g))
    ensures g != family ==> RowsOf(Update(vs, family, Credit(n, ok)), g) == RowsOf(vs, g)
  {
    assert GoodRows(RowsOf(vs, g));
    RowsOfUpdate(vs, family, Credit(n, ok), g);
    CreditKeepsStatus(RowsOf(vs, g), family, n, ok);
    RowsOfFamily(vs, g);
    if g != family {
      UpdateElsewhere(RowsOf(vs, g), family, Credit(n, ok), g);
    }
  }

  /** Every operation keeps the invariant, never strands an activated family, and touches
      only the family it names. */
  lemma StepKeeps(vs: seq<Version>, op: Op, g: string)
    requires Good(vs)
    ensures GoodRows(RowsOf(Step(vs, op), g))
    ensures ActiveCount(RowsOf(vs, g)) == 1 ==> ActiveCount(RowsOf(Step(vs, op), g)) == 1
    ensures g != op.family ==> RowsOf(Step(vs, op), g) == RowsOf(vs, g)
  {
    assert GoodRows(RowsOf(vs, g));
    match op
    case Add(f, source) => AddKeeps(vs, f, source, g); RowsOfAdded(vs, f, source, g);
    case SetActive(f, n) => ActivateKeeps(vs, f, n, g);
    case Rollback(f) => RollbackKeeps(vs, f, g);
    case Record(f, n, ok) => RecordKeeps(vs, f, n, ok, g);
  }

  /** Over every run from a good table: numbering, counts and at most one active version hold
      throughout, and a family once active has exactly one active version forever. */
  lemma {:induction false} RunKeeps(vs: seq<Version>, ops: seq<Op>, g: string)
    requires Good(vs)
    ensures Good(Run(vs, ops))
    ensures ActiveCount(RowsOf(vs, g)) == 1 ==> ActiveCount(RowsOf(Run(vs, ops), g)) == 1
    ensures (forall i :: 0 <= i < |ops| ==> ops[i].family != g) ==> RowsOf(Run(vs, ops), g) == RowsOf(vs, g)
  {
    if ops != [] {
      var n := |ops| - 1;
      RunKeeps(vs, ops[..n], g);
      var before := Run(vs, ops[..n]);
      forall f ensures GoodRows(RowsOf(Step(before, ops[n]), f)) {
        StepKeeps(before, ops[n], f);
      }
      StepKeeps(before, ops[n], g);
    }
  }

  lemma EmptyTableGood()
    ensures Good([])
  {
  }

  // ---- consecutive rollbacks ----

  ghost function FallbackNs(rows: seq<Version>): set<int> {
    set i | 0 <= i < |rows| && rows[i].status == Fallback :: rows[i].n
  }

  /** Demoting the active row to archived and activating `top` removes only `top` from the fallbacks. */
  lemma SwitchSpends(rows: seq<Version>, family: string, top: int)
    requires Numbered(rows) && forall i :: 0 <= i < |rows| ==> rows[i].family == family
    ensures FallbackNs(Update(Update(rows, family, Demote(Archived)), family, Promote(top)))
      == FallbackNs(rows) - {top}
  {
    var after := Update(Update(rows, family, Demote(Archived)), family, Promote(top));
    forall n | n in FallbackNs(after) ensures n in FallbackNs(rows) && n != top {
      var i :| 0 <= i < |after| && after[i].status == Fallback && after[i].n == n;
      assert rows[i].status == Fallback && rows[i].n == n;
    }
    forall n | n in FallbackNs(rows) && n != top ensures n in FallbackNs(after) {
      var i :| 0 <= i < |rows| && rows[i].status == Fallback && rows[i].n == n;
      assert after[i].status == Fallback && after[i].n == n;
    }
  }

  lemma TopIsGreatest(rows: seq<Version>)
    requires TopFallback(rows).Some?
    ensures TopFallback(rows).value in FallbackNs(rows)
    ensures forall n :: n in FallbackNs(rows) ==> n <= TopFallback(rows).value
  {
    TopFallbackIsRow(rows);
  }

  lemma RollbackSpendsTop(vs: seq<Version>, family: string)
    requires Good(vs) && TopFallback(RowsOf(vs, family)).Some?
    ensures var top := TopFallback(RowsOf(vs, family)).value;
      && top in FallbackNs(RowsOf(vs, family))
      && (forall n :: n in FallbackNs(RowsOf(vs, family)) ==> n <= top)
      && FallbackNs(RowsOf(RolledBack(vs, family), family)) == FallbackNs(RowsOf(vs, family)) - {top}
  {
    var rows := RowsOf(vs, family);
    assert GoodRows(rows);
    TopIsGreatest(rows);
    var top := TopFallback(rows).value;
    RowsOfUpdate(vs, family, Demote(Archived), family);
    RowsOfUpdate(Update(vs, family, Demote(Archived)), family, Promote(top), family);
    RowsOfFamily(vs, family);
    SwitchSpends(rows, family, top);
  }

  lemma RollbackShrinks(vs: seq<Version>, family: string)
    requires Good(vs) && TopFallback(RowsOf(vs, family)).Some?
    ensures Good(RolledBack(vs, family))
    ensures |FallbackNs(RowsOf(RolledBack(vs, family), family))| ==
      |FallbackNs(RowsOf(vs, family))| - 1
  {
    RollbackSpendsTop(vs, family);
    forall f ensures GoodRows(RowsOf(RolledBack(vs, family), f)) {
      RollbackKeeps(vs, family, f);
    }
  }

  /** The numbers that rolling back again and again activates, until it fails. */
  ghost function Rollbacks(vs: seq<Version>, family: string): seq<int>
    requires Good(vs)
    decreases |FallbackNs(RowsOf(vs, family))|
  {
    match TopFallback(RowsOf(vs, family))
    case None => []
    case Some(n) =>
      RollbackShrinks(vs, family);
      [n] + Rollbacks(RolledBack(vs, family), family)
  }

  /** `r` lists exactly the numbers in `ns`, each once, strictly decreasing. */
  ghost predicate Descends(r: seq<int>, ns: set<int>) {
    && |r| == |ns|
    && (forall i, j :: 0 <= i < j < |r| ==> r[i] > r[j])
    && (forall n :: n in r <==> n in ns)
  }

  lemma DescendsFrom(top: int, rest: seq<int>, ns: set<int>)
    requires top in ns && (forall n :: n in ns ==> n <= top) && Descends(rest, ns - {top})
    ensures Descends([top] + rest, ns)
  {
    forall i | 0 <= i < |rest| ensures rest[i] < top {
      assert rest[i] in rest;
    }
  }

  /** Rolling back succeeds exactly as often as there were fallbacks, and activates them in
      strictly decreasing order. */
  lemma {:induction false} RollbacksDescend(vs: seq<Version>, family: string)
    requires Good(vs)
    ensures Descends(Rollbacks(vs, family), FallbackNs(RowsOf(vs, family)))
    decreases |FallbackNs(RowsOf(vs, family))|
  {
    var rows := RowsOf(vs, family);
    if TopFallback(rows).None? {
      TopFallbackIsRow(rows);
      assert FallbackNs(rows) == {};
    } else {
      RollbackShrinks(vs, family);
      RollbackSpendsTop(vs, family);
      RollbacksDescend(RolledBack(vs, family), family);
      DescendsFrom(TopFallback(rows).value, Rollbacks(RolledBack(vs, family), family), FallbackNs(rows));
    }
  }

  // ---- the order the runtime walks ----

  /** `ORDER BY (status = 'active') DESC, n DESC`. */
  predicate LadderLe(a: Version, b: Version) {
    (a.status == Active && b.status != Active)
    || ((a.status == Active <==> b.status == Active) && a.n >= b.n)
  }

  /** `version_ladder`. */
  function VersionLadder(vs: seq<Version>, family: string): seq<Version> {
    SortBy(RowsOf(vs, family), LadderLe)
  }

  /** The ladder is all of the family's rows, archived ones included, the active one first and
      the others newest first, each number once. */
  lemma LadderShape(vs: seq<Version>, family: string)
    requires Good(vs)
    ensures var l := VersionLadder(vs, family);
      && multiset(l) == multiset(RowsOf(vs, family))
      && (forall i :: 0 <= i < |l| && l[i].status == Active ==> i == 0)
      && (forall i, j :: 0 <= i < j < |l| ==> l[i].n != l[j].n)
      && (forall i, j :: 0 <= i < j < |l| && l[i].status != Active ==> l[i].n > l[j].n)
  {
    var rows, l := RowsOf(vs, family), VersionLadder(vs, family);
    assert GoodRows(rows);
    assert TotalPreorder(LadderLe);
    SortPermutes(rows, LadderLe);
    SortOrdered(rows, LadderLe);
    var p := MatchPositions(l, rows);
    if i :| 0 < i < |l| && l[i].status == Active {
      assert LadderLe(l[0], l[i]);
      TwoActives(rows, p[0], p[i]);
    }
  }

  lemma {:induction false} TwoActives(rows: seq<Version>, i: nat, j: nat)
    requires i < |rows| && j < |rows| && i != j
    requires rows[i].status == Active && rows[j].status == Active
    ensures ActiveCount(rows) >= 2
  {
    var m := |rows| - 1;
    if i < m && j < m {
      TwoActives(rows[..m], i, j);
    } else {
      OneActive(rows[..m], if i < m then i else j);
    }
  }

  lemma {:induction false} OneActive(rows: seq<Version>, i: nat)
    requires i < |rows| && rows[i].status == Active
    ensures ActiveCount(rows) >= 1
  {
    var m := |rows| - 1;
    if i < m {
      OneActive(rows[..m], i);
    }
  }
}
