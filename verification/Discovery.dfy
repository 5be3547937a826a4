// Value-path synthesis (crawloop/loop/jsonpath.py): find, for each field, where its oracle
// value lives in every sample, and emit a reader for those places.
module Discovery {
  import opened Wrappers
  import opened Sorting
  import opened PyText
  import opened Values
  import opened FieldEquality
  import opened JsonPath

  /** The parts of Python the model does not define: parsing a float and printing one. */
  datatype Python = Python(float: string -> Option<real>, repr: real -> string)

  const SCALE: int := 10000
  const REL_TOL: real := 0.000000001

  /** `_to_float` and the coercion inside `_num`: numbers and numeric text, never bools. */
  function ToFloat(v: Value, py: Python): Option<real> {
    match v
    case Int(n) => Some(n as real)
    case Flt(r, _) => Some(r)
    case Str(s) => py.float(Strip(WithoutCommas(s)))
    case _ => None
  }

  predicate Close(a: real, b: real) {
    Abs(a - b) <= REL_TOL * Max(Max(Abs(a), Abs(b)), 1.0)
  }

  function Scaled(x: real, scale: int): real {
    x * scale as real
  }

  /** `_numeric_scales`. */
  function NumericScales(leaf: Value, target: real, py: Python): set<int> {
    var f := ToFloat(leaf, py);
    if f.None? then {}
    else
      (if Close(f.value, target) then {1} else {})
      + (if Close(Scaled(f.value, SCALE), target) then {SCALE} else {})
  }

  /** `_candidate_scales`. */
  function CandidateScales(leaf: Value, target: Value, numeric: bool, py: Python): set<int> {
    if numeric then
      var t := ToFloat(target, py);
      if t.Some? then NumericScales(leaf, t.value, py) else {}
    else if Strip(Text(leaf)) == Strip(Text(target)) then {1}
    else {}
  }

  // ---- order on paths ----

  predicate TextsLe(p: Path, q: Path)
    decreases |p|
  {
    if p == [] || q == [] then p == []
    else if Text(p[0]) == Text(q[0]) then TextsLe(p[1..], q[1..])
    else StrLe(Text(p[0]), Text(q[0]))
  }

  /** `_path_sort_key(p) <= _path_sort_key(q)`: shorter first, then by the texts of the steps. */
  predicate PathLe(p: Path, q: Path) {
    |p| < |q| || (|p| == |q| && TextsLe(p, q))
  }

  lemma {:induction false} TextsLeOrder(p: Path, q: Path, r: Path)
    ensures TextsLe(p, q) || TextsLe(q, p)
    ensures TextsLe(p, q) && TextsLe(q, r) ==> TextsLe(p, r)
    decreases |p|
  {
    if p != [] && q != [] {
      StrLeTotal(Text(p[0]), Text(q[0]));
      TextsLeOrder(p[1..], q[1..], if r == [] then [] else r[1..]);
      if r != [] {
        StrLeTotal(Text(q[0]), Text(r[0]));
        if StrLe(Text(p[0]), Text(q[0])) && StrLe(Text(q[0]), Text(r[0])) {
          StrLeTransitive(Text(p[0]), Text(q[0]), Text(r[0]));
        }
      }
    }
  }

  /** Two leaf paths of one document with the same sort key are the same path. */
  lemma {:induction false} SortKeyInjective(v: Value, p: Path, q: Path)
    requires LeafAt(v, p).Some? && LeafAt(v, q).Some?
    requires PathLe(p, q) && PathLe(q, p)
    ensures p == q
    decreases |p|
  {
    if p != [] {
      StrLeTotal(Text(p[0]), Text(q[0]));
      if v.Arr? {
        IntTextInjectiveOn(p[0], q[0]);
      }
      assert p[0] == q[0];
      SortKeyInjective(StepInto(v, p[0]).v, p[1..], q[1..]);
      assert p == [p[0]] + p[1..] && q == [q[0]] + q[1..];
    }
  }

  lemma IntTextInjectiveOn(a: Value, b: Value)
    requires a.Int? && b.Int? && Text(a) == Text(b)
    ensures a == b
  {
    IntTextInjective(a.n, b.n);
  }

  // ---- what discovery must find ----

  /** The training data of one field: parsed pages and that field's oracle values. */
  datatype Training = Training(jsons: seq<Value>, oracles: seq<Record>, py: Python) {
    function Count(): nat {
      if |jsons| < |oracles| then |jsons| else |oracles|
    }

    ghost predicate Valid() {
      forall i :: 0 <= i < |jsons| ==> WellFormed(jsons[i])
    }
  }

  /** The field's value sits at `path`, at scale `s`, in sample `i`. */
  predicate MatchesAt(t: Training, f: string, numeric: bool, path: Path, s: int, i: nat)
    requires i < t.Count()
  {
    var leaf := LeafAt(t.jsons[i], path);
    leaf.Some? && s in CandidateScales(leaf.value, Get(t.oracles[i], f), numeric, t.py)
  }

  /** ... in each of the first `n` samples. */
  predicate MatchesUpTo(t: Training, f: string, numeric: bool, path: Path, s: int, n: nat)
    requires n <= t.Count()
  {
    forall i :: 0 <= i < n ==> MatchesAt(t, f, numeric, path, s, i)
  }

  predicate Matches(t: Training, f: string, numeric: bool, path: Path, s: int) {
    MatchesUpTo(t, f, numeric, path, s, t.Count())
  }

  /** Non-null in every oracle (and there is one), and not skipped. */
  predicate Considered(t: Training, f: string, skip: set<string>) {
    && f !in skip && t.oracles != []
    && forall i :: 0 <= i < |t.oracles| ==> !Get(t.oracles[i], f).Null?
  }

  datatype Discovery = Discovery(paths: map<string, Path>, scale: map<string, int>)

  /** `path` and `s` are the least consistent place and the preferred scale there. */
  ghost predicate IsChoice(t: Training, f: string, numeric: bool, path: Path, s: int) {
    && Matches(t, f, numeric, path, s)
    && (forall q, s' :: Matches(t, f, numeric, q, s') ==> PathLe(path, q))
    && (s != 1 ==> !Matches(t, f, numeric, path, 1))
  }

  ghost predicate Discoverable(t: Training, f: string, numeric: bool) {
    exists path, s :: Matches(t, f, numeric, path, s)
  }

  /** Sound, complete and least: the meaning of a discovery result. */
  ghost predicate IsDiscovery(d: Discovery, t: Training, numericFields: set<string>, skip: set<string>) {
    && (forall f :: f in d.paths <==>
          t.jsons != [] && Considered(t, f, skip) && Discoverable(t, f, f in numericFields))
    && (forall f :: f in d.scale <==> f in d.paths && f in numericFields)
    && (forall f :: f in d.paths ==>
          IsChoice(t, f, f in numericFields, d.paths[f], if f in d.scale then d.scale[f] else 1))
  }

  // ---- the dict of consistent paths ----

  type Candidates = map<Path, set<int>>

  function ScalesOf(cs: Candidates, path: Path): set<int> {
    if path in cs then cs[path] else {}
  }

  /** `_path_scales_for_value`. */
  function PathScales(leaves: seq<Leaf>, target: Value, numeric: bool, py: Python): Candidates {
    if leaves == [] then map[]
    else
      var n := |leaves| - 1;
      var before := PathScales(leaves[..n], target, numeric, py);
      var scales := CandidateScales(leaves[n].val, target, numeric, py);
      if scales == {} then before else before[leaves[n].path := scales]
  }

  /** The dict comprehension: keep the paths both samples share at a common scale. */
  function Intersect(cs: Candidates, here: Candidates): Candidates {
    map path | path in cs && path in here && cs[path] * here[path] != {} :: cs[path] * here[path]
  }

  /** No path is kept without a scale. */
  ghost predicate Proper(cs: Candidates) {
    forall path :: path in cs ==> cs[path] != {}
  }

  lemma {:induction false} PathScalesListed(
    leaves: seq<Leaf>, target: Value, numeric: bool, py: Python, path: Path)
    ensures Proper(PathScales(leaves, target, numeric, py))
    ensures path in PathScales(leaves, target, numeric, py) ==>
      exists k :: 0 <= k < |leaves| && leaves[k].path == path
  {
    if leaves != [] {
      var n := |leaves| - 1;
      PathScalesListed(leaves[..n], target, numeric, py, path);
      if path in PathScales(leaves[..n], target, numeric, py) {
        var k :| 0 <= k < n && leaves[..n][k].path == path;
        assert leaves[k].path == path;
      }
    }
  }

  lemma {:induction false} PathScalesAt(
    leaves: seq<Leaf>, target: Value, numeric: bool, py: Python, k: nat)
    requires DistinctPaths(leaves) && k < |leaves|
    ensures ScalesOf(PathScales(leaves, target, numeric, py), leaves[k].path) ==
      CandidateScales(leaves[k].val, target, numeric, py)
  {
    var n := |leaves| - 1;
    if k < n {
      PathScalesAt(leaves[..n], target, numeric, py, k);
    } else {
      PathScalesListed(leaves[..n], target, numeric, py, leaves[n].path);
    }
  }

  /** The per-sample dict holds exactly the matches of that sample. */
  lemma PathScalesExact(v: Value, target: Value, numeric: bool, py: Python, path: Path)
    requires WellFormed(v)
    ensures var cs := PathScales(IterLeaves(v, []), target, numeric, py);
      && Proper(cs)
      && ScalesOf(cs, path) ==
           if LeafAt(v, path).None? then {}
           else CandidateScales(LeafAt(v, path).value, target, numeric, py)
  {
    var leaves := IterLeaves(v, []);
    LeavesDistinct(v, []);
    PathScalesListed(leaves, target, numeric, py, path);
    if LeafAt(v, path).Some? {
      LeavesExact(v, path, LeafAt(v, path).value);
      var k :| 0 <= k < |leaves| && leaves[k] == Leaf(path, LeafAt(v, path).value);
      PathScalesAt(leaves, target, numeric, py, k);
    } else if path in PathScales(leaves, target, numeric, py) {
      var k :| 0 <= k < |leaves| && leaves[k].path == path;
      assert leaves[k].path[0..] == path;
      LeavesSound(v, [], leaves[k]);
    }
  }

  // ---- discovery ----

  /** `consistent` holds exactly the (path, scale) pairs that match the first `n` samples. */
  ghost predicate Tracks(cs: Candidates, t: Training, f: string, numeric: bool, n: nat)
    requires n <= t.Count()
  {
    && Proper(cs)
    && forall path, s :: s in ScalesOf(cs, path) <==> MatchesUpTo(t, f, numeric, path, s, n)
  }

  lemma TracksFirst(t: Training, f: string, numeric: bool)
    requires t.Valid() && t.Count() > 0
    ensures Tracks(PathScales(IterLeaves(t.jsons[0], []), Get(t.oracles[0], f), numeric, t.py),
                   t, f, numeric, 1)
  {
    var target := Get(t.oracles[0], f);
    var cs := PathScales(IterLeaves(t.jsons[0], []), target, numeric, t.py);
    PathScalesExact(t.jsons[0], target, numeric, t.py, []);
    forall path, s ensures s in ScalesOf(cs, path) <==> MatchesUpTo(t, f, numeric, path, s, 1) {
      PathScalesExact(t.jsons[0], target, numeric, t.py, path);
      assert s in ScalesOf(cs, path) <==> MatchesAt(t, f, numeric, path, s, 0);
    }
  }

  lemma ScalesOfIntersect(cs: Candidates, here: Candidates, path: Path)
    ensures ScalesOf(Intersect(cs, here), path) == ScalesOf(cs, path) * ScalesOf(here, path)
  {
  }

  lemma MatchesOneMore(t: Training, f: string, numeric: bool, path: Path, s: int, n: nat)
    requires n < t.Count()
    ensures MatchesUpTo(t, f, numeric, path, s, n + 1) <==>
      MatchesUpTo(t, f, numeric, path, s, n) && MatchesAt(t, f, numeric, path, s, n)
  {
  }

  lemma TracksNext(cs: Candidates, t: Training, f: string, numeric: bool, n: nat)
    requires t.Valid() && n < t.Count() && Tracks(cs, t, f, numeric, n)
    ensures Tracks(
      Intersect(cs, PathScales(IterLeaves(t.jsons[n], []), Get(t.oracles[n], f), numeric, t.py)),
      t, f, numeric, n + 1)
  {
    var target := Get(t.oracles[n], f);
    var here := PathScales(IterLeaves(t.jsons[n], []), target, numeric, t.py);
    forall path, s ensures s in ScalesOf(Intersect(cs, here), path) <==> MatchesUpTo(t, f, numeric, path, s, n + 1) {
      PathScalesExact(t.jsons[n], target, numeric, t.py, path);
      ScalesOfIntersect(cs, here, path);
      MatchesOneMore(t, f, numeric, path, s, n);
    }
  }

  /** The consistent (path, scale) pairs of one field: seed with sample 0, intersect the rest. */
  method ConsistentPaths(t: Training, leaves: seq<seq<Leaf>>, f: string, numeric: bool)
    returns (consistent: Candidates)
    requires t.Valid() && t.Count() > 0
    requires |leaves| == |t.jsons| && forall i :: 0 <= i < |leaves| ==> leaves[i] == IterLeaves(t.jsons[i], [])
    ensures Tracks(consistent, t, f, numeric, t.Count())
  {
    consistent := PathScales(leaves[0], Get(t.oracles[0], f), numeric, t.py);
    TracksFirst(t, f, numeric);
    var i := 1;
    while i < t.Count() && consistent != map[]
      invariant 1 <= i <= t.Count()
      invariant Tracks(consistent, t, f, numeric, i)
    {
      var here := PathScales(leaves[i], Get(t.oracles[i], f), numeric, t.py);
      TracksNext(consistent, t, f, numeric, i);
      consistent := Intersect(consistent, here);
      i := i + 1;
    }
    if i < t.Count() {
      EmptyTracksOn(t, f, numeric, i);
    }
  }

  /** Once nothing is consistent, later samples cannot change that. */
  lemma EmptyTracksOn(t: Training, f: string, numeric: bool, i: nat)
    requires i < t.Count() && Tracks(map[], t, f, numeric, i)
    ensures Tracks(map[], t, f, numeric, t.Count())
  {
    forall path, s ensures !MatchesUpTo(t, f, numeric, path, s, t.Count()) {
      assert s !in ScalesOf(map[], path);
    }
  }

  /** `min(consistent, key=_path_sort_key)`. */
  method LeastPath(cs: Candidates) returns (best: Path)
    requires cs != map[]
    ensures best in cs && forall q :: q in cs ==> PathLe(best, q)
  {
    best :| best in cs;
    var left := cs.Keys - {best};
    TextsLeOrder(best, best, best);
    while left != {}
      invariant best in cs && left <= cs.Keys
      invariant forall q :: q in cs.Keys - left ==> PathLe(best, q)
      decreases |left|
    {
      var p :| p in left;
      if !PathLe(best, p) {
        TextsLeOrder(p, p, p);
        forall q | q in cs.Keys - left ensures PathLe(p, q) {
          assert PathLe(best, q);
          TextsLeOrder(p, best, q);
        }
        best := p;
      }
      left := left - {p};
    }
  }

  /** The preferred scale: 1 when it matches, otherwise the least. */
  function PreferredScale(scales: set<int>): int
    requires scales != {} && scales <= {1, SCALE}
  {
    if 1 in scales then 1 else SCALE
  }

  lemma ScalesKnown(leaf: Value, target: Value, numeric: bool, py: Python)
    ensures CandidateScales(leaf, target, numeric, py) <= if numeric then {1, SCALE} else {1}
  {
  }

  /** The best consistent pair is the choice discovery promises. */
  lemma BestIsChoice(cs: Candidates, t: Training, f: string, numeric: bool, best: Path)
    requires t.Count() > 0 && Tracks(cs, t, f, numeric, t.Count())
    requires best in cs && forall q :: q in cs ==> PathLe(best, q)
    ensures cs[best] != {} && cs[best] <= if numeric then {1, SCALE} else {1}
    ensures IsChoice(t, f, numeric, best, PreferredScale(cs[best]))
  {
    forall s | s in cs[best] ensures s in (if numeric then {1, SCALE} else {1}) {
      assert s in ScalesOf(cs, best);
      assert MatchesAt(t, f, numeric, best, s, 0);
      ScalesKnown(LeafAt(t.jsons[0], best).value, Get(t.oracles[0], f), numeric, t.py);
    }
    var chosen := PreferredScale(cs[best]);
    assert chosen in ScalesOf(cs, best);
    forall q, s | Matches(t, f, numeric, q, s) ensures PathLe(best, q) {
      assert s in ScalesOf(cs, q);
    }
    if chosen != 1 {
      assert 1 !in ScalesOf(cs, best);
    }
  }

  /** Names that are non-null in some oracle and not skipped. */
  function CandidateFields(oracles: seq<Record>, skip: set<string>): set<string> {
    (set i, name | 0 <= i < |oracles| && name in oracles[i] && !oracles[i][name].Null? :: name) - skip
  }

  predicate NonNullEverywhere(oracles: seq<Record>, f: string) {
    forall i :: 0 <= i < |oracles| ==> !Get(oracles[i], f).Null?
  }

  lemma ConsideredFields(t: Training, skip: set<string>, f: string)
    ensures Considered(t, f, skip) <==>
      f in CandidateFields(t.oracles, skip) && NonNullEverywhere(t.oracles, f)
  {
    if Considered(t, f, skip) {
      assert 0 <= 0 < |t.oracles| && f in t.oracles[0] && !t.oracles[0][f].Null?;
    }
  }

  /** The result so far is right for the fields in `done` and silent on the others. */
  ghost predicate DiscoveredSoFar(
    d: Discovery, t: Training, numericFields: set<string>, skip: set<string>, done: set<string>)
  {
    && (forall f :: f in d.paths <==>
          f in done && NonNullEverywhere(t.oracles, f) && Discoverable(t, f, f in numericFields))
    && (forall f :: f in d.scale <==> f in d.paths && f in numericFields)
    && (forall f :: f in d.paths ==>
          IsChoice(t, f, f in numericFields, d.paths[f], if f in d.scale then d.scale[f] else 1))
  }

  /** `discover_paths`: returns exactly the fields with a place consistent across every
      sample, each with its least such place. */
  method DiscoverPaths(t: Training, numericFields: set<string>, skip: set<string>) returns (d: Discovery)
    requires t.Valid()
    ensures IsDiscovery(d, t, numericFields, skip)
  {
    d := Discovery(map[], map[]);
    if t.jsons == [] {
      return;
    }
    var leaves := seq(|t.jsons|, i requires 0 <= i < |t.jsons| => IterLeaves(t.jsons[i], []));
    var fields := CandidateFields(t.oracles, skip);
    var left := fields;
    while left != {}
      invariant left <= fields
      invariant DiscoveredSoFar(d, t, numericFields, skip, fields - left)
      decreases |left|
    {
      var f :| f in left;
      left := left - {f};
      if NonNullEverywhere(t.oracles, f) {
        d := DiscoverField(d, t, leaves, f, numericFields, skip, fields - left);
      }
    }
    AllConsidered(d, t, numericFields, skip);
  }

  /** With every candidate field done, the result is the discovery. */
  lemma AllConsidered(d: Discovery, t: Training, numericFields: set<string>, skip: set<string>)
    requires t.jsons != [] && DiscoveredSoFar(d, t, numericFields, skip, CandidateFields(t.oracles, skip))
    ensures IsDiscovery(d, t, numericFields, skip)
  {
    forall f
      ensures Considered(t, f, skip) <==> f in CandidateFields(t.oracles, skip) && NonNullEverywhere(t.oracles, f)
    {
      ConsideredFields(t, skip, f);
    }
  }

  /** One turn of the field loop. */
  method DiscoverField(
    d: Discovery, t: Training, leaves: seq<seq<Leaf>>, f: string, numericFields: set<string>,
    ghost skip: set<string>, ghost done: set<string>) returns (r: Discovery)
    requires t.Valid() && t.Count() > 0 && NonNullEverywhere(t.oracles, f)
    requires |leaves| == |t.jsons| && forall i :: 0 <= i < |leaves| ==> leaves[i] == IterLeaves(t.jsons[i], [])
    requires f in done && DiscoveredSoFar(d, t, numericFields, skip, done - {f})
    ensures DiscoveredSoFar(r, t, numericFields, skip, done)
  {
    var numeric := f in numericFields;
    var consistent := ConsistentPaths(t, leaves, f, numeric);
    if consistent == map[] {
      NothingDiscoverable(t, f, numeric);
      return d;
    }
    var best := LeastPath(consistent);
    BestIsChoice(consistent, t, f, numeric, best);
    var scale := PreferredScale(consistent[best]);
    assert Discoverable(t, f, numeric) by {
      assert Matches(t, f, numeric, best, scale);
    }
    r := Discovery(d.paths[f := best], if numeric then d.scale[f := scale] else d.scale);
  }

  lemma NothingDiscoverable(t: Training, f: string, numeric: bool)
    requires Tracks(map[], t, f, numeric, t.Count())
    ensures !Discoverable(t, f, numeric)
  {
    forall path, s ensures !Matches(t, f, numeric, path, s) {
      assert s !in ScalesOf(map[], path);
    }
  }

  // ---- which path is chosen ----

  /** `p` is shorter than `q`, or as long and, at the first step where their texts differ, `p`'s text
      comes before `q`'s. */
  ghost predicate Precedes(p: Path, q: Path) {
    |p| < |q| || (|p| == |q| && exists k: nat :: DiffersAt(p, q, k))
  }

  ghost predicate DiffersAt(p: Path, q: Path, k: nat) {
    && k < |p| && k < |q| && Before(Text(p[k]), Text(q[k]))
    && forall j :: 0 <= j < k ==> Text(p[j]) == Text(q[j])
  }

  lemma {:induction false} TextsDiffer(p: Path, q: Path) returns (k: nat)
    requires |p| == |q| && TextsLe(p, q) && !TextsLe(q, p)
    ensures DiffersAt(p, q, k)
    decreases |p|
  {
    k := 0;
    if Text(p[0]) == Text(q[0]) {
      var rest := TextsDiffer(p[1..], q[1..]);
      k := rest + 1;
      forall j | 0 <= j < k ensures Text(p[j]) == Text(q[j]) {
        assert j > 0 ==> p[1..][j - 1] == p[j] && q[1..][j - 1] == q[j];
      }
    } else {
      StrLeExact(Text(p[0]), Text(q[0]));
    }
  }

  /** The path discovered for a field precedes every other one at which the field matches everywhere. */
  lemma DiscoveredFirst(
    d: Discovery, t: Training, numericFields: set<string>, skip: set<string>, f: string, q: Path, s: int)
    requires t.Count() > 0 && IsDiscovery(d, t, numericFields, skip) && f in d.paths
    requires Matches(t, f, f in numericFields, q, s)
    ensures q == d.paths[f] || Precedes(d.paths[f], q)
  {
    var p, scale := d.paths[f], if f in d.scale then d.scale[f] else 1;
    assert MatchesAt(t, f, f in numericFields, q, s, 0) && MatchesAt(t, f, f in numericFields, p, scale, 0);
    assert PathLe(p, q);
    if PathLe(q, p) {
      SortKeyInjective(t.jsons[0], p, q);
    } else if |p| == |q| {
      var k := TextsDiffer(p, q);
    }
  }

  /** One price at the top of the page, the same one further down, and the oracle's. */
  function TwoPrices(want: int, py: Python): Training {
    Training([Obj([Entry("price", Int(5)), Entry("meta", Obj([Entry("price", Int(5))]))])],
             [map["price" := Int(want)]], py)
  }

  /** The oracle's price is the page's, or ten thousand times that. */
  lemma PriceScales(want: int, py: Python)
    requires want == 5 || want == 50000
    ensures CandidateScales(Int(5), Int(want), true, py) == if want == 5 then {1} else {10000}
  {
    assert Scaled(5.0, SCALE) == 50000.0;
  }

  lemma ShallowPriceMatches(want: int, py: Python)
    requires want == 5 || want == 50000
    ensures Matches(TwoPrices(want, py), "price", true, [Str("price")], if want == 5 then 1 else 10000)
  {
    var t := TwoPrices(want, py);
    PriceScales(want, py);
    assert LeafAt(t.jsons[0], [Str("price")]) == Some(Int(5));
    assert MatchesAt(t, "price", true, [Str("price")], if want == 5 then 1 else 10000, 0);
  }

  /** Discovery records the one at the top, with the factor that leads to the oracle's. */
  lemma ShallowPriceWins(d: Discovery, want: int, py: Python)
    requires want == 5 || want == 50000
    requires IsDiscovery(d, TwoPrices(want, py), {"price"}, {})
    ensures "price" in d.paths && d.paths["price"] == [Str("price")]
    ensures "price" in d.scale && d.scale["price"] == if want == 5 then 1 else 10000
  {
    var t := TwoPrices(want, py);
    ShallowPriceMatches(want, py);
    PriceScales(want, py);
    assert Considered(t, "price", {});
    assert Discoverable(t, "price", true);
    DiscoveredFirst(d, t, {"price"}, {}, "price", [Str("price")], if want == 5 then 1 else 10000);
    var p := d.paths["price"];
    assert MatchesAt(t, "price", true, p, d.scale["price"], 0);
    if p != [Str("price")] {
      assert |p| == 1 && p == [p[0]];
      OneStep(t.jsons[0], p[0]);
    }
    assert LeafAt(t.jsons[0], [Str("price")]) == Some(Int(5));
  }

  /** Only the key "price" leads to a leaf in one step. */
  lemma OneStep(page: Value, step: Value)
    requires page == Obj([Entry("price", Int(5)), Entry("meta", Obj([Entry("price", Int(5))]))])
    ensures LeafAt(page, [step]).Some? ==> step == Str("price")
  {
    var meta := Obj([Entry("price", Int(5))]);
    assert page.entries[1..] == [Entry("meta", meta)] && page.entries[1..][1..] == [];
    assert [step][1..] == [];
    if step == Str("meta") {
      assert StepInto(page, step) == Down(meta) && LeafAt(meta, []) == None;
    } else if step.Str? && Lookup(page.entries, step.s).Some? {
      var i := LookupPosition(page.entries, step.s);
    }
  }
}
