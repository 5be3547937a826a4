// The crawler emitted for a discovery (crawloop/loop/jsonpath.py, the module template), run
// on the pages it was discovered from; and the independence of discovery from key order.
module ValuePathCrawler {
  import opened Wrappers
  import opened Sorting
  import opened PyText
  import opened Values
  import opened JsonPath
  import opened Discovery

  predicate IsIntegral(r: real) {
    r.Floor as real == r
  }

  /** A scaled number as Python returns it: an int when integral, else a float. */
  function Number(r: real, py: Python): Value {
    if IsIntegral(r) then Int(r.Floor) else Flt(r, py.repr(r))
  }

  /** `_num`. */
  function Num(v: Value, scale: int, py: Python): Value {
    match v
    case Str(s) =>
      var f := py.float(Strip(WithoutCommas(s)));
      if f.None? then Null else Number(Scaled(f.value, scale), py)
    case Int(n) => Int(n * scale)
    case Flt(r, _) => Number(Scaled(r, scale), py)
    case _ => Null
  }

  /** What one emitted read line stores for a field, `Null` standing for "omitted". */
  function FieldRead(data: Value, d: Discovery, f: string, py: Python): Value
    requires f in d.paths
  {
    var r := ReadPath(data, d.paths[f]);
    var v := if r.Got? then r.v else Null;
    if f in d.scale then Num(v, d.scale[f], py) else v
  }

  /** The record the emitted body builds. */
  function CrawlRecord(data: Value, d: Discovery, py: Python): Record {
    map f | f in d.paths && !FieldRead(data, d, f, py).Null? :: FieldRead(data, d, f, py)
  }

  ghost predicate DocumentPath(path: Path) {
    forall i :: 0 <= i < |path| ==> !IsContainer(path[i])
  }

  /** The emitted `crawl` body: one guarded store per discovered field. */
  method Crawl(data: Value, d: Discovery, py: Python) returns (item: Record)
    requires forall f :: f in d.paths ==> DocumentPath(d.paths[f])
    ensures item == CrawlRecord(data, d, py)
  {
    item := map[];
    var left := d.paths.Keys;
    while left != {}
      invariant left <= d.paths.Keys
      invariant forall f :: f in item <==> f in d.paths.Keys - left && !FieldRead(data, d, f, py).Null?
      invariant forall f :: f in item ==> item[f] == FieldRead(data, d, f, py)
      decreases |left|
    {
      var f :| f in left;
      left := left - {f};
      DocumentPathsNeverRaise(data, d.paths[f]);
      var r := Read(data, d.paths[f]);
      var value := if f in d.scale then Num(r.v, d.scale[f], py) else r.v;
      if !value.Null? {
        item := item[f := value];
      }
    }
    RecordIs(item, data, d, py);
  }

  lemma RecordIs(item: Record, data: Value, d: Discovery, py: Python)
    requires forall f :: f in item <==> f in d.paths && !FieldRead(data, d, f, py).Null?
    requires forall f :: f in item ==> item[f] == FieldRead(data, d, f, py)
    ensures item == CrawlRecord(data, d, py)
  {
  }

  lemma {:induction false} LeafPathsAreDocumentPaths(v: Value, path: Path)
    requires LeafAt(v, path).Some?
    ensures DocumentPath(path)
    decreases |path|
  {
    if path != [] {
      LeafPathsAreDocumentPaths(StepInto(v, path[0]).v, path[1..]);
      forall i | 0 <= i < |path| ensures !IsContainer(path[i]) {
        assert i > 0 ==> path[i] == path[1..][i - 1];
      }
    }
  }

  /** Every discovered path may be handed to the emitted reader. */
  lemma DiscoveredPathsReadable(
    d: Discovery, t: Training, numericFields: set<string>, skip: set<string>, f: string)
    requires IsDiscovery(d, t, numericFields, skip) && f in d.paths
    ensures t.Count() > 0 && DocumentPath(d.paths[f])
  {
    assert MatchesAt(t, f, f in numericFields, d.paths[f], if f in d.scale then d.scale[f] else 1, 0);
    LeafPathsAreDocumentPaths(t.jsons[0], d.paths[f]);
  }

  /** The candidate from end to end: discover on the training pages, then read any page with what was
      found, without ever raising; no candidate when nothing was found. */
  method DiscoverAndCrawl(t: Training, numericFields: set<string>, skip: set<string>, data: Value)
    returns (d: Discovery, item: Option<Record>)
    requires t.Valid()
    ensures IsDiscovery(d, t, numericFields, skip)
    ensures item == if d.paths == map[] then None else Some(CrawlRecord(data, d, t.py))
  {
    d := DiscoverPaths(t, numericFields, skip);
    if d.paths == map[] {
      return d, None;
    }
    forall f | f in d.paths ensures DocumentPath(d.paths[f]) {
      DiscoveredPathsReadable(d, t, numericFields, skip, f);
    }
    var record := Crawl(data, d, t.py);
    item := Some(record);
  }

  // ---- reproduction ----

  /** `_num` keeps the scaled value of anything the matcher read as a number. */
  lemma NumScales(v: Value, scale: int, py: Python)
    requires ToFloat(v, py).Some?
    ensures var n := Num(v, scale, py);
      && IsNumber(n) && !n.Bool? && NumberOf(n) == Scaled(ToFloat(v, py).value, scale)
      && (n.Int? <==> IsIntegral(NumberOf(n)))
  {
  }

  lemma ScaleMeansClose(leaf: Value, target: Value, s: int, py: Python)
    requires s in CandidateScales(leaf, target, true, py)
    ensures ToFloat(leaf, py).Some? && ToFloat(target, py).Some?
    ensures Close(Scaled(ToFloat(leaf, py).value, s), ToFloat(target, py).value)
  {
    if s == 1 {
      TimesOne(ToFloat(leaf, py).value);
    }
  }

  lemma TimesOne(x: real)
    ensures Scaled(x, 1) == x
  {
  }

  lemma NumComesBack(leaf: Value, target: Value, s: int, py: Python)
    requires s in CandidateScales(leaf, target, true, py)
    ensures var v, want := Num(leaf, s, py), ToFloat(target, py);
      && IsNumber(v) && !v.Bool? && want.Some? && Close(NumberOf(v), want.value)
      && (v.Int? <==> IsIntegral(NumberOf(v)))
  {
    ScaleMeansClose(leaf, target, s, py);
    NumScales(leaf, s, py);
  }

  /** A numeric field comes back within the match tolerance on every training sample, a whole number
      as an int. */
  lemma ReproducesNumbers(
    d: Discovery, t: Training, numericFields: set<string>, skip: set<string>, f: string, i: nat)
    requires IsDiscovery(d, t, numericFields, skip) && f in d.scale && i < t.Count()
    ensures f in d.paths
    ensures var v, want := FieldRead(t.jsons[i], d, f, t.py), ToFloat(Get(t.oracles[i], f), t.py);
      && IsNumber(v) && !v.Bool? && (v.Int? <==> IsIntegral(NumberOf(v)))
      && want.Some? && Close(NumberOf(v), want.value)
  {
    var path, s := d.paths[f], d.scale[f];
    assert MatchesAt(t, f, true, path, s, i);
    var leaf := LeafAt(t.jsons[i], path).value;
    ReadLeaf(t.jsons[i], path);
    NumComesBack(leaf, Get(t.oracles[i], f), s, t.py);
  }

  /** A text field comes back equal after stripping, exactly when the page does not hold a null there. */
  lemma ReproducesTexts(
    d: Discovery, t: Training, numericFields: set<string>, skip: set<string>, f: string, i: nat)
    requires IsDiscovery(d, t, numericFields, skip) && f in d.paths && f !in d.scale && i < t.Count()
    ensures var v, want := FieldRead(t.jsons[i], d, f, t.py), Get(t.oracles[i], f);
      && (v.Null? <==> LeafAt(t.jsons[i], d.paths[f]) == Some(Null))
      && Strip(Text(v)) == Strip(Text(want))
      && (Strip(Text(want)) != "None" ==> !v.Null?)
  {
    assert MatchesAt(t, f, false, d.paths[f], 1, i);
    ReadLeaf(t.jsons[i], d.paths[f]);
    assert Strip("None") == "None";
  }

  /** The excluded case is real: a null matches the oracle text "None", and is then omitted. */
  lemma NullMatchesNoneText(py: Python)
    ensures var t := Training([Obj([Entry("a", Null)])], [map["f" := Str("None")]], py);
      && Matches(t, "f", false, [Str("a")], 1)
      && forall d :: IsDiscovery(d, t, {}, {}) ==>
           "f" in d.paths && FieldRead(t.jsons[0], d, "f", py).Null?
  {
    var page := Obj([Entry("a", Null)]);
    var t := Training([page], [map["f" := Str("None")]], py);
    assert LeafAt(page, [Str("a")]) == Some(Null);
    assert MatchesAt(t, "f", false, [Str("a")], 1, 0);
    forall d | IsDiscovery(d, t, {}, {})
      ensures "f" in d.paths && FieldRead(t.jsons[0], d, "f", py).Null?
    {
      assert Considered(t, "f", {});
      assert Discoverable(t, "f", false) by {
        assert Matches(t, "f", false, [Str("a")], 1);
      }
      assert MatchesAt(t, "f", false, d.paths["f"], 1, 0);
      OnlyLeaf(d.paths["f"]);
    }
  }

  lemma NothingBelowNull(path: Path)
    ensures LeafAt(Null, path) == if path == [] then Some(Null) else None
  {
  }

  lemma OnlyLeaf(path: Path)
    requires LeafAt(Obj([Entry("a", Null)]), path).Some?
    ensures ReadPath(Obj([Entry("a", Null)]), path) == Got(Null)
  {
    ReadLeaf(Obj([Entry("a", Null)]), path);
    var page := Obj([Entry("a", Null)]);
    var i := LookupPosition(page.entries, path[0].s);
    assert StepInto(page, path[0]) == Down(Null);
    assert LeafAt(page, path) == LeafAt(Null, path[1..]);
    NothingBelowNull(path[1..]);
  }

  // ---- key order does not matter ----

  /** The same document up to the order of keys in its dicts. */
  ghost predicate Reordered(v: Value, w: Value)
    decreases v
  {
    match v
    case Arr(xs) =>
      w.Arr? && |xs| == |w.items| && forall i :: 0 <= i < |xs| ==> Reordered(xs[i], w.items[i])
    case Obj(es) =>
      && w.Obj?
      && (forall k :: Lookup(es, k).Some? <==> Lookup(w.entries, k).Some?)
      && (forall i :: 0 <= i < |es| && Lookup(w.entries, es[i].key).Some? ==>
            Reordered(es[i].val, Lookup(w.entries, es[i].key).value))
    case _ => v == w
  }

  lemma {:induction false} SameLeaves(v: Value, w: Value, path: Path)
    requires Reordered(v, w)
    ensures LeafAt(v, path) == LeafAt(w, path)
    decreases |path|
  {
    if path != [] && StepInto(v, path[0]).Down? {
      if v.Obj? {
        var i := LookupPosition(v.entries, path[0].s);
      }
      SameLeaves(StepInto(v, path[0]).v, StepInto(w, path[0]).v, path[1..]);
    }
  }

  ghost predicate SamePages(t: Training, jsons: seq<Value>) {
    |jsons| == |t.jsons| && forall i :: 0 <= i < |jsons| ==> Reordered(t.jsons[i], jsons[i])
  }

  lemma SameMatches(t: Training, jsons: seq<Value>, f: string, numeric: bool, path: Path, s: int)
    requires SamePages(t, jsons)
    ensures Matches(t, f, numeric, path, s) <==> Matches(t.(jsons := jsons), f, numeric, path, s)
  {
    forall i | 0 <= i < t.Count()
      ensures MatchesAt(t, f, numeric, path, s, i) <==> MatchesAt(t.(jsons := jsons), f, numeric, path, s, i)
    {
      SameLeaves(t.jsons[i], jsons[i], path);
    }
  }

  lemma MatchScale(t: Training, f: string, numeric: bool, path: Path, s: int)
    requires t.Count() > 0 && Matches(t, f, numeric, path, s)
    ensures s == 1 || (numeric && s == SCALE)
    ensures LeafAt(t.jsons[0], path).Some?
  {
    assert MatchesAt(t, f, numeric, path, s, 0);
    ScalesKnown(LeafAt(t.jsons[0], path).value, Get(t.oracles[0], f), numeric, t.py);
  }

  /** Two choices for one field over the same pages agree, whatever the key order. */
  lemma ChoiceUnique(
    t: Training, jsons: seq<Value>, f: string, numeric: bool, p: Path, s: int, q: Path, r: int)
    requires t.Count() > 0 && SamePages(t, jsons)
    requires IsChoice(t, f, numeric, p, s) && IsChoice(t.(jsons := jsons), f, numeric, q, r)
    ensures p == q && s == r
  {
    SameMatches(t, jsons, f, numeric, p, s);
    SameMatches(t, jsons, f, numeric, q, r);
    MatchScale(t, f, numeric, p, s);
    MatchScale(t, f, numeric, q, r);
    SortKeyInjective(t.jsons[0], p, q);
    SameMatches(t, jsons, f, numeric, p, 1);
  }

  /** Discovery is determined by the pages up to key order. */
  lemma OrderIndependent(
    t: Training, jsons: seq<Value>, numericFields: set<string>, skip: set<string>,
    d: Discovery, d': Discovery)
    requires SamePages(t, jsons)
    requires IsDiscovery(d, t, numericFields, skip)
    requires IsDiscovery(d', t.(jsons := jsons), numericFields, skip)
    ensures d == d'
  {
    var t' := t.(jsons := jsons);
    forall f ensures f in d.paths <==> f in d'.paths {
      forall path, s
        ensures Matches(t, f, f in numericFields, path, s) <==> Matches(t', f, f in numericFields, path, s)
      {
        SameMatches(t, jsons, f, f in numericFields, path, s);
      }
      assert Discoverable(t, f, f in numericFields) <==> Discoverable(t', f, f in numericFields);
      assert Considered(t, f, skip) <==> Considered(t', f, skip);
    }
    forall f | f in d.paths
      ensures d.paths[f] == d'.paths[f]
      ensures f in d.scale ==> d.scale[f] == d'.scale[f]
    {
      ChoiceUnique(t, jsons, f, f in numericFields, d.paths[f], if f in d.scale then d.scale[f] else 1,
                   d'.paths[f], if f in d'.scale then d'.scale[f] else 1);
    }
    assert d.paths == d'.paths && d.scale == d'.scale;
  }
}
