// Paths into a JSON document (crawloop/loop/jsonpath.py): the leaf enumeration and the
// path reader, and the sense in which they invert each other. A path step is the value
// Python indexes with: a string key or an integer position, when it came from a document.
module JsonPath {
  import opened Wrappers
  import opened Values

  type Path = seq<Value>

  datatype Leaf = Leaf(path: Path, val: Value)

  /** `iter_leaves`: every scalar, with the path that reaches it. */
  function IterLeaves(v: Value, prefix: Path): seq<Leaf>
    decreases v, 1
  {
    match v
    case Obj(es) => EntryLeaves(es, prefix)
    case Arr(xs) => ItemLeaves(xs, 0, prefix)
    case _ => [Leaf(prefix, v)]
  }

  function EntryLeaves(es: seq<Entry>, prefix: Path): seq<Leaf>
    decreases es, 0
  {
    if es == [] then []
    else IterLeaves(es[0].val, prefix + [Str(es[0].key)]) + EntryLeaves(es[1..], prefix)
  }

  function ItemLeaves(xs: seq<Value>, i: nat, prefix: Path): seq<Leaf>
    decreases xs, 0
  {
    if xs == [] then []
    else IterLeaves(xs[0], prefix + [Int(i)]) + ItemLeaves(xs[1..], i + 1, prefix)
  }

  datatype Step = Down(v: Value) | Miss | Unhashable

  /** One step of `read_path`. A list or dict used as a dict key is a TypeError. */
  function StepInto(cur: Value, step: Value): Step {
    match cur
    case Obj(es) =>
      if IsContainer(step) then Unhashable
      else if step.Str? && Lookup(es, step.s).Some? then Down(Lookup(es, step.s).value)
      else Miss
    case Arr(xs) =>
      if step.Int? && 0 <= step.n < |xs| then Down(xs[step.n]) else Miss
    case _ => Miss
  }

  /** What reading yields: a value (`Null` on a miss) or the TypeError above. */
  datatype Reading = Got(v: Value) | Raised

  function ReadPath(v: Value, path: Path): Reading
    decreases |path|
  {
    if path == [] then Got(v)
    else match StepInto(v, path[0])
      case Down(w) => ReadPath(w, path[1..])
      case Miss => Got(Null)
      case Unhashable => Raised
  }

  /** `read_path`, and the `_read` both emitted crawlers inline. */
  method Read(obj: Value, path: Path) returns (r: Reading)
    ensures r == ReadPath(obj, path)
  {
    var cur := obj;
    for i := 0 to |path|
      invariant ReadPath(obj, path) == ReadPath(cur, path[i..])
    {
      assert path[i..][1..] == path[i + 1..];
      match cur {
        case Obj(es) =>
          if IsContainer(path[i]) {
            return Raised;
          }
          if !path[i].Str? || Lookup(es, path[i].s).None? {
            return Got(Null);
          }
          cur := Lookup(es, path[i].s).value;
        case Arr(xs) =>
          if !path[i].Int? {
            return Got(Null);
          }
          if path[i].n < 0 || path[i].n >= |xs| {
            return Got(Null);
          }
          cur := xs[path[i].n];
        case _ =>
          return Got(Null);
      }
    }
    assert path[|path|..] == [];
    r := Got(cur);
  }

  /** The scalar at exactly this path, if there is one. */
  function LeafAt(v: Value, path: Path): Option<Value>
    decreases |path|
  {
    if path == [] then if IsContainer(v) then None else Some(v)
    else match StepInto(v, path[0])
      case Down(w) => LeafAt(w, path[1..])
      case _ => None
  }

  // ---- the enumeration is exactly LeafAt ----

  ghost predicate LiesUnder(l: Leaf, prefix: Path, v: Value) {
    && |prefix| <= |l.path| && l.path[..|prefix|] == prefix
    && LeafAt(v, l.path[|prefix|..]) == Some(l.val)
  }

  /** A leaf found one level down is a leaf of the container. */
  lemma LiftLeaf(l: Leaf, prefix: Path, step: Value, v: Value, w: Value)
    requires StepInto(v, step) == Down(w) && LiesUnder(l, prefix + [step], w)
    ensures LiesUnder(l, prefix, v) && |l.path| > |prefix| && l.path[|prefix|] == step
  {
    var n := |prefix|;
    assert l.path[..n] == l.path[..n + 1][..n] == prefix;
    assert l.path[n..][0] == l.path[..n + 1][n] == step;
    assert l.path[n..][1..] == l.path[n + 1..];
  }

  lemma {:induction false} LeavesSound(v: Value, prefix: Path, l: Leaf)
    requires WellFormed(v) && l in IterLeaves(v, prefix)
    ensures LiesUnder(l, prefix, v)
    decreases v, 1
  {
    match v
    case Obj(es) =>
      var k := EntryLeafSound(v, 0, prefix, l);
    case Arr(xs) =>
      var k := ItemLeafSound(v, 0, prefix, l);
    case _ =>
  }

  lemma {:induction false} EntryLeafSound(v: Value, i: nat, prefix: Path, l: Leaf) returns (k: nat)
    requires v.Obj? && WellFormed(v) && i <= |v.entries| && l in EntryLeaves(v.entries[i..], prefix)
    ensures i <= k < |v.entries| && LiesUnder(l, prefix, v)
    ensures |l.path| > |prefix| && l.path[|prefix|] == Str(v.entries[k].key)
    decreases v, 0, |v.entries| - i
  {
    var es := v.entries;
    var step := Str(es[i].key);
    if l in IterLeaves(es[i].val, prefix + [step]) {
      k := i;
      LeavesSound(es[i].val, prefix + [step], l);
      LookupAt(es, i);
      LiftLeaf(l, prefix, step, v, es[i].val);
    } else {
      assert es[i..][1..] == es[i + 1..];
      k := EntryLeafSound(v, i + 1, prefix, l);
    }
  }

  lemma {:induction false} ItemLeafSound(v: Value, i: nat, prefix: Path, l: Leaf) returns (k: nat)
    requires v.Arr? && WellFormed(v) && i <= |v.items| && l in ItemLeaves(v.items[i..], i, prefix)
    ensures i <= k < |v.items| && LiesUnder(l, prefix, v)
    ensures |l.path| > |prefix| && l.path[|prefix|] == Int(k)
    decreases v, 0, |v.items| - i
  {
    var xs := v.items;
    if l in IterLeaves(xs[i], prefix + [Int(i)]) {
      k := i;
      LeavesSound(xs[i], prefix + [Int(i)], l);
      LiftLeaf(l, prefix, Int(i), v, xs[i]);
    } else {
      assert xs[i..][1..] == xs[i + 1..];
      k := ItemLeafSound(v, i + 1, prefix, l);
    }
  }

  lemma {:induction false} LeavesComplete(v: Value, prefix: Path, path: Path)
    requires LeafAt(v, path).Some?
    ensures Leaf(prefix + path, LeafAt(v, path).value) in IterLeaves(v, prefix)
    decreases |path|
  {
    if path == [] {
      assert prefix + path == prefix;
    } else {
      var w := StepInto(v, path[0]).v;
      var down := prefix + [path[0]];
      LeavesComplete(w, down, path[1..]);
      assert down + path[1..] == prefix + path;
      if v.Obj? {
        var k := LookupPosition(v.entries, path[0].s);
        EntryLeavesInclude(v.entries, k, prefix, Leaf(prefix + path, LeafAt(v, path).value));
      } else {
        ItemLeavesInclude(v.items, 0, path[0].n, prefix, Leaf(prefix + path, LeafAt(v, path).value));
      }
    }
  }

  lemma {:induction false} EntryLeavesInclude(es: seq<Entry>, k: nat, prefix: Path, l: Leaf)
    requires k < |es| && l in IterLeaves(es[k].val, prefix + [Str(es[k].key)])
    ensures l in EntryLeaves(es, prefix)
  {
    if k > 0 {
      EntryLeavesInclude(es[1..], k - 1, prefix, l);
    }
  }

  lemma {:induction false} ItemLeavesInclude(xs: seq<Value>, i: nat, k: nat, prefix: Path, l: Leaf)
    requires k < |xs| && l in IterLeaves(xs[k], prefix + [Int(i + k)])
    ensures l in ItemLeaves(xs, i, prefix)
  {
    if k > 0 {
      ItemLeavesInclude(xs[1..], i + 1, k - 1, prefix, l);
    }
  }

  /** The enumeration lists a scalar under a path exactly when it is the leaf there. */
  lemma LeavesExact(v: Value, path: Path, x: Value)
    requires WellFormed(v)
    ensures Leaf(path, x) in IterLeaves(v, []) <==> LeafAt(v, path) == Some(x)
  {
    if Leaf(path, x) in IterLeaves(v, []) {
      LeavesSound(v, [], Leaf(path, x));
      assert path[0..] == path;
    }
    if LeafAt(v, path) == Some(x) {
      LeavesComplete(v, [], path);
      assert [] + path == path;
    }
  }

  /** Reading a path yields a non-null scalar exactly when the enumeration lists it there. */
  lemma ReadInvertsLeaves(v: Value, path: Path, x: Value)
    requires WellFormed(v) && !x.Null? && !IsContainer(x)
    ensures ReadPath(v, path) == Got(x) <==> Leaf(path, x) in IterLeaves(v, [])
  {
    LeavesExact(v, path, x);
    ReadLeaf(v, path);
  }

  lemma {:induction false} ReadLeaf(v: Value, path: Path)
    ensures LeafAt(v, path).Some? ==> ReadPath(v, path) == Got(LeafAt(v, path).value)
    ensures LeafAt(v, path).None? ==>
      ReadPath(v, path).Raised? || ReadPath(v, path).v.Null? || IsContainer(ReadPath(v, path).v)
    decreases |path|
  {
    if path != [] && StepInto(v, path[0]).Down? {
      ReadLeaf(StepInto(v, path[0]).v, path[1..]);
    }
  }

  // ---- no path is listed twice ----

  ghost predicate DistinctPaths(ls: seq<Leaf>) {
    forall i, j :: 0 <= i < j < |ls| ==> ls[i].path != ls[j].path
  }

  lemma JoinDistinct(a: seq<Leaf>, b: seq<Leaf>)
    requires DistinctPaths(a) && DistinctPaths(b)
    requires forall x, y :: x in a && y in b ==> x.path != y.path
    ensures DistinctPaths(a + b)
  {
    forall i, j | 0 <= i < j < |a + b| ensures (a + b)[i].path != (a + b)[j].path {
      if i < |a| <= j {
        assert a[i] in a && b[j - |a|] in b;
      }
    }
  }

  lemma {:induction false} LeavesDistinct(v: Value, prefix: Path)
    requires WellFormed(v)
    ensures DistinctPaths(IterLeaves(v, prefix))
    decreases v, 1
  {
    match v
    case Obj(es) => EntryLeavesDistinct(v, 0, prefix);
    case Arr(xs) => ItemLeavesDistinct(v, 0, prefix);
    case _ =>
  }

  lemma {:induction false} EntryLeavesDistinct(v: Value, i: nat, prefix: Path)
    requires v.Obj? && WellFormed(v) && i <= |v.entries|
    ensures DistinctPaths(EntryLeaves(v.entries[i..], prefix))
    decreases v, 0, |v.entries| - i
  {
    var es := v.entries;
    if i < |es| {
      var step := Str(es[i].key);
      var here, rest := IterLeaves(es[i].val, prefix + [step]), EntryLeaves(es[i + 1..], prefix);
      LeavesDistinct(es[i].val, prefix + [step]);
      EntryLeavesDistinct(v, i + 1, prefix);
      assert es[i..][1..] == es[i + 1..];
      forall x, y | x in here && y in rest ensures x.path != y.path {
        LeavesSound(es[i].val, prefix + [step], x);
        LookupAt(es, i);
        LiftLeaf(x, prefix, step, v, es[i].val);
        var k := EntryLeafSound(v, i + 1, prefix, y);
      }
      JoinDistinct(here, rest);
    }
  }

  lemma {:induction false} ItemLeavesDistinct(v: Value, i: nat, prefix: Path)
    requires v.Arr? && WellFormed(v) && i <= |v.items|
    ensures DistinctPaths(ItemLeaves(v.items[i..], i, prefix))
    decreases v, 0, |v.items| - i
  {
    var xs := v.items;
    if i < |xs| {
      var here, rest := IterLeaves(xs[i], prefix + [Int(i)]), ItemLeaves(xs[i + 1..], i + 1, prefix);
      LeavesDistinct(xs[i], prefix + [Int(i)]);
      ItemLeavesDistinct(v, i + 1, prefix);
      assert xs[i..][1..] == xs[i + 1..];
      forall x, y | x in here && y in rest ensures x.path != y.path {
        LeavesSound(xs[i], prefix + [Int(i)], x);
        LiftLeaf(x, prefix, Int(i), v, xs[i]);
        var k := ItemLeafSound(v, i + 1, prefix, y);
      }
      JoinDistinct(here, rest);
    }
  }

  /** The reader's documentation promises it never raises; a container used as a step does. */
  lemma ReaderCanRaise()
    ensures ReadPath(Obj([]), [Arr([])]) == Raised
  {
  }

  /** Step `i` indexes a dict with a container. */
  predicate RaisesAt(v: Value, path: Path, i: nat)
    requires i < |path|
  {
    IsContainer(path[i]) && ReadPath(v, path[..i]).Got? && ReadPath(v, path[..i]).v.Obj?
  }

  /** On one document, reading raises exactly when some prefix reads a dict that the next step,
      a container, is then looked up in. */
  lemma {:induction false} ReaderRaisesExactly(v: Value, path: Path)
    ensures ReadPath(v, path).Raised? <==> exists i :: 0 <= i < |path| && RaisesAt(v, path, i)
    decreases |path|
  {
    if path != [] {
      assert path[..0] == [];
      var here := StepInto(v, path[0]);
      forall i | 0 < i < |path|
        ensures here.Down? ==> (RaisesAt(v, path, i) <==> RaisesAt(here.v, path[1..], i - 1))
        ensures !here.Down? ==> !RaisesAt(v, path, i)
      {
        assert path[..i][0] == path[0] && path[..i][1..] == path[1..][..i - 1];
      }
      if here.Down? {
        ReaderRaisesExactly(here.v, path[1..]);
        if ReadPath(here.v, path[1..]).Raised? {
          var k :| 0 <= k < |path| - 1 && RaisesAt(here.v, path[1..], k);
          assert RaisesAt(v, path, k + 1);
        }
      } else if here.Unhashable? {
        assert RaisesAt(v, path, 0);
      }
    }
  }

  /** A step that some document has: a key, or a position. */
  predicate DocumentStep(step: Value) {
    step.Str? || (step.Int? && step.n >= 0)
  }

  /** A container after steps a document can follow. */
  predicate Unsafe(path: Path) {
    exists i :: 0 <= i < |path| && IsContainer(path[i]) && DocumentSteps(path[..i])
  }

  predicate DocumentSteps(path: Path) {
    forall j :: 0 <= j < |path| ==> DocumentStep(path[j])
  }

  /** A document in which the steps lead to an empty dict. */
  function LeadTo(path: Path): Value
    requires DocumentSteps(path)
    decreases |path|
  {
    if path == [] then Obj([])
    else if path[0].Str? then Obj([Entry(path[0].s, LeadTo(path[1..]))])
    else Arr(seq(path[0].n, _ => Null) + [LeadTo(path[1..])])
  }

  lemma {:induction false} LeadToIsRead(path: Path)
    requires DocumentSteps(path)
    ensures WellFormed(LeadTo(path)) && ReadPath(LeadTo(path), path) == Got(Obj([]))
    decreases |path|
  {
    if path != [] {
      LeadToIsRead(path[1..]);
    }
  }

  /** A path can be read in every document exactly when it is not unsafe. */
  lemma SafeOnEveryDocument(path: Path)
    ensures (forall v :: WellFormed(v) ==> ReadPath(v, path).Got?) <==> !Unsafe(path)
    ensures (forall v :: ReadPath(v, path).Got?) <==> !Unsafe(path)
  {
    if Unsafe(path) {
      var i :| 0 <= i < |path| && IsContainer(path[i]) && DocumentSteps(path[..i]);
      LeadToIsRead(path[..i]);
      assert RaisesAt(LeadTo(path[..i]), path, i);
      ReaderRaisesExactly(LeadTo(path[..i]), path);
    }
    forall v | ReadPath(v, path).Raised? ensures Unsafe(path) {
      ReaderRaisesExactly(v, path);
      var i :| 0 <= i < |path| && RaisesAt(v, path, i);
      ReadThrough(v, path[..i]);
    }
  }

  /** What reads a dict went down at every step. */
  lemma {:induction false} ReadThrough(v: Value, path: Path)
    requires ReadPath(v, path).Got? && ReadPath(v, path).v.Obj?
    ensures DocumentSteps(path)
    decreases |path|
  {
    if path != [] {
      ReadThrough(StepInto(v, path[0]).v, path[1..]);
      assert forall j :: 1 <= j < |path| ==> path[j] == path[1..][j - 1];
    }
  }

  /** In particular on the paths documents produce. */
  lemma {:induction false} DocumentPathsNeverRaise(v: Value, path: Path)
    requires forall i :: 0 <= i < |path| ==> !IsContainer(path[i])
    ensures ReadPath(v, path).Got?
    decreases |path|
  {
    if path != [] && StepInto(v, path[0]).Down? {
      DocumentPathsNeverRaise(StepInto(v, path[0]).v, path[1..]);
    }
  }
}
