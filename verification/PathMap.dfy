// The declarative field map (crawloop/loop/pathmap.py): its reference interpreter, and the
// separately written interpreter inlined in every emitted path-map crawler. A field map is
// itself a document, so malformed specs are ordinary inputs; a Python exception is `Err`.
module PathMap {
  import opened Wrappers
  import opened PyText
  import opened Values
  import opened JsonPath
  import opened Discovery
  import opened ValuePathCrawler

  datatype Eval = Val(v: Value) | Err

  function Chars(s: string): (r: seq<Value>)
    ensures |r| == |s|
  {
    seq(|s|, i requires 0 <= i < |s| => Str([s[i]]))
  }

  function Keys(es: seq<Entry>): (r: seq<Value>)
    ensures |r| == |es|
  {
    seq(|es|, i requires 0 <= i < |es| => Str(es[i].key))
  }

  /** What `for x in v` yields; `None` when `v` is not iterable. */
  function Iterate(v: Value): Option<seq<Value>> {
    match v
    case Arr(xs) => Some(xs)
    case Str(s) => Some(Chars(s))
    case Obj(es) => Some(Keys(es))
    case _ => None
  }

  /** `bool(v)`. */
  predicate Truthy(v: Value) {
    match v
    case Null => false
    case Bool(b) => b
    case Int(n) => n != 0
    case Flt(r, _) => r != 0.0
    case Dec(d, _) => d != 0.0
    case Str(s) => s != ""
    case Arr(xs) => xs != []
    case Obj(es) => es != []
  }

  /** `v[0]`. */
  function First(v: Value): Eval {
    match v
    case Arr(xs) => if xs == [] then Err else Val(xs[0])
    case Str(s) => if s == "" then Err else Val(Str([s[0]]))
    case _ => Err
  }

  /** `d.get(key, default)` on a dict. */
  function GetOr(d: Value, key: string, default: Value): Value
    requires d.Obj?
  {
    var found := Lookup(d.entries, key);
    if found.Some? then found.value else default
  }

  /** Reading along a path that is itself any value. */
  function ReadAlong(data: Value, path: Value): Eval {
    match Iterate(path)
    case None => Err
    case Some(steps) => match ReadPath(data, steps)
      case Got(v) => Val(v)
      case Raised => Err
  }

  /** `sub in s` on strings. */
  predicate Contains(s: string, sub: string) {
    sub <= s || (s != "" && Contains(s[1..], sub))
  }

  /** The code of the first key the text contains. */
  function FirstContained(es: seq<Entry>, s: string): Value {
    if es == [] then Null
    else if Contains(s, es[0].key) then es[0].val
    else FirstContained(es[1..], s)
  }

  /** The non-empty stripped texts of the parts; `None` when reading one of them raises. */
  function Pieces(data: Value, parts: seq<Value>): Option<seq<string>> {
    if parts == [] then Some([])
    else
      var n := |parts| - 1;
      var before := Pieces(data, parts[..n]);
      var last := ReadAlong(data, parts[n]);
      if before.None? || last.Err? then None
      else if last.v.Null? || Strip(Text(last.v)) == "" then before
      else Some(before.value + [Strip(Text(last.v))])
  }

  /** `element[key]` over the dict elements that have it; `None` when the key is unhashable. */
  function Project(items: seq<Value>, key: Value): Option<seq<Value>> {
    if items == [] then Some([])
    else
      var n := |items| - 1;
      var before := Project(items[..n], key);
      if before.None? then None
      else match StepOfElement(items[n], key)
        case Unhashable => None
        case Miss => before
        case Down(v) => Some(before.value + [v])
  }

  function StepOfElement(el: Value, key: Value): Step {
    if el.Obj? then StepInto(el, key) else Miss
  }

  function EvalMap(value: Value, mapping: Value): Eval {
    if !value.Str? then Val(Null)
    else if !mapping.Obj? then Err
    else Val(FirstContained(mapping.entries, value.s))
  }

  function EvalConcat(data: Value, parts: Value, sep: Value): Eval {
    var subs := Iterate(parts);
    var pieces := if subs.None? then None else Pieces(data, subs.value);
    if pieces.None? then Err
    else if pieces.value == [] then Val(Null)
    else if sep.Str? then Val(Str(Join(sep.s, pieces.value)))
    else Err
  }

  function EvalList(data: Value, paths: Value, key: Value): Eval {
    if !Truthy(paths) then Val(Null)
    else match First(paths)
      case Err => Err
      case Val(path) => match ReadAlong(data, path)
        case Err => Err
        case Val(arr) =>
          if !arr.Arr? then Val(Null)
          else if key.Null? then Val(arr)
          else match Project(arr.items, key)
            case None => Err
            case Some(out) => Val(Arr(out))
  }

  /** Python's `round`: to the nearest integer, ties to the even one. */
  function Round(x: real): int {
    var low := x.Floor;
    if x - low as real < 0.5 then low
    else if x - low as real > 0.5 then low + 1
    else if low % 2 == 0 then low
    else low + 1
  }

  /** Python's `int(float)`: towards zero. */
  function Truncate(x: real): int {
    if x < 0.0 then -((-x).Floor) else x.Floor
  }

  function EvalScalar(value: Value, transform: Value, py: Python): Value {
    if value.Null? || !transform.Str? then Null
    else if transform.s == "none" then value
    else
      var n := ToFloat(value, py);
      if n.None? then Null
      else if transform.s == "x10000" then Int(Round(Scaled(n.value, SCALE)))
      else if transform.s == "int" then Int(Truncate(n.value))
      else if transform.s == "float" then Flt(n.value, py.repr(n.value))
      else Null
  }

  /** The meaning of one field spec, exceptions included. */
  function EvalSpec(data: Value, spec: Value, py: Python): Eval {
    if !spec.Obj? || Lookup(spec.entries, "transform").None? then Err
    else
      var t := Lookup(spec.entries, "transform").value;
      if t.Obj? then
        if Lookup(t.entries, "map").Some? then
          match ReadAlong(data, GetOr(spec, "path", Arr([])))
          case Err => Err
          case Val(value) => EvalMap(value, Lookup(t.entries, "map").value)
        else if Lookup(t.entries, "concat").Some? then
          EvalConcat(data, Lookup(t.entries, "concat").value, GetOr(t, "sep", Str("")))
        else if Lookup(t.entries, "list").Some? then
          EvalList(data, Lookup(t.entries, "list").value, GetOr(t, "field", Null))
        else Val(Null)
      else
        match ReadAlong(data, GetOr(spec, "path", Arr([])))
        case Err => Err
        case Val(value) => Val(EvalScalar(value, t, py))
  }

  /** A field's value: any exception counts as a miss. */
  function FieldValue(data: Value, spec: Value, py: Python): Value {
    match EvalSpec(data, spec, py)
    case Val(v) => v
    case Err => Null
  }

  /** The record a field map denotes. */
  function RecordOf(data: Value, fieldmap: seq<Entry>, py: Python): Record {
    if fieldmap == [] then map[]
    else
      var n := |fieldmap| - 1;
      var before := RecordOf(data, fieldmap[..n], py);
      var v := FieldValue(data, fieldmap[n].val, py);
      if v.Null? then before else before[fieldmap[n].key := v]
  }

  // ---- the reference interpreter ----

  /** `read_path` as both interpreters call it. */
  method ReadValue(data: Value, path: Value) returns (r: Eval)
    ensures r == ReadAlong(data, path)
  {
    var steps := Iterate(path);
    if steps.None? {
      return Err;
    }
    var got := Read(data, steps.value);
    r := if got.Got? then Val(got.v) else Err;
  }

  /** `_apply_map`. */
  method ApplyMap(value: Value, mapping: Value) returns (r: Eval)
    ensures r == EvalMap(value, mapping)
  {
    if !value.Str? {
      return Val(Null);
    }
    if !mapping.Obj? {
      return Err;
    }
    for i := 0 to |mapping.entries|
      invariant FirstContained(mapping.entries, value.s) == FirstContained(mapping.entries[i..], value.s)
    {
      if Contains(value.s, mapping.entries[i].key) {
        return Val(mapping.entries[i].val);
      }
      assert mapping.entries[i..][1..] == mapping.entries[i + 1..];
    }
    r := Val(Null);
  }

  /** The piece-collecting loop of `_apply_concat`. */
  method CollectPieces(data: Value, subs: seq<Value>) returns (r: Option<seq<string>>)
    ensures r == Pieces(data, subs)
  {
    var pieces: seq<string> := [];
    for i := 0 to |subs|
      invariant Pieces(data, subs[..i]) == Some(pieces)
    {
      assert subs[..i + 1][..i] == subs[..i];
      var v := ReadValue(data, subs[i]);
      if v.Err? {
        RaisedPiece(data, subs, i);
        return None;
      }
      if v.v.Null? {
        continue;
      }
      var s := Strip(Text(v.v));
      if s != "" {
        pieces := pieces + [s];
      }
    }
    assert subs[..|subs|] == subs;
    r := Some(pieces);
  }

  /** `_apply_concat`. */
  method ApplyConcat(data: Value, parts: Value, sep: Value) returns (r: Eval)
    ensures r == EvalConcat(data, parts, sep)
  {
    var subs := Iterate(parts);
    if subs.None? {
      return Err;
    }
    var pieces := CollectPieces(data, subs.value);
    if pieces.None? {
      return Err;
    }
    r := if pieces.value == [] then Val(Null)
         else if sep.Str? then Val(Str(Join(sep.s, pieces.value)))
         else Err;
  }

  lemma {:induction false} RaisedPiece(data: Value, parts: seq<Value>, i: nat)
    requires i < |parts| && ReadAlong(data, parts[i]).Err?
    ensures Pieces(data, parts).None?
  {
    if i < |parts| - 1 {
      RaisedPiece(data, parts[..|parts| - 1], i);
    }
  }

  lemma {:induction false} RaisedElement(items: seq<Value>, key: Value, i: nat)
    requires i < |items| && StepOfElement(items[i], key).Unhashable?
    ensures Project(items, key).None?
  {
    if i < |items| - 1 {
      RaisedElement(items[..|items| - 1], key, i);
    }
  }

  /** `_apply_list`. */
  method ApplyList(data: Value, paths: Value, key: Value) returns (r: Eval)
    ensures r == EvalList(data, paths, key)
  {
    if !Truthy(paths) {
      return Val(Null);
    }
    var path := First(paths);
    if path.Err? {
      return Err;
    }
    var arr := ReadValue(data, path.v);
    if arr.Err? {
      return Err;
    }
    if !arr.v.Arr? {
      return Val(Null);
    }
    if key.Null? {
      return arr;
    }
    var out: seq<Value> := [];
    var items := arr.v.items;
    for i := 0 to |items|
      invariant Project(items[..i], key) == Some(out)
    {
      assert items[..i + 1][..i] == items[..i];
      var here := StepOfElement(items[i], key);
      if here.Unhashable? {
        RaisedElement(items, key, i);
        return Err;
      }
      if here.Down? {
        out := out + [here.v];
      }
    }
    assert items[..|items|] == items;
    r := Val(Arr(out));
  }

  /** `apply_field_spec`. */
  method ApplyFieldSpec(data: Value, spec: Value, py: Python) returns (r: Value)
    ensures r == FieldValue(data, spec, py)
  {
    if !spec.Obj? || Lookup(spec.entries, "transform").None? {
      return Null;
    }
    var transform := Lookup(spec.entries, "transform").value;
    var result: Eval;
    if transform.Obj? {
      var asMap := Lookup(transform.entries, "map");
      var asConcat := Lookup(transform.entries, "concat");
      var asList := Lookup(transform.entries, "list");
      if asMap.Some? {
        var value := ReadValue(data, GetOr(spec, "path", Arr([])));
        if value.Err? {
          return Null;
        }
        result := ApplyMap(value.v, asMap.value);
      } else if asConcat.Some? {
        result := ApplyConcat(data, asConcat.value, GetOr(transform, "sep", Str("")));
      } else if asList.Some? {
        result := ApplyList(data, asList.value, GetOr(transform, "field", Null));
      } else {
        result := Val(Null);
      }
    } else {
      var value := ReadValue(data, GetOr(spec, "path", Arr([])));
      if value.Err? {
        return Null;
      }
      result := Val(EvalScalar(value.v, transform, py));
    }
    r := if result.Val? then result.v else Null;
  }

  /** `apply_fieldmap`. */
  method ApplyFieldmap(data: Value, fieldmap: seq<Entry>, py: Python) returns (record: Record)
    ensures record == RecordOf(data, fieldmap, py)
  {
    record := map[];
    for i := 0 to |fieldmap|
      invariant record == RecordOf(data, fieldmap[..i], py)
    {
      assert fieldmap[..i + 1][..i] == fieldmap[..i];
      var value := ApplyFieldSpec(data, fieldmap[i].val, py);
      if !value.Null? {
        record := record[fieldmap[i].key := value];
      }
    }
    assert fieldmap[..|fieldmap|] == fieldmap;
  }

  // ---- the interpreter inlined in the emitted module ----

  /** The emitted `_apply`: one body, its own loops, every exception caught at the end. */
  method EmittedApply(data: Value, spec: Value, py: Python) returns (r: Value)
    ensures r == FieldValue(data, spec, py)
  {
    if !spec.Obj? || Lookup(spec.entries, "transform").None? {
      return Null;
    }
    var transform := Lookup(spec.entries, "transform").value;
    if transform.Obj? && Lookup(transform.entries, "map").Some? {
      var value := ReadValue(data, GetOr(spec, "path", Arr([])));
      if value.Err? || !value.v.Str? {
        return Null;
      }
      var mapping := Lookup(transform.entries, "map").value;
      if !mapping.Obj? {
        return Null;
      }
      ghost var all := mapping.entries;
      var i := 0;
      while i < |mapping.entries|
        invariant 0 <= i <= |all|
        invariant FirstContained(all, value.v.s) == FirstContained(all[i..], value.v.s)
      {
        if Contains(value.v.s, mapping.entries[i].key) {
          return mapping.entries[i].val;
        }
        assert all[i..][1..] == all[i + 1..];
        i := i + 1;
      }
      return Null;
    }
    if transform.Obj? && Lookup(transform.entries, "concat").Some? {
      r := EmittedConcat(data, transform);
      return;
    }
    if transform.Obj? && Lookup(transform.entries, "list").Some? {
      r := EmittedList(data, transform);
      return;
    }
    if transform.Obj? {
      return Null;
    }
    var value := ReadValue(data, GetOr(spec, "path", Arr([])));
    if value.Err? || value.v.Null? || !transform.Str? {
      return Null;
    }
    if transform.s == "none" {
      return value.v;
    }
    var n := ToFloat(value.v, py);
    if n.None? {
      return Null;
    }
    if transform.s == "x10000" {
      return Int(Round(Scaled(n.value, SCALE)));
    }
    if transform.s == "int" {
      return Int(Truncate(n.value));
    }
    if transform.s == "float" {
      return Flt(n.value, py.repr(n.value));
    }
    r := Null;
  }

  /** The concat branch of the emitted `_apply`. */
  method EmittedConcat(data: Value, transform: Value) returns (r: Value)
    requires transform.Obj? && Lookup(transform.entries, "concat").Some?
    ensures var e := EvalConcat(
        data, Lookup(transform.entries, "concat").value, GetOr(transform, "sep", Str("")));
      r == if e.Val? then e.v else Null
  {
    var sep := GetOr(transform, "sep", Str(""));
    var subs := Iterate(Lookup(transform.entries, "concat").value);
    if subs.None? {
      return Null;
    }
    var pieces: seq<string> := [];
    var i := 0;
    while i < |subs.value|
      invariant 0 <= i <= |subs.value|
      invariant Pieces(data, subs.value[..i]) == Some(pieces)
    {
      assert subs.value[..i + 1][..i] == subs.value[..i];
      var v := ReadValue(data, subs.value[i]);
      if v.Err? {
        RaisedPiece(data, subs.value, i);
        return Null;
      }
      i := i + 1;
      if v.v.Null? {
        continue;
      }
      var s := Strip(Text(v.v));
      if s != "" {
        pieces := pieces + [s];
      }
    }
    assert subs.value[..|subs.value|] == subs.value;
    if pieces == [] || !sep.Str? {
      return Null;
    }
    r := Str(Join(sep.s, pieces));
  }

  /** The list branch of the emitted `_apply`. */
  method EmittedList(data: Value, transform: Value) returns (r: Value)
    requires transform.Obj? && Lookup(transform.entries, "list").Some?
    ensures var e := EvalList(
        data, Lookup(transform.entries, "list").value, GetOr(transform, "field", Null));
      r == if e.Val? then e.v else Null
  {
    var paths := Lookup(transform.entries, "list").value;
    if !Truthy(paths) || First(paths).Err? {
      return Null;
    }
    var arr := ReadValue(data, First(paths).v);
    if arr.Err? || !arr.v.Arr? {
      return Null;
    }
    var key := GetOr(transform, "field", Null);
    if key.Null? {
      return arr.v;
    }
    var items, out := arr.v.items, [];
    var i := 0;
    while i < |items|
      invariant 0 <= i <= |items|
      invariant Project(items[..i], key) == Some(out)
    {
      assert items[..i + 1][..i] == items[..i];
      if items[i].Obj? {
        if IsContainer(key) {
          RaisedElement(items, key, i);
          return Null;
        }
        if key.Str? && Lookup(items[i].entries, key.s).Some? {
          out := out + [Lookup(items[i].entries, key.s).value];
        }
      }
      i := i + 1;
    }
    assert items[..|items|] == items;
    r := Arr(out);
  }

  /** The emitted crawler's record is the reference interpreter's, for every document and map. */
  method EmittedCrawl(data: Value, fieldmap: seq<Entry>, py: Python) returns (item: Record)
    ensures item == RecordOf(data, fieldmap, py)
  {
    item := map[];
    var i := 0;
    while i < |fieldmap|
      invariant 0 <= i <= |fieldmap|
      invariant item == RecordOf(data, fieldmap[..i], py)
    {
      assert fieldmap[..i + 1][..i] == fieldmap[..i];
      var value := EmittedApply(data, fieldmap[i].val, py);
      if !value.Null? {
        item := item[fieldmap[i].key := value];
      }
      i := i + 1;
    }
    assert fieldmap[..|fieldmap|] == fieldmap;
  }

  // ---- what a field map means ----

  /** A record holds exactly the fields whose spec yields a value, with that value. */
  lemma {:induction false} RecordIsPointwise(data: Value, fieldmap: seq<Entry>, py: Python, i: nat)
    requires DistinctKeys(fieldmap) && i < |fieldmap|
    ensures Get(RecordOf(data, fieldmap, py), fieldmap[i].key) == FieldValue(data, fieldmap[i].val, py)
  {
    var n := |fieldmap| - 1;
    if i < n {
      RecordIsPointwise(data, fieldmap[..n], py, i);
    } else {
      RecordKeys(data, fieldmap[..n], py, fieldmap[n].key);
    }
  }

  lemma {:induction false} RecordKeys(data: Value, fieldmap: seq<Entry>, py: Python, key: string)
    requires forall i :: 0 <= i < |fieldmap| ==> fieldmap[i].key != key
    ensures key !in RecordOf(data, fieldmap, py)
  {
    if fieldmap != [] {
      RecordKeys(data, fieldmap[..|fieldmap| - 1], py, key);
    }
  }

  /** In an enum map the earliest listed key contained in the text decides. */
  lemma {:induction false} EarliestKeyDecides(es: seq<Entry>, s: string, k: nat)
    requires k < |es| && Contains(s, es[k].key)
    requires forall j :: 0 <= j < k ==> !Contains(s, es[j].key)
    ensures FirstContained(es, s) == es[k].val
  {
    if k > 0 {
      EarliestKeyDecides(es[1..], s, k - 1);
    }
  }

  /** The identity transform over a document path reads what the value-path crawler reads. */
  lemma IdentityTransformReads(data: Value, path: Path, py: Python)
    requires DocumentPath(path)
    ensures var spec := Obj([Entry("path", Arr(path)), Entry("transform", Str("none"))]);
      ReadPath(data, path) == Got(FieldValue(data, spec, py))
  {
    var spec := Obj([Entry("path", Arr(path)), Entry("transform", Str("none"))]);
    DocumentPathsNeverRaise(data, path);
    assert spec.entries[1..] == [Entry("transform", Str("none"))];
    assert Lookup(spec.entries, "transform") == Some(Str("none"));
  }
}
