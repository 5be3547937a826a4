// What a field spec means (crawloop/loop/pathmap.py), transform by transform, in terms of what its
// paths read: both interpreters compute it.
module SpecMeaning {
  import opened Wrappers
  import opened Positions
  import opened PyText
  import opened Values
  import opened FieldEquality
  import opened JsonPath
  import opened Discovery
  import opened PathMap

  // ---- scalars ----

  /** A spec whose path is the list `steps` and whose transform is a name. */
  ghost predicate ScalarSpec(spec: Value, steps: Path, name: string) {
    && spec.Obj? && Lookup(spec.entries, "transform") == Some(Str(name))
    && match Lookup(spec.entries, "path")
       case Some(path) => path == Arr(steps)
       case None => steps == []
  }

  /** Where the path reads a number, "x10000" gives the integer nearest to ten thousand times it, the
      even one of two; "int" the integer part, towards zero; "float" the number. */
  lemma NumberTransforms(data: Value, spec: Value, steps: Path, name: string, v: Value, py: Python)
    requires ScalarSpec(spec, steps, name) && ReadPath(data, steps) == Got(v)
    requires ToFloat(v, py).Some?
    ensures var x, r := ToFloat(v, py).value, FieldValue(data, spec, py);
      && (name == "x10000" ==>
            && r.Int? && Abs(r.n as real - 10000.0 * x) <= 0.5
            && (Abs(r.n as real - 10000.0 * x) == 0.5 ==> r.n % 2 == 0))
      && (name == "int" ==>
            && r.Int? && Abs(r.n as real) <= Abs(x) < Abs(r.n as real) + 1.0
            && (r.n > 0 ==> x > 0.0) && (r.n < 0 ==> x < 0.0))
      && (name == "float" ==> r.Flt? && r.r == x)
  {
    var x := ToFloat(v, py).value;
    NumberIsThere(v, py);
    ReadsScalar(data, spec, steps, name, v, py);
    if name == "x10000" {
      RoundIsNearest(Scaled(x, SCALE));
      assert Scaled(x, SCALE) == 10000.0 * x;
    }
  }

  lemma NumberIsThere(v: Value, py: Python)
    requires ToFloat(v, py).Some?
    ensures !v.Null?
  {
  }

  lemma RoundIsNearest(x: real)
    ensures Abs(Round(x) as real - x) <= 0.5
    ensures Abs(Round(x) as real - x) == 0.5 ==> Round(x) % 2 == 0
  {
  }

  lemma ReadsScalar(data: Value, spec: Value, steps: Path, name: string, v: Value, py: Python)
    requires ScalarSpec(spec, steps, name) && ReadPath(data, steps) == Got(v)
    ensures FieldValue(data, spec, py) == EvalScalar(v, Str(name), py)
  {
    assert ReadAlong(data, Arr(steps)) == Val(v);
  }

  /** A name outside the vocabulary, a value that is missing, and one that is not a number where a
      number is asked for, are misses; "none" gives what is read. */
  lemma ScalarMisses(data: Value, spec: Value, steps: Path, name: string, v: Value, py: Python)
    requires ScalarSpec(spec, steps, name) && ReadPath(data, steps) == Got(v)
    ensures name == "none" ==> FieldValue(data, spec, py) == v
    ensures name != "none" && (name !in {"x10000", "int", "float"} || ToFloat(v, py).None?) ==>
      FieldValue(data, spec, py).Null?
  {
    ReadsScalar(data, spec, steps, name, v, py);
  }

  /** A path that raises is a miss, whatever the transform. */
  lemma RaisedPathMisses(data: Value, spec: Value, steps: Path, name: string, py: Python)
    requires ScalarSpec(spec, steps, name) && ReadPath(data, steps).Raised?
    ensures FieldValue(data, spec, py).Null?
  {
    assert ReadAlong(data, Arr(steps)) == Err;
  }

  /** A unit price stored in ten thousands. */
  lemma UnitPriceScales(py: Python)
    ensures var data := Obj([Entry("unitPrice", Int(1298))]);
      var spec := Obj([Entry("path", Arr([Str("unitPrice")])), Entry("transform", Str("x10000"))]);
      FieldValue(data, spec, py) == Int(12980000)
  {
    var data := Obj([Entry("unitPrice", Int(1298))]);
    var spec := Obj([Entry("path", Arr([Str("unitPrice")])), Entry("transform", Str("x10000"))]);
    assert spec.entries[1..] == [Entry("transform", Str("x10000"))];
    assert Lookup(spec.entries, "transform") == Some(Str("x10000"));
    assert [Str("unitPrice")][1..] == [];
    assert ReadPath(data, [Str("unitPrice")]) == ReadPath(Int(1298), []);
    NumberTransforms(data, spec, [Str("unitPrice")], "x10000", Int(1298), py);
  }

  // ---- the enum map ----

  /** `sub` occurs in `s` at `i`. */
  ghost predicate OccursAt(s: string, sub: string, i: nat) {
    i + |sub| <= |s| && s[i..i + |sub|] == sub
  }

  lemma OccursInTail(s: string, sub: string, i: nat)
    requires s != ""
    ensures OccursAt(s[1..], sub, i) <==> OccursAt(s, sub, i + 1)
  {
    if i + 1 + |sub| <= |s| {
      assert s[1..][i..i + |sub|] == s[i + 1..i + 1 + |sub|];
    }
  }

  lemma {:induction false} ContainsWhereItOccurs(s: string, sub: string, i: nat)
    requires OccursAt(s, sub, i)
    ensures Contains(s, sub)
    decreases i
  {
    if i == 0 {
      assert sub <= s;
    } else {
      OccursInTail(s, sub, i - 1);
      ContainsWhereItOccurs(s[1..], sub, i - 1);
    }
  }

  lemma {:induction false} OccursIfContained(s: string, sub: string) returns (i: nat)
    requires Contains(s, sub)
    ensures OccursAt(s, sub, i)
  {
    if sub <= s {
      i := 0;
    } else {
      var rest := OccursIfContained(s[1..], sub);
      OccursInTail(s, sub, rest);
      i := rest + 1;
    }
  }

  /** `sub in s`. */
  lemma ContainsExact(s: string, sub: string)
    ensures Contains(s, sub) <==> exists i: nat :: OccursAt(s, sub, i)
  {
    if Contains(s, sub) {
      var i := OccursIfContained(s, sub);
    }
    if i: nat :| OccursAt(s, sub, i) {
      ContainsWhereItOccurs(s, sub, i);
    }
  }

  ghost predicate TransformSpec(spec: Value, t: Value) {
    spec.Obj? && t.Obj? && Lookup(spec.entries, "transform") == Some(t)
  }

  /** Key `k` is the earliest one that occurs in the text. */
  ghost predicate EarliestKey(es: seq<Entry>, s: string, k: nat) {
    && k < |es| && (exists i: nat :: OccursAt(s, es[k].key, i))
    && forall j, i: nat :: 0 <= j < k ==> !OccursAt(s, es[j].key, i)
  }

  /** The code is that of the earliest key that occurs in the text; none when no key does. */
  lemma MapMeans(data: Value, spec: Value, t: Value, steps: Path, s: string, es: seq<Entry>, py: Python)
    requires TransformSpec(spec, t) && Lookup(t.entries, "map") == Some(Obj(es))
    requires Lookup(spec.entries, "path") == Some(Arr(steps)) && ReadPath(data, steps) == Got(Str(s))
    ensures forall k: nat :: EarliestKey(es, s, k) ==> FieldValue(data, spec, py) == es[k].val
    ensures (forall k: nat :: !EarliestKey(es, s, k)) ==> FieldValue(data, spec, py).Null?
  {
    assert ReadAlong(data, Arr(steps)) == Val(Str(s));
    assert FieldValue(data, spec, py) == FirstContained(es, s);
    forall e: Entry ensures Contains(s, e.key) <==> exists i: nat :: OccursAt(s, e.key, i) {
      ContainsExact(s, e.key);
    }
    forall k: nat | EarliestKey(es, s, k) ensures FirstContained(es, s) == es[k].val {
      EarliestKeyDecides(es, s, k);
    }
    if forall k: nat :: !EarliestKey(es, s, k) {
      NoKeyDecides(es, s);
    }
  }

  lemma {:induction false} FirstThatOccurs(es: seq<Entry>, s: string, n: nat) returns (k: nat)
    requires n <= |es|
    ensures k <= n && forall j :: 0 <= j < k ==> !Contains(s, es[j].key)
    ensures k < n ==> Contains(s, es[k].key)
  {
    k := 0;
    while k < n && !Contains(s, es[k].key)
      invariant k <= n && forall j :: 0 <= j < k ==> !Contains(s, es[j].key)
    {
      k := k + 1;
    }
  }

  lemma NoKeyDecides(es: seq<Entry>, s: string)
    requires forall k: nat :: !EarliestKey(es, s, k)
    ensures FirstContained(es, s).Null?
  {
    var k := FirstThatOccurs(es, s, |es|);
    forall e: Entry ensures Contains(s, e.key) <==> exists i: nat :: OccursAt(s, e.key, i) {
      ContainsExact(s, e.key);
    }
    if k < |es| {
      assert EarliestKey(es, s, k);
    }
    NoneContained(es, s);
  }

  lemma {:induction false} NoneContained(es: seq<Entry>, s: string)
    requires forall j :: 0 <= j < |es| ==> !Contains(s, es[j].key)
    ensures FirstContained(es, s).Null?
  {
    if es != [] {
      NoneContained(es[1..], s);
    }
  }

  // ---- concat ----

  /** Piece `i` stands at `cuts[i]`, and after it the separator and the next piece, or the end. */
  ghost predicate PieceAt(text: string, sep: string, pieces: seq<string>, cuts: seq<nat>, i: nat)
    requires i < |pieces| == |cuts|
  {
    && OccursAt(text, pieces[i], cuts[i])
    && var end := cuts[i] + |pieces[i]|;
       if i + 1 < |pieces| then OccursAt(text, sep, end) && cuts[i + 1] == end + |sep| else end == |text|
  }

  /** `text` is the pieces, from the start to the end, with `sep` between each and the next. */
  ghost predicate Spelled(text: string, sep: string, pieces: seq<string>, cuts: seq<nat>) {
    && |cuts| == |pieces| > 0 && cuts[0] == 0
    && forall i :: 0 <= i < |pieces| ==> PieceAt(text, sep, pieces, cuts, i)
  }

  lemma OccursLater(before: string, text: string, sub: string, i: nat)
    requires OccursAt(text, sub, i)
    ensures OccursAt(before + text, sub, |before| + i)
  {
    assert (before + text)[|before| + i..|before| + i + |sub|] == text[i..i + |sub|];
  }

  function Shifted(cuts: seq<nat>, shift: nat): (r: seq<nat>)
    ensures |r| == |cuts|
  {
    seq(|cuts|, i requires 0 <= i < |cuts| => shift + cuts[i])
  }

  lemma PieceLater(head: string, text: string, sep: string, first: string, pieces: seq<string>, cuts: seq<nat>, i: nat)
    requires i < |pieces| == |cuts| && PieceAt(text, sep, pieces, cuts, i)
    ensures PieceAt(head + text, sep, [first] + pieces, [0] + Shifted(cuts, |head|), i + 1)
  {
    OccursLater(head, text, pieces[i], cuts[i]);
    if i + 1 < |pieces| {
      OccursLater(head, text, sep, cuts[i] + |pieces[i]|);
    }
  }

  lemma SpelledMore(text: string, sep: string, first: string, pieces: seq<string>, cuts: seq<nat>)
    requires Spelled(text, sep, pieces, cuts)
    ensures Spelled(first + sep + text, sep, [first] + pieces, [0] + Shifted(cuts, |first + sep|))
  {
    var head := first + sep;
    var whole, all, at := head + text, [first] + pieces, [0] + Shifted(cuts, |head|);
    forall i | 0 <= i < |all| ensures PieceAt(whole, sep, all, at, i) {
      if i > 0 {
        PieceLater(head, text, sep, first, pieces, cuts, i - 1);
      } else {
        assert whole[0..|first|] == first && whole[|first|..|first| + |sep|] == sep;
      }
    }
  }

  lemma {:induction false} JoinSpells(sep: string, pieces: seq<string>) returns (cuts: seq<nat>)
    requires pieces != []
    ensures Spelled(Join(sep, pieces), sep, pieces, cuts)
  {
    if |pieces| == 1 {
      cuts := [0];
    } else {
      var rest := JoinSpells(sep, pieces[1..]);
      SpelledMore(Join(sep, pieces[1..]), sep, pieces[0], pieces[1..], rest);
      assert pieces == [pieces[0]] + pieces[1..];
      cuts := [0] + Shifted(rest, |pieces[0] + sep|);
    }
  }

  /** Every part is a path, and none raises. */
  ghost predicate PartsRead(data: Value, parts: seq<Value>, vs: seq<Value>) {
    && |vs| == |parts|
    && forall i :: 0 <= i < |parts| ==> parts[i].Arr? && ReadPath(data, parts[i].items) == Got(vs[i])
  }

  /** A part counts when it reads something whose stripped text is not empty. */
  predicate Counts(v: Value) {
    !v.Null? && Strip(Text(v)) != ""
  }

  /** The stripped texts of the values at the given positions. */
  function Texts(vs: seq<Value>, at: seq<nat>): (r: seq<string>)
    requires forall a :: 0 <= a < |at| ==> at[a] < |vs|
    ensures |r| == |at|
  {
    seq(|at|, a requires 0 <= a < |at| => Strip(Text(vs[at[a]])))
  }

  lemma TextsOfMore(vs: seq<Value>, v: Value, at: seq<nat>)
    requires forall a :: 0 <= a < |at| ==> at[a] < |vs|
    ensures Texts(vs + [v], at) == Texts(vs, at)
    ensures Texts(vs + [v], at + [|vs|]) == Texts(vs, at) + [Strip(Text(v))]
  {
  }

  lemma PiecesNext(data: Value, parts: seq<Value>, part: Value, before: seq<string>, v: Value)
    requires Pieces(data, parts) == Some(before) && part.Arr? && ReadPath(data, part.items) == Got(v)
    ensures Pieces(data, parts + [part]) == Some(if Counts(v) then before + [Strip(Text(v))] else before)
  {
    assert (parts + [part])[..|parts|] == parts;
    assert ReadAlong(data, part) == Val(v);
  }

  lemma {:induction false} PiecesAre(data: Value, parts: seq<Value>, vs: seq<Value>) returns (at: seq<nat>)
    requires PartsRead(data, parts, vs)
    ensures Lists(vs, Counts, at)
    ensures Pieces(data, parts) == Some(Texts(vs, at))
  {
    at := [];
    if parts != [] {
      var n := |parts| - 1;
      var before := PiecesAre(data, parts[..n], vs[..n]);
      assert vs == vs[..n] + [vs[n]] && parts == parts[..n] + [parts[n]];
      ListsMore(vs[..n], vs[n], Counts, before);
      PiecesNext(data, parts[..n], parts[n], Texts(vs[..n], before), vs[n]);
      TextsOfMore(vs[..n], vs[n], before);
      at := if Counts(vs[n]) then before + [n] else before;
    }
  }

  ghost predicate ConcatSpec(spec: Value, t: Value, parts: seq<Value>, sep: string) {
    && TransformSpec(spec, t) && Lookup(t.entries, "map").None?
    && Lookup(t.entries, "concat") == Some(Arr(parts))
    && match Lookup(t.entries, "sep")
       case Some(s) => s == Str(sep)
       case None => sep == ""
  }

  /** Concat is the non-empty stripped texts of the parts that read, in part order, with the separator
      between them; nothing when there are none. */
  lemma ConcatMeans(
    data: Value, spec: Value, t: Value, parts: seq<Value>, sep: string, vs: seq<Value>, py: Python)
    returns (at: seq<nat>, cuts: seq<nat>)
    requires ConcatSpec(spec, t, parts, sep) && PartsRead(data, parts, vs)
    ensures Lists(vs, Counts, at)
    ensures var r := FieldValue(data, spec, py);
      if at == [] then r.Null? else r.Str? && Spelled(r.s, sep, Texts(vs, at), cuts)
  {
    at := PiecesAre(data, parts, vs);
    cuts := [];
    assert FieldValue(data, spec, py) ==
      if at == [] then Null else Str(Join(sep, Texts(vs, at)));
    if at != [] {
      cuts := JoinSpells(sep, Texts(vs, at));
    }
  }

  /** A part that raises makes the whole a miss. */
  lemma RaisedPartMisses(data: Value, spec: Value, t: Value, parts: seq<Value>, sep: string, i: nat, py: Python)
    requires ConcatSpec(spec, t, parts, sep) && i < |parts|
    requires parts[i].Arr? && ReadPath(data, parts[i].items).Raised?
    ensures FieldValue(data, spec, py).Null?
  {
    assert ReadAlong(data, parts[i]) == Err;
    RaisedPiece(data, parts, i);
  }

  // ---- list ----

  ghost predicate ListSpec(spec: Value, t: Value, steps: Path, others: seq<Value>) {
    && TransformSpec(spec, t) && Lookup(t.entries, "map").None? && Lookup(t.entries, "concat").None?
    && Lookup(t.entries, "list") == Some(Arr([Arr(steps)] + others))
  }

  ghost function HasKey(key: string): Value -> bool {
    (el: Value) => el.Obj? && Lookup(el.entries, key).Some?
  }

  /** `out` holds the key's values of the elements at `at`. */
  ghost predicate Projected(items: seq<Value>, key: string, at: seq<nat>, out: seq<Value>) {
    && |out| == |at|
    && forall a :: 0 <= a < |at| ==> at[a] < |items| && items[at[a]].Obj? && Lookup(items[at[a]].entries, key) == Some(out[a])
  }

  lemma ProjectKeeps(items: seq<Value>, item: Value, key: string, out: seq<Value>)
    requires Project(items, Str(key)) == Some(out) && HasKey(key)(item)
    ensures Project(items + [item], Str(key)) == Some(out + [Lookup(item.entries, key).value])
  {
    assert (items + [item])[..|items|] == items;
  }

  lemma ProjectSkips(items: seq<Value>, item: Value, key: string, out: seq<Value>)
    requires Project(items, Str(key)) == Some(out) && !HasKey(key)(item)
    ensures Project(items + [item], Str(key)) == Some(out)
  {
    assert (items + [item])[..|items|] == items;
  }

  lemma ProjectedMore(items: seq<Value>, item: Value, key: string, at: seq<nat>, out: seq<Value>)
    requires Projected(items, key, at, out)
    ensures Projected(items + [item], key, at, out)
    ensures HasKey(key)(item) ==>
      Projected(items + [item], key, at + [|items|], out + [Lookup(item.entries, key).value])
  {
  }

  lemma {:induction false} ProjectIs(items: seq<Value>, key: string) returns (at: seq<nat>)
    ensures Lists(items, HasKey(key), at)
    ensures Project(items, Str(key)).Some? && Projected(items, key, at, Project(items, Str(key)).value)
  {
    at := [];
    if items != [] {
      var n := |items| - 1;
      var before := ProjectIs(items[..n], key);
      assert items == items[..n] + [items[n]];
      ListsMore(items[..n], items[n], HasKey(key), before);
      var out := Project(items[..n], Str(key)).value;
      ProjectedMore(items[..n], items[n], key, before, out);
      if HasKey(key)(items[n]) {
        ProjectKeeps(items[..n], items[n], key, out);
        at := before + [n];
      } else {
        ProjectSkips(items[..n], items[n], key, out);
        at := before;
      }
    }
  }

  /** List gives the array its first path reads, as it is without a field, otherwise exactly the
      field's values of the dict elements that have it, in order; a value that is no array is a miss. */
  lemma ListMeans(data: Value, spec: Value, t: Value, steps: Path, others: seq<Value>, v: Value, py: Python)
    returns (at: seq<nat>)
    requires ListSpec(spec, t, steps, others) && ReadPath(data, steps) == Got(v)
    ensures var r := FieldValue(data, spec, py);
      && (!v.Arr? ==> r.Null?)
      && (v.Arr? && (Lookup(t.entries, "field").None? || Lookup(t.entries, "field") == Some(Null)) ==> r == v)
      && (v.Arr? && Lookup(t.entries, "field").Some? && Lookup(t.entries, "field").value.Str? ==>
            var key := Lookup(t.entries, "field").value.s;
            && Lists(v.items, HasKey(key), at)
            && r.Arr? && Projected(v.items, key, at, r.items))
  {
    at := [];
    var paths := [Arr(steps)] + others;
    assert First(Arr(paths)) == Val(Arr(steps)) && ReadAlong(data, Arr(steps)) == Val(v);
    var key := GetOr(t, "field", Null);
    if v.Arr? && key.Str? {
      at := ProjectIs(v.items, key.s);
    }
    assert FieldValue(data, spec, py) ==
      if !v.Arr? then Null else if key.Null? then v
      else match Project(v.items, key) case None => Null case Some(out) => Arr(out);
  }
}
