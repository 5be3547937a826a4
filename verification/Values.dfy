// Python values as they flow between a page, a crawler and the oracle: JSON
// (sections 3 and 4 of RFC 8259) plus Decimal. Floats are reals and carry their
// `str` text, since that text is what `parse_money(str(value))` reads.
module Values {
  import opened Wrappers
  import opened PyText

  datatype Value =
    | Null
    | Bool(b: bool)
    | Int(n: int)
    | Flt(r: real, text: string)
    | Dec(d: real, text: string)
    | Str(s: string)
    | Arr(items: seq<Value>)
    | Obj(entries: seq<Entry>)

  /** One `key: value` pair of a dict, kept in insertion order. */
  datatype Entry = Entry(key: string, val: Value)

  /** A flat record: only `get` and key iteration are ever used on it. */
  type Record = map<string, Value>

  /** `record.get(name)`. */
  function Get(r: Record, name: string): Value {
    if name in r then r[name] else Null
  }

  function Lookup(es: seq<Entry>, key: string): Option<Value> {
    if es == [] then None
    else if es[0].key == key then Some(es[0].val)
    else Lookup(es[1..], key)
  }

  ghost predicate DistinctKeys(es: seq<Entry>) {
    forall i, j :: 0 <= i < j < |es| ==> es[i].key != es[j].key
  }

  /** Every dict has pairwise distinct keys, and the text of a (finite) float shows a number. */
  ghost predicate WellFormed(v: Value) {
    match v
    case Flt(_, t) => ParseMoney(t).Some?
    case Arr(xs) => forall i :: 0 <= i < |xs| ==> WellFormed(xs[i])
    case Obj(es) => DistinctKeys(es) && forall i :: 0 <= i < |es| ==> WellFormed(es[i].val)
    case _ => true
  }

  predicate IsContainer(v: Value) {
    v.Arr? || v.Obj?
  }

  /** Python counts bools among the numbers when it compares. */
  predicate IsNumber(v: Value) {
    v.Bool? || v.Int? || v.Flt? || v.Dec?
  }

  function NumberOf(v: Value): real
    requires IsNumber(v)
  {
    match v
    case Bool(b) => if b then 1.0 else 0.0
    case Int(n) => n as real
    case Flt(r, _) => r
    case Dec(d, _) => d
  }

  // ---- str() ----

  function Join(sep: string, parts: seq<string>): string {
    if parts == [] then ""
    else if |parts| == 1 then parts[0]
    else parts[0] + sep + Join(sep, parts[1..])
  }

  function Escape(s: string, quote: char): string {
    if s == "" then ""
    else
      (if s[0] == quote || s[0] == '\\' then ['\\', s[0]]
       else if s[0] == '\n' then "\\n"
       else if s[0] == '\r' then "\\r"
       else if s[0] == '\t' then "\\t"
       else [s[0]]) + Escape(s[1..], quote)
  }

  function Quote(s: string): string {
    var q := if '\'' in s && '"' !in s then '"' else '\'';
    [q] + Escape(s, q) + [q]
  }

  /** `str(v)`. */
  function Text(v: Value): string
    decreases v, 1
  {
    match v
    case Null => "None"
    case Bool(b) => if b then "True" else "False"
    case Int(n) => IntText(n)
    case Flt(_, t) => t
    case Dec(_, t) => t
    case Str(s) => s
    case Arr(xs) => "[" + Join(", ", ItemTexts(xs)) + "]"
    case Obj(es) => "{" + Join(", ", EntryTexts(es)) + "}"
  }

  /** `repr(v)`, the form a value takes inside a container's text. */
  function Repr(v: Value): string
    decreases v, 2
  {
    if v.Str? then Quote(v.s)
    else if v.Dec? then "Decimal('" + v.text + "')"
    else Text(v)
  }

  function ItemTexts(xs: seq<Value>): seq<string>
    decreases xs, 0
  {
    if xs == [] then [] else [Repr(xs[0])] + ItemTexts(xs[1..])
  }

  function EntryTexts(es: seq<Entry>): seq<string>
    decreases es, 0
  {
    if es == [] then [] else [Quote(es[0].key) + ": " + Repr(es[0].val)] + EntryTexts(es[1..])
  }

  // ---- == ----

  /** Python's `==` on values. */
  predicate PyEq(a: Value, b: Value)
    decreases a
  {
    if IsNumber(a) then IsNumber(b) && NumberOf(a) == NumberOf(b)
    else match a
      case Null => b.Null?
      case Str(s) => b.Str? && s == b.s
      case Arr(xs) =>
        b.Arr? && |xs| == |b.items| && forall i :: 0 <= i < |xs| ==> PyEq(xs[i], b.items[i])
      case Obj(es) =>
        && b.Obj?
        && |es| == |b.entries|
        && forall i :: 0 <= i < |es| ==>
             var other := Lookup(b.entries, es[i].key);
             other.Some? && PyEq(es[i].val, other.value)
  }

  /** What `==` looks at: numbers by value, dicts without their order. */
  datatype Canon =
    | CNull
    | CNumber(r: real)
    | CText(s: string)
    | CList(items: seq<Canon>)
    | CDict(entries: map<string, Canon>)

  function CanonOf(v: Value): Canon
    decreases v, 1
  {
    if IsNumber(v) then CNumber(NumberOf(v))
    else match v
      case Null => CNull
      case Str(s) => CText(s)
      case Arr(xs) => CList(CanonItems(xs))
      case Obj(es) => CDict(CanonEntries(es))
  }

  function CanonItems(xs: seq<Value>): (r: seq<Canon>)
    ensures |r| == |xs| && forall i :: 0 <= i < |xs| ==> r[i] == CanonOf(xs[i])
    decreases xs, 0
  {
    if xs == [] then [] else [CanonOf(xs[0])] + CanonItems(xs[1..])
  }

  function CanonEntries(es: seq<Entry>): (r: map<string, Canon>)
    ensures forall k :: k in r <==> Lookup(es, k).Some?
    decreases es, 0
  {
    if es == [] then map[] else CanonEntries(es[1..])[es[0].key := CanonOf(es[0].val)]
  }

  lemma {:induction false} CanonEntriesAt(es: seq<Entry>, k: string)
    requires Lookup(es, k).Some?
    ensures k in CanonEntries(es) && CanonEntries(es)[k] == CanonOf(Lookup(es, k).value)
  {
    if es[0].key != k {
      CanonEntriesAt(es[1..], k);
    }
  }

  function KeySet(es: seq<Entry>): set<string> {
    set i | 0 <= i < |es| :: es[i].key
  }

  lemma {:induction false} LookupAt(es: seq<Entry>, i: nat)
    requires i < |es| && DistinctKeys(es)
    ensures Lookup(es, es[i].key) == Some(es[i].val)
  {
    if i > 0 {
      LookupAt(es[1..], i - 1);
    }
  }

  lemma {:induction false} LookupPosition(es: seq<Entry>, key: string) returns (i: nat)
    requires Lookup(es, key).Some?
    ensures i < |es| && es[i].key == key && es[i].val == Lookup(es, key).value
  {
    if es[0].key == key {
      i := 0;
    } else {
      i := LookupPosition(es[1..], key);
      i := i + 1;
    }
  }

  lemma LookupInKeySet(es: seq<Entry>, key: string)
    requires DistinctKeys(es)
    ensures Lookup(es, key).Some? <==> key in KeySet(es)
  {
    if Lookup(es, key).Some? {
      var i := LookupPosition(es, key);
    }
    if key in KeySet(es) {
      var i :| 0 <= i < |es| && es[i].key == key;
      LookupAt(es, i);
    }
  }

  lemma {:induction false} KeySetSize(es: seq<Entry>)
    requires DistinctKeys(es)
    ensures |KeySet(es)| == |es|
  {
    if es != [] {
      var n := |es| - 1;
      KeySetSize(es[..n]);
      assert KeySet(es) == KeySet(es[..n]) + {es[n].key};
      assert es[n].key !in KeySet(es[..n]);
    }
  }

  lemma SubsetOfSameSize<T>(a: set<T>, b: set<T>)
    requires a <= b && |a| == |b|
    ensures a == b
  {
    assert |b - a| == |b| - |a|;
  }

  /** `==` is exactly equality of canonical forms, so it is an equivalence. */
  lemma {:induction false} PyEqIsCanonical(a: Value, b: Value)
    requires WellFormed(a) && WellFormed(b)
    ensures PyEq(a, b) <==> CanonOf(a) == CanonOf(b)
    decreases a
  {
    if a.Arr? && b.Arr? && |a.items| == |b.items| {
      forall i | 0 <= i < |a.items|
        ensures PyEq(a.items[i], b.items[i]) <==> CanonItems(a.items)[i] == CanonItems(b.items)[i]
      {
        PyEqIsCanonical(a.items[i], b.items[i]);
      }
      assert PyEq(a, b) ==> CanonItems(a.items) == CanonItems(b.items);
    } else if a.Obj? && b.Obj? {
      DictEqIsCanonical(a, b);
    }
  }

  lemma DictEqIsCanonical(a: Value, b: Value)
    requires a.Obj? && b.Obj? && WellFormed(a) && WellFormed(b)
    ensures PyEq(a, b) <==> CanonOf(a) == CanonOf(b)
    decreases a, 0
  {
    var es, fs := a.entries, b.entries;
    KeySetSize(es);
    KeySetSize(fs);
    forall k
      ensures Lookup(es, k).Some? <==> k in KeySet(es)
      ensures Lookup(fs, k).Some? <==> k in KeySet(fs)
    {
      LookupInKeySet(es, k);
      LookupInKeySet(fs, k);
    }
    forall i | 0 <= i < |es| && Lookup(fs, es[i].key).Some?
      ensures PyEq(es[i].val, Lookup(fs, es[i].key).value) <==>
              CanonOf(es[i].val) == CanonOf(Lookup(fs, es[i].key).value)
      ensures Lookup(es, es[i].key) == Some(es[i].val)
    {
      var j := LookupPosition(fs, es[i].key);
      PyEqIsCanonical(es[i].val, fs[j].val);
      LookupAt(es, i);
    }
    if PyEq(a, b) {
      SubsetOfSameSize(KeySet(es), KeySet(fs));
      SameDicts(es, fs);
    }
    if CanonOf(a) == CanonOf(b) {
      assert CanonEntries(es) == CanonEntries(fs);
      assert KeySet(es) == KeySet(fs);
      forall i | 0 <= i < |es|
        ensures Lookup(fs, es[i].key).Some?
        ensures CanonOf(es[i].val) == CanonOf(Lookup(fs, es[i].key).value)
      {
        assert es[i].key in KeySet(es);
        CanonEntriesAt(es, es[i].key);
        CanonEntriesAt(fs, es[i].key);
      }
    }
  }

  lemma SameDicts(es: seq<Entry>, fs: seq<Entry>)
    requires forall k :: Lookup(es, k).Some? <==> Lookup(fs, k).Some?
    requires forall i :: 0 <= i < |es| && Lookup(fs, es[i].key).Some? ==>
      CanonOf(es[i].val) == CanonOf(Lookup(fs, es[i].key).value)
    ensures CanonEntries(es) == CanonEntries(fs)
  {
    forall k | k in CanonEntries(es) ensures CanonEntries(es)[k] == CanonEntries(fs)[k] {
      var i := LookupPosition(es, k);
      assert CanonOf(Lookup(es, k).value) == CanonOf(Lookup(fs, k).value);
      CanonEntriesAt(es, k);
      CanonEntriesAt(fs, k);
    }
  }
}
