// The residual set (crawloop/hybrid.py, crawloop/loop/driver.py): the fields the oracle
// fills and the promoted crawler never does, how large it can be after a pass, and the
// tail-fill that pays one model call exactly when the set is not empty.
module Hybrid {
  import opened Wrappers
  import opened Pages
  import opened Sorting
  import opened PyText
  import opened Values
  import opened FieldEquality
  import opened Validator
  import opened Validation
  import opened Gauntlet
  import opened Llm

  predicate RecordHas(r: Record, field: string) {
    !Get(r, field).Null?
  }

  predicate AnyRecordHas(records: seq<Record>, field: string) {
    exists i :: 0 <= i < |records| && RecordHas(records[i], field)
  }

  /** The crawler left `field` out of its output for sample `i`; a missing output counts as blank. */
  predicate Missed(outputs: seq<seq<Record>>, i: nat, field: string) {
    i >= |outputs| || !AnyRecordHas(outputs[i], field)
  }

  /** The oracle fills the field somewhere, and the crawler misses it wherever the oracle does. */
  predicate IsResidual(field: string, outputs: seq<seq<Record>>, oracles: seq<seq<Record>>) {
    && (exists i :: 0 <= i < |oracles| && AnyRecordHas(oracles[i], field))
    && (forall i :: 0 <= i < |oracles| && AnyRecordHas(oracles[i], field) ==> Missed(outputs, i, field))
  }

  function Residuals(fields: seq<string>, outputs: seq<seq<Record>>, oracles: seq<seq<Record>>): seq<string> {
    if fields == [] then []
    else
      var n := |fields| - 1;
      Residuals(fields[..n], outputs, oracles)
      + if IsResidual(fields[n], outputs, oracles) then [fields[n]] else []
  }

  function ResidualFields(outputs: seq<seq<Record>>, oracles: seq<seq<Record>>, sc: Schema): seq<string> {
    SortBy(Residuals(sc.fields, outputs, oracles), StrLe)
  }

  /** `compute_residual_fields`. */
  method ComputeResidualFields(outputs: seq<seq<Record>>, oracles: seq<seq<Record>>, sc: Schema)
    returns (residual: seq<string>)
    ensures residual == ResidualFields(outputs, oracles, sc)
  {
    residual := [];
    for k := 0 to |sc.fields|
      invariant residual == Residuals(sc.fields[..k], outputs, oracles)
    {
      var field := sc.fields[k];
      assert sc.fields[..k + 1][..k] == sc.fields[..k];
      var oracleHasIt, missedAll := false, true;
      for i := 0 to |oracles|
        invariant oracleHasIt <==> exists j :: 0 <= j < i && AnyRecordHas(oracles[j], field)
        invariant missedAll <==>
          forall j :: 0 <= j < i && AnyRecordHas(oracles[j], field) ==> Missed(outputs, j, field)
      {
        if AnyRecordHas(oracles[i], field) {
          oracleHasIt := true;
          missedAll := missedAll && Missed(outputs, i, field);
        }
      }
      if oracleHasIt && missedAll {
        residual := residual + [field];
      }
    }
    assert sc.fields[..|sc.fields|] == sc.fields;
    residual := SortBy(residual, StrLe);
  }

  lemma {:induction false} ResidualsExact(
    fields: seq<string>, outputs: seq<seq<Record>>, oracles: seq<seq<Record>>, f: string)
    ensures f in Residuals(fields, outputs, oracles) <==> f in fields && IsResidual(f, outputs, oracles)
    ensures |Residuals(fields, outputs, oracles)| <= |fields|
  {
    if fields != [] {
      var n := |fields| - 1;
      ResidualsExact(fields[..n], outputs, oracles, f);
      assert fields == fields[..n] + [fields[n]];
    }
  }

  lemma {:induction false} ResidualsDistinct(
    fields: seq<string>, outputs: seq<seq<Record>>, oracles: seq<seq<Record>>)
    requires forall i, j :: 0 <= i < j < |fields| ==> fields[i] != fields[j]
    ensures |Residuals(fields, outputs, oracles)| ==
      |set f | f in fields && IsResidual(f, outputs, oracles)|
  {
    if fields == [] {
      assert (set f | f in fields && IsResidual(f, outputs, oracles)) == {};
    } else {
      ResidualsDistinct(fields[..|fields| - 1], outputs, oracles);
      LastResidual(fields, outputs, oracles);
    }
  }

  lemma LastResidual(fields: seq<string>, outputs: seq<seq<Record>>, oracles: seq<seq<Record>>)
    requires fields != [] && forall i, j :: 0 <= i < j < |fields| ==> fields[i] != fields[j]
    ensures var last := fields[|fields| - 1];
      var before := set f | f in fields[..|fields| - 1] && IsResidual(f, outputs, oracles);
      && last !in before
      && (set f | f in fields && IsResidual(f, outputs, oracles)) ==
           before + if IsResidual(last, outputs, oracles) then {last} else {}
  {
    assert fields == fields[..|fields| - 1] + [fields[|fields| - 1]];
  }

  /** The persisted list is sorted and holds exactly the residual schema fields, once each. */
  lemma ResidualFieldsExact(outputs: seq<seq<Record>>, oracles: seq<seq<Record>>, sc: Schema)
    requires ValidSchema(sc)
    ensures var r := ResidualFields(outputs, oracles, sc);
      && Ordered(r, StrLe)
      && (forall f :: f in r <==> f in sc.fields && IsResidual(f, outputs, oracles))
      && |r| == |set f | f in sc.fields && IsResidual(f, outputs, oracles)|
  {
    var list := Residuals(sc.fields, outputs, oracles);
    StrLeTotalPreorder();
    SortOrdered(list, StrLe);
    SortPermutes(list, StrLe);
    ResidualsDistinct(sc.fields, outputs, oracles);
    forall f
      ensures f in SortBy(list, StrLe) <==> f in sc.fields && IsResidual(f, outputs, oracles)
    {
      SameMembers(SortBy(list, StrLe), list, f);
      ResidualsExact(sc.fields, outputs, oracles, f);
    }
  }

  /** An output that is missing counts as an empty one. */
  lemma MissingIsBlank(outputs: seq<seq<Record>>, oracles: seq<seq<Record>>, sc: Schema, f: string)
    requires |outputs| < |oracles|
    ensures IsResidual(f, outputs, oracles) <==> IsResidual(f, outputs + [[]], oracles)
  {
    var more := outputs + [[]];
    forall i | 0 <= i < |oracles| ensures Missed(more, i, f) <==> Missed(outputs, i, f) {
      if i < |outputs| {
        assert more[i] == outputs[i];
      } else if i == |outputs| {
        assert more[i] == [];
      }
    }
  }

  // ---- the winner's residual set ----

  /** What the winner produces on every sample; a crash produces nothing. */
  function WinnerOutputs(src: Source, b: Bench): seq<seq<Record>>
    requires |b.samples| == |b.oracles|
  {
    seq(|b.samples|, i requires 0 <= i < |b.samples| =>
      var out := b.OnSample(src, i); if out.Some? then out.value else [])
  }

  /** `_residual_fields`. */
  function WinnerResidual(src: Source, b: Bench): seq<string>
    requires |b.samples| == |b.oracles|
  {
    ResidualFields(WinnerOutputs(src, b), b.oracles, b.sc)
  }

  method ComputeWinnerResidual(src: Source, b: Bench) returns (residual: seq<string>)
    requires |b.samples| == |b.oracles|
    ensures residual == WinnerResidual(src, b)
  {
    var outputs: seq<seq<Record>> := [];
    for i := 0 to |b.samples|
      invariant outputs == WinnerOutputs(src, b)[..i]
    {
      var out := b.run(src, b.samples[i].html, b.samples[i].url);
      outputs := outputs + [if out.Some? then out.value else []];
    }
    assert outputs == WinnerOutputs(src, b);
    residual := ComputeResidualFields(outputs, b.oracles, b.sc);
  }

  function TotalRows(oracles: seq<seq<Record>>): nat {
    if oracles == [] then 0 else TotalRows(oracles[..|oracles| - 1]) + |oracles[|oracles| - 1]|
  }

  /** Schema fields some oracle row fills while the whole output misses them. */
  ghost function Gaps(output: seq<Record>, oracle: seq<Record>, sc: Schema): set<string> {
    set f | f in sc.fields && AnyRecordHas(oracle, f) && !AnyRecordHas(output, f)
  }

  lemma UnionBound<T>(a: set<T>, b: set<T>, c: set<T>)
    requires a <= b + c
    ensures |a| <= |b| + |c|
  {
    var d := a - b;
    assert a <= b + d && |b + d| == |b| + |d|;
    Subset(a, b + d);
    Subset(d, c);
  }

  lemma {:induction false} Subset<T>(a: set<T>, b: set<T>)
    requires a <= b
    ensures |a| <= |b|
  {
    assert |b - a| == |b| - |a|;
  }

  /** A row missing a field the oracle row fills disagrees on it. */
  lemma GapIsDisagreement(actual: Record, expected: Record, f: string, sc: Schema)
    requires f in sc.fields && RecordHas(expected, f) && !RecordHas(actual, f)
    ensures f in Disagreements(actual, expected, sc)
  {
    MissingAgreesOnlyWithMissing(Get(expected, f), f in sc.volatile);
  }

  lemma {:induction false} GapsOnPage(
    output: seq<Record>, oracle: seq<Record>, row: seq<nat>, sc: Schema, slack: nat, n: nat)
    requires n <= |oracle| <= |row|
    requires forall j :: 0 <= j < |oracle| ==> row[j] < |output|
    requires forall j :: 0 <= j < |oracle| ==> |Disagreements(output[row[j]], oracle[j], sc)| <= slack
    ensures |Gaps(output, oracle[..n], sc)| <= slack * n
  {
    if n == 0 {
      assert Gaps(output, oracle[..0], sc) == {};
    } else {
      GapsOnPage(output, oracle, row, sc, slack, n - 1);
      var last := Disagreements(output[row[n - 1]], oracle[n - 1], sc);
      var before := Gaps(output, oracle[..n - 1], sc);
      GapsOfOneMoreRow(output, oracle, row[n - 1], sc, n);
      UnionBound(Gaps(output, oracle[..n], sc), before, last);
      assert slack * n == slack * (n - 1) + slack;
    }
  }

  lemma GapsOfOneMoreRow(output: seq<Record>, oracle: seq<Record>, k: nat, sc: Schema, n: nat)
    requires 0 < n <= |oracle| && k < |output|
    ensures Gaps(output, oracle[..n], sc) <=
      Gaps(output, oracle[..n - 1], sc) + Disagreements(output[k], oracle[n - 1], sc)
  {
    forall f | f in Gaps(output, oracle[..n], sc)
      ensures f in Gaps(output, oracle[..n - 1], sc) + Disagreements(output[k], oracle[n - 1], sc)
    {
      var i :| 0 <= i < n && RecordHas(oracle[..n][i], f);
      if i < n - 1 {
        assert RecordHas(oracle[..n - 1][i], f);
      } else {
        GapIsDisagreement(output[k], oracle[n - 1], f, sc);
      }
    }
  }

  ghost function GapsSoFar(src: Source, b: Bench, n: nat): set<string>
    requires n <= |b.samples| == |b.oracles|
  {
    if n == 0 then {}
    else GapsSoFar(src, b, n - 1) + Gaps(WinnerOutputs(src, b)[n - 1], b.oracles[n - 1], b.sc)
  }

  lemma PageGapsBounded(src: Source, b: Bench, i: nat)
    requires i < |b.samples| == |b.oracles|
    requires ValidSchema(b.sc) && ScoreOf(src, b, AGREEMENT_BAR).passed
    ensures |Gaps(WinnerOutputs(src, b)[i], b.oracles[i], b.sc)| <= |b.sc.fields| / 50 * |b.oracles[i]|
  {
    var row := SampleRowsCorrespond(src, b, i);
    var output, oracle := WinnerOutputs(src, b)[i], b.oracles[i];
    GapsOnPage(output, oracle, row, b.sc, |b.sc.fields| / 50, |oracle|);
    assert oracle[..|oracle|] == oracle;
  }

  /** `slack` differing fields for every row of every page. */
  function RowBudget(slack: nat, oracles: seq<seq<Record>>): nat {
    if oracles == [] then 0
    else RowBudget(slack, oracles[..|oracles| - 1]) + slack * |oracles[|oracles| - 1]|
  }

  lemma RowBudgetOfOneMore(slack: nat, oracles: seq<seq<Record>>, n: nat)
    requires 0 < n <= |oracles|
    ensures RowBudget(slack, oracles[..n]) == RowBudget(slack, oracles[..n - 1]) + slack * |oracles[n - 1]|
  {
    assert oracles[..n][..n - 1] == oracles[..n - 1];
  }

  lemma {:induction false} RowBudgetIsProduct(slack: nat, oracles: seq<seq<Record>>)
    ensures RowBudget(slack, oracles) == slack * TotalRows(oracles)
  {
    if oracles != [] {
      var n := |oracles| - 1;
      RowBudgetIsProduct(slack, oracles[..n]);
      Distribute(slack, TotalRows(oracles[..n]), |oracles[n]|);
    }
  }

  lemma Distribute(a: nat, x: nat, y: nat)
    ensures a * (x + y) == a * x + a * y
    ensures a == 0 ==> a * x == 0
  {
  }

  lemma GapsOfOneMorePage(src: Source, b: Bench, n: nat, bound: nat)
    requires 0 < n <= |b.samples| == |b.oracles|
    requires |Gaps(WinnerOutputs(src, b)[n - 1], b.oracles[n - 1], b.sc)| <= bound
    ensures |GapsSoFar(src, b, n)| <= |GapsSoFar(src, b, n - 1)| + bound
  {
    var page := Gaps(WinnerOutputs(src, b)[n - 1], b.oracles[n - 1], b.sc);
    UnionBound(GapsSoFar(src, b, n), GapsSoFar(src, b, n - 1), page);
  }

  lemma {:induction false} GapsBounded(src: Source, b: Bench, n: nat)
    requires n <= |b.samples| == |b.oracles|
    requires ValidSchema(b.sc) && ScoreOf(src, b, AGREEMENT_BAR).passed
    ensures |GapsSoFar(src, b, n)| <= RowBudget(|b.sc.fields| / 50, b.oracles[..n])
  {
    if n > 0 {
      GapsBounded(src, b, n - 1);
      PageGapsBounded(src, b, n - 1);
      GapsOfOneMorePage(src, b, n, |b.sc.fields| / 50 * |b.oracles[n - 1]|);
      RowBudgetOfOneMore(|b.sc.fields| / 50, b.oracles, n);
    }
  }

  lemma {:induction false} GapsReach(src: Source, b: Bench, n: nat, i: nat, f: string)
    requires i < n <= |b.samples| == |b.oracles|
    requires f in Gaps(WinnerOutputs(src, b)[i], b.oracles[i], b.sc)
    ensures f in GapsSoFar(src, b, n)
  {
    if i < n - 1 {
      GapsReach(src, b, n - 1, i, f);
    }
  }

  /** After a pass the residual set holds at most one field in fifty per oracle row. */
  lemma ResidualBound(src: Source, b: Bench)
    requires |b.samples| == |b.oracles|
    requires ValidSchema(b.sc) && ScoreOf(src, b, AGREEMENT_BAR).passed
    ensures |WinnerResidual(src, b)| <= |b.sc.fields| / 50 * TotalRows(b.oracles)
  {
    var outputs, n := WinnerOutputs(src, b), |b.samples|;
    var residual := set f | f in b.sc.fields && IsResidual(f, outputs, b.oracles);
    ResidualFieldsExact(outputs, b.oracles, b.sc);
    forall f | f in residual ensures f in GapsSoFar(src, b, n) {
      var i :| 0 <= i < |b.oracles| && AnyRecordHas(b.oracles[i], f);
      assert Missed(outputs, i, f);
      GapsReach(src, b, n, i, f);
    }
    Subset(residual, GapsSoFar(src, b, n));
    GapsBounded(src, b, n);
    assert b.oracles[..n] == b.oracles;
    RowBudgetIsProduct(|b.sc.fields| / 50, b.oracles);
  }

  /** With at most 49 fields a promoted winner has nothing left to fill. */
  lemma ResidualEmpty(src: Source, b: Bench)
    requires |b.samples| == |b.oracles| && |b.sc.fields| <= 49
    requires ValidSchema(b.sc) && ScoreOf(src, b, AGREEMENT_BAR).passed
    ensures WinnerResidual(src, b) == []
  {
    ResidualBound(src, b);
    Distribute(|b.sc.fields| / 50, TotalRows(b.oracles), 0);
  }

  // ---- the edge is sharp: from 50 fields on, a pass can leave a field blank ----

  function NumberedSchema(n: nat): Schema {
    Schema(seq(n, i requires 0 <= i < n => IntText(i)), {}, {}, _ => true)
  }

  function FullRow(sc: Schema): Record {
    map f | f in sc.fields :: Str("x")
  }

  function BlankBench(n: nat): Bench
    requires n > 0
  {
    var sc := NumberedSchema(n);
    Bench([Page("u", "h")], [[FullRow(sc)]], [], sc,
          (_, _, _) => Some([FullRow(sc) - {sc.fields[n - 1]}]))
  }

  lemma NumberedSchemaValid(n: nat)
    ensures ValidSchema(NumberedSchema(n)) && AlignKey(NumberedSchema(n)) == None
  {
    var sc := NumberedSchema(n);
    forall i, j | 0 <= i < j < n ensures sc.fields[i] != sc.fields[j] {
      if sc.fields[i] == sc.fields[j] {
        IntTextInjective(i, j);
      }
    }
    forall k | k in ALIGN_KEYS ensures k !in sc.fields {
      forall i | 0 <= i < n ensures sc.fields[i] != k {
        NatTextValue(i);
      }
    }
    assert forall k :: 0 <= k < |ALIGN_KEYS| ==> ALIGN_KEYS[k] in ALIGN_KEYS;
    NoneDeclared(ALIGN_KEYS, sc.fields);
  }

  lemma {:induction false} NoneDeclared(keys: seq<string>, fields: seq<string>)
    requires forall i :: 0 <= i < |keys| ==> keys[i] !in fields
    ensures FirstDeclared(keys, fields) == None
  {
    if keys != [] {
      NoneDeclared(keys[1..], fields);
    }
  }

  lemma BlankPasses(n: nat)
    requires n >= 50
    ensures ScoreOf("s", BlankBench(n), AGREEMENT_BAR).passed
  {
    var b := BlankBench(n);
    NumberedSchemaValid(n);
    BlankPairWithin(n);
    assert b.OnSample("s", 0) == Some([FullRow(b.sc) - {b.sc.fields[n - 1]}]);
    PassMeansPromotable("s", b);
  }

  lemma BlankIsResidual(n: nat)
    requires n > 0
    ensures WinnerResidual("s", BlankBench(n)) != []
  {
    var b := BlankBench(n);
    var full, last := FullRow(b.sc), b.sc.fields[n - 1];
    var outputs := WinnerOutputs("s", b);
    NumberedSchemaValid(n);
    assert last in b.sc.fields;
    assert outputs == [[full - {last}]];
    assert full[last] == Str("x") && RecordHas(b.oracles[0][0], last);
    assert !AnyRecordHas(outputs[0], last);
    assert IsResidual(last, outputs, b.oracles);
    ResidualFieldsExact(outputs, b.oracles, b.sc);
  }

  /** For every field count from 50 up, some candidate passes and still has a residual field. */
  lemma EdgeIsSharp(n: nat)
    requires n >= 50
    ensures var b := BlankBench(n);
      && ValidSchema(b.sc) && |b.sc.fields| == n && |b.samples| == |b.oracles|
      && ScoreOf("s", b, AGREEMENT_BAR).passed
      && WinnerResidual("s", b) != []
  {
    NumberedSchemaValid(n);
    BlankPasses(n);
    BlankIsResidual(n);
  }

  lemma BlankPairWithin(n: nat)
    requires n >= 50
    ensures var sc := NumberedSchema(n);
      PairsWithin([FullRow(sc) - {sc.fields[n - 1]}], [FullRow(sc)], sc, n / 50)
  {
    var sc := NumberedSchema(n);
    NumberedSchemaValid(n);
    var full, last := FullRow(sc), sc.fields[n - 1];
    var blank := full - {last};
    var d := Disagreements(blank, full, sc);
    forall f | f in sc.fields && f != last ensures f !in d {
      assert Get(blank, f) == Get(full, f) == Str("x");
    }
    Subset(d, {last});
    var pairs := AlignedPairs([blank], [full], AlignKey(sc));
    assert pairs == [(blank, full)];
  }

  // ---- filling the tail ----

  predicate IsBlank(v: Value) {
    v.Null? || (v.Str? && Strip(v.s) == "")
  }

  /** What survives of a parsed answer: residual keys with a non-blank value of the field's type. */
  function Usable(parsed: Record, field: string, coerce: (string, Value) -> Option<Value>): Option<Value> {
    if field !in parsed || IsBlank(parsed[field]) then None else coerce(field, parsed[field])
  }

  /** The tail a parsed answer gives: every usable residual field, coerced. */
  function TailOf(parsed: Record, fields: seq<string>, coerce: (string, Value) -> Option<Value>): Record {
    map f | f in fields && Usable(parsed, f, coerce).Some? :: Usable(parsed, f, coerce).value
  }

  /** The tail an answer gives; an error or an answer that does not parse gives none. */
  function TailFrom(
    answer: Completion, fields: seq<string>, parse: string -> Option<Record>,
    coerce: (string, Value) -> Option<Value>): Record
  {
    var parsed := if answer.Answer? then parse(answer.text) else None;
    if parsed.None? then map[] else TailOf(parsed.value, fields, coerce)
  }

  /** Of an answer exactly the residual fields survive that it gives a value which is neither null nor
      blank text and which coerces to the field's type, so coerced. */
  lemma TailIsUsable(parsed: Record, fields: seq<string>, coerce: (string, Value) -> Option<Value>, f: string)
    ensures var tail := TailOf(parsed, fields, coerce);
      && (f in tail <==>
            && f in fields && RecordHas(parsed, f) && coerce(f, parsed[f]).Some?
            && (parsed[f].Str? ==> Strip(parsed[f].s) != ""))
      && (f in tail ==> Some(tail[f]) == coerce(f, parsed[f]))
  {
  }

  /** `fill_residual`: no call when there is nothing to fill, otherwise exactly one, and never an error. */
  method FillResidual(
    c: Completer, fields: seq<string>,
    parse: string -> Option<Record>, coerce: (string, Value) -> Option<Value>) returns (tail: Record)
    modifies c
    ensures c.calls == old(c.calls) + if fields == [] then 0 else 1
    ensures tail == if fields == [] then map[] else TailFrom(c.answers(old(c.calls)), fields, parse, coerce)
    ensures forall f :: f in tail ==> f in fields
  {
    if fields == [] {
      return map[];
    }
    var answer := c.Complete();
    if answer.ProviderError? {
      return map[];
    }
    var parsed := parse(answer.text);
    if parsed.None? {
      return map[];
    }
    tail := map[];
    for i := 0 to |fields|
      invariant tail == TailOf(parsed.value, fields[..i], coerce)
    {
      assert fields[..i + 1] == fields[..i] + [fields[i]];
      var value := Usable(parsed.value, fields[i], coerce);
      if value.Some? {
        tail := tail[fields[i] := value.value];
      }
    }
    assert fields[..|fields|] == fields;
  }

  /** The record with the tail's values for the keys in `done` merged in. */
  function Merged(deterministic: Record, tail: Record, done: set<string>): Record
    requires done <= tail.Keys
  {
    map f | f in deterministic.Keys + done ::
      if RecordHas(deterministic, f) || f !in done then deterministic[f] else tail[f]
  }

  /** `merge_record`. */
  method MergeRecord(deterministic: Record, tail: Record) returns (merged: Record)
    ensures merged == Merged(deterministic, tail, tail.Keys)
  {
    merged := deterministic;
    var left := tail.Keys;
    while left != {}
      invariant left <= tail.Keys
      invariant merged == Merged(deterministic, tail, tail.Keys - left)
      decreases |left|
    {
      var f :| f in left;
      left := left - {f};
      if Get(merged, f).Null? {
        merged := merged[f := tail[f]];
      }
    }
    assert tail.Keys - left == tail.Keys;
  }

  /** The deterministic value wins wherever there is one; the tail fills only gaps. */
  lemma MergeKeepsDeterministic(deterministic: Record, tail: Record, f: string)
    ensures var v := Get(Merged(deterministic, tail, tail.Keys), f);
      v == if RecordHas(deterministic, f) then deterministic[f] else Get(tail, f)
  {
  }
}
