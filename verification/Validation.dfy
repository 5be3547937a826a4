// `validate` (crawloop/validator.py): the schema, fill-floor and item-count gates.
module Validation {
  import opened Wrappers
  import opened Values
  import opened Validator

  datatype Reason =
    | Fine
    | NoItems
    | LowFill(field: string)
    | SchemaErrors(bad: nat, total: nat)
    | TooFew(count: nat)

  datatype Report = Report(
    ok: bool, reason: Reason, failures: seq<nat>, fillRates: map<string, real>, itemCount: nat)

  const MIN_FILL: real := 0.8
  const MIN_COUNT_RATIO: real := 0.5

  function FilledCount(items: seq<Record>, name: string): nat {
    if items == [] then 0
    else FilledCount(items[..|items| - 1], name) + if Get(items[|items| - 1], name).Null? then 0 else 1
  }

  function FillRate(items: seq<Record>, name: string): real
    requires items != []
  {
    FilledCount(items, name) as real / |items| as real
  }

  /** The filled rows are those whose value is not null. */
  lemma {:induction false} FilledExactly(items: seq<Record>, name: string)
    ensures FilledCount(items, name) == |set i | 0 <= i < |items| && !Get(items[i], name).Null?|
  {
    var filled := set i | 0 <= i < |items| && !Get(items[i], name).Null?;
    if items == [] {
      assert filled == {};
    } else {
      var front, n := items[..|items| - 1], |items| - 1;
      var before := set i | 0 <= i < |front| && !Get(front[i], name).Null?;
      FilledExactly(front, name);
      assert n !in before && filled == before + if Get(items[n], name).Null? then {} else {n};
    }
  }

  /** Positions of the rows the model rejects. */
  function Rejected(items: seq<Record>, sc: Schema): (bad: seq<nat>)
    ensures forall k :: k in bad <==> 0 <= k < |items| && !sc.accepts(items[k])
  {
    if items == [] then []
    else
      var n := |items| - 1;
      Rejected(items[..n], sc) + if sc.accepts(items[n]) then [] else [n]
  }

  /** A required field whose fill rate is below the floor. */
  predicate IsLow(items: seq<Record>, sc: Schema, name: string, minFill: real)
    requires items != []
  {
    name in sc.required && FillRate(items, name) < minFill
  }

  /** The gates, without their order: what a passing extraction satisfies. */
  predicate Acceptable(items: seq<Record>, sc: Schema, baseline: Option<nat>, minFill: real, minRatio: real) {
    && items != []
    && (forall i :: 0 <= i < |sc.fields| ==> !IsLow(items, sc, sc.fields[i], minFill))
    && (forall k :: 0 <= k < |items| ==> sc.accepts(items[k]))
    && (baseline.Some? ==> |items| as real >= minRatio * baseline.value as real)
  }

  /** `validate` with its defaults, as the gauntlet, the executor and the oracle call it. */
  predicate Accepted(items: seq<Record>, sc: Schema) {
    Acceptable(items, sc, None, MIN_FILL, MIN_COUNT_RATIO)
  }

  method FillRates(items: seq<Record>, sc: Schema) returns (rates: map<string, real>)
    requires items != []
    ensures rates.Keys == (set f | f in sc.fields)
    ensures forall f :: f in sc.fields ==> rates[f] == FillRate(items, f)
  {
    rates := map[];
    for i := 0 to |sc.fields|
      invariant rates.Keys == (set f | f in sc.fields[..i])
      invariant forall f :: f in sc.fields[..i] ==> rates[f] == FillRate(items, f)
    {
      var filled := 0;
      for k := 0 to |items|
        invariant filled == FilledCount(items[..k], sc.fields[i])
      {
        assert items[..k + 1][..k] == items[..k];
        if !Get(items[k], sc.fields[i]).Null? {
          filled := filled + 1;
        }
      }
      assert items[..|items|] == items;
      assert sc.fields[..i + 1] == sc.fields[..i] + [sc.fields[i]];
      rates := rates[sc.fields[i] := filled as real / |items| as real];
    }
    assert sc.fields[..|sc.fields|] == sc.fields;
  }

  /** `name` is the first required field, in declaration order, below the fill floor. */
  ghost predicate FirstLow(items: seq<Record>, sc: Schema, name: string, minFill: real)
    requires items != []
  {
    exists i :: 0 <= i < |sc.fields| && LowestAt(items, sc, i, minFill) && name == sc.fields[i]
  }

  ghost predicate LowestAt(items: seq<Record>, sc: Schema, i: nat, minFill: real)
    requires items != [] && i < |sc.fields|
  {
    && IsLow(items, sc, sc.fields[i], minFill)
    && forall j :: 0 <= j < i ==> !IsLow(items, sc, sc.fields[j], minFill)
  }

  method FindLow(items: seq<Record>, sc: Schema, rates: map<string, real>, minFill: real)
    returns (low: Option<string>)
    requires items != []
    requires forall f :: f in sc.fields ==> f in rates && rates[f] == FillRate(items, f)
    ensures low.None? <==> forall i :: 0 <= i < |sc.fields| ==> !IsLow(items, sc, sc.fields[i], minFill)
    ensures low.Some? ==> FirstLow(items, sc, low.value, minFill)
  {
    for i := 0 to |sc.fields|
      invariant forall j :: 0 <= j < i ==> !IsLow(items, sc, sc.fields[j], minFill)
    {
      if sc.fields[i] in sc.required && rates[sc.fields[i]] < minFill {
        assert LowestAt(items, sc, i, minFill);
        return Some(sc.fields[i]);
      }
    }
    low := None;
  }

  /** The per-row schema errors, which are collected whichever gate decides. */
  method SchemaFailures(items: seq<Record>, sc: Schema) returns (failures: seq<nat>)
    ensures failures == Rejected(items, sc)
    ensures failures == [] <==> forall k :: 0 <= k < |items| ==> sc.accepts(items[k])
  {
    failures := [];
    for i := 0 to |items|
      invariant failures == Rejected(items[..i], sc)
    {
      assert items[..i + 1][..i] == items[..i];
      if !sc.accepts(items[i]) {
        failures := failures + [i];
      }
    }
    assert items[..|items|] == items;
    assert failures != [] ==> failures[0] in failures;
    assert forall k :: 0 <= k < |items| && !sc.accepts(items[k]) ==> k in failures;
  }

  /** `validate`: passes exactly the acceptable extractions, and otherwise names the first
      failing gate in the order empty, fill, schema, count. */
  method Validate(items: seq<Record>, sc: Schema, baseline: Option<nat>, minFill: real, minRatio: real)
    returns (r: Report)
    ensures r.ok <==> Acceptable(items, sc, baseline, minFill, minRatio)
    ensures r.ok <==> r.reason.Fine?
    ensures items == [] ==> r.reason.NoItems?
    ensures items != [] ==> r.failures == Rejected(items, sc)
    ensures items != [] && (exists i :: 0 <= i < |sc.fields| && IsLow(items, sc, sc.fields[i], minFill))
      ==> r.reason.LowFill? && FirstLow(items, sc, r.reason.field, minFill)
    ensures items != [] && (forall i :: 0 <= i < |sc.fields| ==> !IsLow(items, sc, sc.fields[i], minFill))
      ==> r.reason == if Rejected(items, sc) != [] then SchemaErrors(|Rejected(items, sc)|, |items|)
                      else if r.ok then Fine else TooFew(|items|)
    ensures items != [] ==>
      && r.fillRates.Keys == (set f | f in sc.fields)
      && forall f :: f in sc.fields ==> r.fillRates[f] == FillRate(items, f)
    ensures r.itemCount == |items|
  {
    if items == [] {
      return Report(false, NoItems, [], map[], 0);
    }
    var failures := SchemaFailures(items, sc);
    var rates := FillRates(items, sc);
    var low := FindLow(items, sc, rates, minFill);
    var reason := Fine;
    if low.Some? {
      reason := LowFill(low.value);
    } else if failures != [] {
      reason := SchemaErrors(|failures|, |items|);
    } else if baseline.Some? && |items| as real < minRatio * baseline.value as real {
      reason := TooFew(|items|);
    }
    r := Report(reason.Fine?, reason, failures, rates, |items|);
  }
}
