// Gates over already-extracted rows (crawloop/validator.py): alignment, per-row
// agreement, the two views of agreement, and the schema/fill/count validation.
module Validator {
  import opened Wrappers
  import opened Sorting
  import opened Averages
  import opened Values
  import opened FieldEquality

  /** A pydantic model: its fields in order, which are required or volatile, and whether it accepts a row. */
  datatype Schema = Schema(
    fields: seq<string>, required: set<string>, volatile: set<string>, accepts: Record -> bool)

  ghost predicate ValidSchema(sc: Schema) {
    forall i, j :: 0 <= i < j < |sc.fields| ==> sc.fields[i] != sc.fields[j]
  }

  // ---- alignment ----

  const ALIGN_KEYS: seq<string> := ["url", "name", "title", "text"]

  function FirstDeclared(keys: seq<string>, fields: seq<string>): Option<string> {
    if keys == [] then None
    else if keys[0] in fields then Some(keys[0])
    else FirstDeclared(keys[1..], fields)
  }

  /** `_align_key`. */
  function AlignKey(sc: Schema): Option<string> {
    FirstDeclared(ALIGN_KEYS, sc.fields)
  }

  /** `str(item.get(key, ""))`. */
  function KeyText(r: Record, key: string): string {
    if key in r then Text(r[key]) else ""
  }

  function KeyOrder(key: string): (Record, Record) -> bool {
    (x, y) => StrLe(KeyText(x, key), KeyText(y, key))
  }

  function Align(items: seq<Record>, key: Option<string>): seq<Record> {
    match key
    case None => items
    case Some(k) => SortBy(items, KeyOrder(k))
  }

  function Pad(items: seq<Record>, n: nat): seq<Record> {
    if |items| >= n then items else items + seq(n - |items|, _ => map[])
  }

  /** `_aligned_pairs`. */
  function AlignedPairs(a: seq<Record>, b: seq<Record>, key: Option<string>): (r: seq<(Record, Record)>)
    ensures |r| == if |a| < |b| then |b| else |a|
  {
    var n := if |a| < |b| then |b| else |a|;
    AlignKeepsRows(a, key);
    AlignKeepsRows(b, key);
    var pa, pb := Pad(Align(a, key), n), Pad(Align(b, key), n);
    seq(n, i requires 0 <= i < n => (pa[i], pb[i]))
  }

  lemma AlignKeepsRows(items: seq<Record>, key: Option<string>)
    ensures |Align(items, key)| == |items|
    ensures multiset(Align(items, key)) == multiset(items)
  {
    if key.Some? {
      SortPermutes(items, KeyOrder(key.value));
    }
  }

  // ---- agreement of one pair ----

  predicate FieldAgrees(a: Record, b: Record, name: string, volatile: set<string>) {
    FieldEqual(Get(a, name), Get(b, name), name in volatile)
  }

  function AgreeCount(a: Record, b: Record, fields: seq<string>, volatile: set<string>): nat {
    if fields == [] then 0
    else
      AgreeCount(a, b, fields[..|fields| - 1], volatile)
      + if FieldAgrees(a, b, fields[|fields| - 1], volatile) then 1 else 0
  }

  /** The fields on which the pair differs. */
  function Disagreements(a: Record, b: Record, sc: Schema): set<string> {
    Differing(a, b, sc.fields, sc.volatile)
  }

  function Differing(a: Record, b: Record, fields: seq<string>, volatile: set<string>): set<string> {
    set f | f in fields && !FieldAgrees(a, b, f, volatile)
  }

  /** `_pair_agreement`. */
  method PairAgreement(a: Record, b: Record, fields: seq<string>, volatile: set<string>)
    returns (agree: nat, total: nat)
    ensures agree == AgreeCount(a, b, fields, volatile) && total == |fields|
  {
    agree := 0;
    for i := 0 to |fields|
      invariant agree == AgreeCount(a, b, fields[..i], volatile)
    {
      assert fields[..i + 1][..i] == fields[..i];
      if FieldEqual(Get(a, fields[i]), Get(b, fields[i]), fields[i] in volatile) {
        agree := agree + 1;
      }
    }
    assert fields[..|fields|] == fields;
    total := |fields|;
  }

  lemma CountIsComplement(a: Record, b: Record, sc: Schema)
    requires ValidSchema(sc)
    ensures AgreeCount(a, b, sc.fields, sc.volatile) + |Disagreements(a, b, sc)| == |sc.fields|
  {
    CountsAddUp(a, b, sc.fields, sc.volatile);
  }

  lemma {:induction false} CountsAddUp(a: Record, b: Record, fields: seq<string>, volatile: set<string>)
    requires forall i, j :: 0 <= i < j < |fields| ==> fields[i] != fields[j]
    ensures AgreeCount(a, b, fields, volatile) + |Differing(a, b, fields, volatile)| == |fields|
  {
    if fields == [] {
      assert Differing(a, b, fields, volatile) == {};
    } else {
      var front, last := fields[..|fields| - 1], fields[|fields| - 1];
      CountsAddUp(a, b, front, volatile);
      LastField(a, b, front, last, volatile);
      assert fields == front + [last];
    }
  }

  lemma LastField(a: Record, b: Record, front: seq<string>, last: string, volatile: set<string>)
    requires last !in front
    ensures last !in Differing(a, b, front, volatile)
    ensures Differing(a, b, front + [last], volatile) ==
      Differing(a, b, front, volatile) + if FieldAgrees(a, b, last, volatile) then {} else {last}
  {
  }

  function PairScore(a: Record, b: Record, sc: Schema): real {
    if sc.fields == [] then 1.0
    else AgreeCount(a, b, sc.fields, sc.volatile) as real / |sc.fields| as real
  }

  /** The 0.98 bar in whole fields: a pair clears it exactly when it misses at most one field in fifty. */
  lemma BarInFields(a: Record, b: Record, sc: Schema)
    requires ValidSchema(sc)
    ensures PairScore(a, b, sc) <= 1.0
    ensures PairScore(a, b, sc) >= 0.98 <==> |Disagreements(a, b, sc)| <= |sc.fields| / 50
    ensures PairScore(a, b, sc) == 1.0 <==> Disagreements(a, b, sc) == {}
  {
    CountIsComplement(a, b, sc);
    if sc.fields != [] {
      RatioBar(AgreeCount(a, b, sc.fields, sc.volatile), |sc.fields|);
    } else {
      assert Disagreements(a, b, sc) == {};
    }
  }

  // ---- agreement of two lists ----

  function PairScores(pairs: seq<(Record, Record)>, sc: Schema): (r: seq<real>)
    ensures |r| == |pairs|
  {
    seq(|pairs|, i requires 0 <= i < |pairs| => PairScore(pairs[i].0, pairs[i].1, sc))
  }

  function PairCounts(pairs: seq<(Record, Record)>, sc: Schema): (r: seq<nat>)
    ensures |r| == |pairs|
  {
    seq(|pairs|, i requires 0 <= i < |pairs| =>
      AgreeCount(pairs[i].0, pairs[i].1, sc.fields, sc.volatile))
  }

  /** `AgreementDetail`. */
  datatype Detail = Detail(mean: real, minItem: real, countMatch: bool, nItems: nat)

  function DetailOf(actual: seq<Record>, oracle: seq<Record>, sc: Schema): Detail {
    if actual == [] && oracle == [] then Detail(1.0, 1.0, true, 0)
    else if actual == [] || oracle == [] then Detail(0.0, 0.0, |actual| == |oracle|, |oracle|)
    else
      var scores := PairScores(AlignedPairs(actual, oracle, AlignKey(sc)), sc);
      Detail(Sum(scores) / (|scores| as real), Min(scores), |actual| == |oracle|, |oracle|)
  }

  /** What is reported beside the scores: whether the lists are equally long, and how many rows the
      oracle has. */
  lemma DetailCounts(actual: seq<Record>, oracle: seq<Record>, sc: Schema)
    ensures var d := DetailOf(actual, oracle, sc);
      (d.countMatch <==> |actual| == |oracle|) && d.nItems == |oracle|
  {
  }

  lemma OneMoreScore(want: seq<real>, got: seq<real>, i: nat, score: real)
    requires i < |want| && got == want[..i] && want[i] == score
    ensures got + [score] == want[..i + 1]
  {
  }

  /** `agreement_detail`: keeps each pair's score, then reports mean and minimum. */
  method AgreementDetail(actual: seq<Record>, oracle: seq<Record>, sc: Schema) returns (d: Detail)
    ensures d == DetailOf(actual, oracle, sc)
  {
    var countMatch := |actual| == |oracle|;
    if actual == [] && oracle == [] {
      return Detail(1.0, 1.0, true, 0);
    }
    if actual == [] || oracle == [] {
      return Detail(0.0, 0.0, countMatch, |oracle|);
    }
    var pairs := AlignedPairs(actual, oracle, AlignKey(sc));
    ghost var scores := PairScores(pairs, sc);
    var perItem: seq<real> := [];
    for i := 0 to |pairs|
      invariant perItem == scores[..i]
    {
      var agree, total := PairAgreement(pairs[i].0, pairs[i].1, sc.fields, sc.volatile);
      var score := if total != 0 then agree as real / total as real else 1.0;
      OneMoreScore(scores, perItem, i, score);
      perItem := perItem + [score];
    }
    assert scores[..|pairs|] == scores;
    d := Detail(Sum(perItem) / (|perItem| as real), Min(perItem), countMatch, |oracle|);
  }

  function Pooled(actual: seq<Record>, oracle: seq<Record>, sc: Schema): real {
    if actual == [] && oracle == [] then 1.0
    else if actual == [] || oracle == [] then 0.0
    else
      var counts := PairCounts(AlignedPairs(actual, oracle, AlignKey(sc)), sc);
      Share(Total(counts), Comparisons(|counts|, |sc.fields|))
  }

  /** The share of agreeing comparisons, all of them when there are none. */
  function Share(agree: nat, total: nat): real {
    if total == 0 then 1.0 else agree as real / total as real
  }

  /** Comparisons made for `rows` rows of `fields` fields. */
  function Comparisons(rows: nat, fields: nat): nat {
    if rows == 0 then 0 else Comparisons(rows - 1, fields) + fields
  }

  lemma {:induction false} ComparisonsAre(rows: nat, fields: nat)
    ensures Comparisons(rows, fields) == rows * fields
  {
    if rows > 0 {
      ComparisonsAre(rows - 1, fields);
    }
  }

  lemma OneMoreCount(counts: seq<nat>, i: nat, count: nat)
    requires i < |counts| && counts[i] == count
    ensures Total(counts[..i + 1]) == Total(counts[..i]) + count
  {
    assert counts[..i + 1][..i] == counts[..i];
  }

  /** `items_agreement`: agreeing comparisons over all comparisons. */
  method ItemsAgreement(actual: seq<Record>, oracle: seq<Record>, sc: Schema) returns (mean: real)
    ensures mean == Pooled(actual, oracle, sc)
  {
    if actual == [] && oracle == [] {
      return 1.0;
    }
    if actual == [] || oracle == [] {
      return 0.0;
    }
    var pairs := AlignedPairs(actual, oracle, AlignKey(sc));
    ghost var counts := PairCounts(pairs, sc);
    var agree, total := 0, 0;
    for i := 0 to |pairs|
      invariant agree == Total(counts[..i]) && total == Comparisons(i, |sc.fields|)
    {
      var pairAgree, pairTotal := PairAgreement(pairs[i].0, pairs[i].1, sc.fields, sc.volatile);
      OneMoreCount(counts, i, pairAgree);
      agree, total := agree + pairAgree, total + pairTotal;
    }
    assert counts[..|pairs|] == counts;
    mean := Share(agree, total);
  }

  /** The per-row mean and the pooled mean are the same number, for every input. */
  lemma MeanIsPooled(actual: seq<Record>, oracle: seq<Record>, sc: Schema)
    ensures DetailOf(actual, oracle, sc).mean == Pooled(actual, oracle, sc)
  {
    if actual != [] && oracle != [] {
      var pairs := AlignedPairs(actual, oracle, AlignKey(sc));
      var scores, counts := PairScores(pairs, sc), PairCounts(pairs, sc);
      if sc.fields == [] {
        MeanIsOne(scores);
        ComparisonsAre(|counts|, 0);
      } else {
        assert Fractions(scores, counts, |sc.fields| as real);
        MeanOfFractions(scores, counts, |sc.fields|);
        ComparisonsAre(|counts|, |sc.fields|);
      }
    }
  }

  /** Rows with the same alignment key are the same row; so it is when keys are pairwise distinct. */
  ghost predicate KeysDecideRows(items: seq<Record>, sc: Schema) {
    && AlignKey(sc).Some?
    && forall i, j :: 0 <= i < j < |items| ==>
         KeyText(items[i], AlignKey(sc).value) == KeyText(items[j], AlignKey(sc).value) ==> items[i] == items[j]
  }

  lemma KeyOrderTotal(key: string)
    ensures TotalPreorder(KeyOrder(key))
  {
    StrLeTotalPreorder();
  }

  lemma AlignForgetsOrder(a: seq<Record>, b: seq<Record>, sc: Schema)
    requires KeysDecideRows(a, sc) && multiset(a) == multiset(b)
    ensures Align(a, AlignKey(sc)) == Align(b, AlignKey(sc))
  {
    var key := AlignKey(sc).value;
    KeyOrderTotal(key);
    forall x, y | x in a && y in a && KeyOrder(key)(x, y) && KeyOrder(key)(y, x) ensures x == y {
      StrLeTotal(KeyText(x, key), KeyText(y, key));
    }
    SortForgetsOrder(a, b, KeyOrder(key));
  }

  /** Then row order is invisible to both views. */
  lemma DetailForgetsOrder(
    actual: seq<Record>, oracle: seq<Record>, actual': seq<Record>, oracle': seq<Record>, sc: Schema)
    requires KeysDecideRows(actual, sc) && multiset(actual) == multiset(actual')
    requires KeysDecideRows(oracle, sc) && multiset(oracle) == multiset(oracle')
    ensures DetailOf(actual, oracle, sc) == DetailOf(actual', oracle', sc)
    ensures Pooled(actual, oracle, sc) == Pooled(actual', oracle', sc)
  {
    AlignForgetsOrder(actual, actual', sc);
    AlignForgetsOrder(oracle, oracle', sc);
    assert |multiset(actual)| == |actual| && |multiset(actual')| == |actual'|;
    assert |multiset(oracle)| == |oracle| && |multiset(oracle')| == |oracle'|;
    MeanIsPooled(actual, oracle, sc);
    MeanIsPooled(actual', oracle', sc);
  }

  // ---- alignment, by the fields that are declared ----

  /** Rows with the same text under `key` are the same row. */
  ghost predicate DecidedBy(items: seq<Record>, key: string) {
    forall i, j :: 0 <= i < j < |items| && KeyText(items[i], key) == KeyText(items[j], key) ==> items[i] == items[j]
  }

  /** Permuting either list changes neither view. */
  ghost predicate OrderBlind(actual: seq<Record>, oracle: seq<Record>, sc: Schema) {
    forall actual', oracle' :: multiset(actual) == multiset(actual') && multiset(oracle) == multiset(oracle') ==>
      && DetailOf(actual, oracle, sc) == DetailOf(actual', oracle', sc)
      && Pooled(actual, oracle, sc) == Pooled(actual', oracle', sc)
  }

  lemma BlindByKey(actual: seq<Record>, oracle: seq<Record>, sc: Schema, key: string)
    requires AlignKey(sc) == Some(key) && DecidedBy(actual, key) && DecidedBy(oracle, key)
    ensures OrderBlind(actual, oracle, sc)
  {
    forall actual', oracle' | multiset(actual) == multiset(actual') && multiset(oracle) == multiset(oracle')
      ensures DetailOf(actual, oracle, sc) == DetailOf(actual', oracle', sc)
      ensures Pooled(actual, oracle, sc) == Pooled(actual', oracle', sc)
    {
      DetailForgetsOrder(actual, oracle, actual', oracle', sc);
    }
  }

  lemma KeyDeclared(sc: Schema)
    ensures AlignKey(sc) ==
      if "url" in sc.fields then Some("url")
      else if "name" in sc.fields then Some("name")
      else if "title" in sc.fields then Some("title")
      else if "text" in sc.fields then Some("text")
      else None
  {
    var four, three, two, one := ALIGN_KEYS, ["name", "title", "text"], ["title", "text"], ["text"];
    assert four[1..] == three && three[1..] == two && two[1..] == one && one[1..] == [];
    assert FirstDeclared([], sc.fields) == None;
    assert FirstDeclared(one, sc.fields) == if "text" in sc.fields then Some("text") else None;
    assert "title" !in sc.fields ==> FirstDeclared(two, sc.fields) == FirstDeclared(one, sc.fields);
    assert "name" !in sc.fields ==> FirstDeclared(three, sc.fields) == FirstDeclared(two, sc.fields);
    assert "url" !in sc.fields ==> FirstDeclared(four, sc.fields) == FirstDeclared(three, sc.fields);
  }

  /** `key` is declared, and none of those before it. */
  ghost predicate Decides(sc: Schema, key: string, before: set<string>) {
    key in sc.fields && forall k :: k in before ==> k !in sc.fields
  }

  /** Order is invisible when the url decides the row, whatever else the rows hold; for a schema
      without a url when the name does, then the title, then the text. */
  lemma DeclaredKeysDecide(actual: seq<Record>, oracle: seq<Record>, sc: Schema, key: string)
    requires DecidedBy(actual, key) && DecidedBy(oracle, key)
    requires
      || (key == "url" && Decides(sc, key, {}))
      || (key == "name" && Decides(sc, key, {"url"}))
      || (key == "title" && Decides(sc, key, {"url", "name"}))
      || (key == "text" && Decides(sc, key, {"url", "name", "title"}))
    ensures OrderBlind(actual, oracle, sc)
  {
    KeyDeclared(sc);
    BlindByKey(actual, oracle, sc, key);
  }

  /** The rows in the order of their texts under `key`. */
  ghost predicate InKeyOrder(items: seq<Record>, sorted: seq<Record>, key: string) {
    && multiset(sorted) == multiset(items)
    && forall i, j :: 0 <= i < j < |sorted| ==> !Before(KeyText(sorted[j], key), KeyText(sorted[i], key))
  }

  lemma AlignSorts(items: seq<Record>, key: string)
    ensures InKeyOrder(items, Align(items, Some(key)), key)
  {
    var le, sorted := KeyOrder(key), Align(items, Some(key));
    AlignKeepsRows(items, Some(key));
    KeyOrderTotal(key);
    SortOrdered(items, le);
    forall i, j | 0 <= i < j < |sorted| ensures !Before(KeyText(sorted[j], key), KeyText(sorted[i], key)) {
      assert le(sorted[i], sorted[j]);
      StrLeExact(KeyText(sorted[j], key), KeyText(sorted[i], key));
      StrLeTotal(KeyText(sorted[j], key), KeyText(sorted[i], key));
      NotBeforeItself(KeyText(sorted[j], key));
    }
  }

  lemma NotBeforeItself(a: string)
    ensures !Before(a, a)
  {
    if k: nat :| SmallerAt(a, a, k) {
      SmallerIsLe(a, a, k);
    }
  }

  /** Row `i` of one list meets row `i` of the other: without any of the four keys in the order
      given, with one in the order of that key. A row beyond the shorter list meets an empty one. */
  lemma PairsArePositions(a: seq<Record>, b: seq<Record>, sc: Schema) returns (a': seq<Record>, b': seq<Record>)
    ensures |a'| == |a| && |b'| == |b|
    ensures Decides(sc, "url", {}) ==> InKeyOrder(a, a', "url") && InKeyOrder(b, b', "url")
    ensures Decides(sc, "name", {"url"}) ==> InKeyOrder(a, a', "name") && InKeyOrder(b, b', "name")
    ensures Decides(sc, "title", {"url", "name"}) ==> InKeyOrder(a, a', "title") && InKeyOrder(b, b', "title")
    ensures Decides(sc, "text", {"url", "name", "title"}) ==> InKeyOrder(a, a', "text") && InKeyOrder(b, b', "text")
    ensures (forall k :: k in {"url", "name", "title", "text"} ==> k !in sc.fields) ==> a' == a && b' == b
    ensures var pairs := AlignedPairs(a, b, AlignKey(sc));
      forall i :: 0 <= i < |pairs| ==>
        pairs[i] == (if i < |a'| then a'[i] else map[], if i < |b'| then b'[i] else map[])
  {
    KeyDeclared(sc);
    var key := AlignKey(sc);
    a', b' := Align(a, key), Align(b, key);
    AlignKeepsRows(a, key);
    AlignKeepsRows(b, key);
    if key.Some? {
      AlignSorts(a, key.value);
      AlignSorts(b, key.value);
    }
  }

  /** Two rows with one key and different prices. */
  ghost predicate Tied(x: Record, y: Record, sc: Schema) {
    && sc.fields == ["url", "price"] && sc.volatile == {}
    && x == map["url" := Str("u"), "price" := Int(1)]
    && y == map["url" := Str("u"), "price" := Int(2)]
  }

  lemma TiedScores(x: Record, y: Record, sc: Schema)
    requires Tied(x, y, sc)
    ensures PairScore(x, x, sc) == PairScore(y, y, sc) == 1.0
    ensures PairScore(x, y, sc) == PairScore(y, x, sc) == 0.5
  {
    TwoFields(x, x, sc);
    TwoFields(y, y, sc);
    TwoFields(x, y, sc);
    TwoFields(y, x, sc);
  }

  lemma TiedKeep(x: Record, y: Record, sc: Schema)
    requires Tied(x, y, sc)
    ensures AlignKey(sc) == Some("url")
    ensures SortBy([x, y], KeyOrder("url")) == [x, y] && SortBy([y, x], KeyOrder("url")) == [y, x]
  {
    StrLeTotal("u", "u");
    TwoTied(x, y, KeyOrder("url"));
    TwoTied(y, x, KeyOrder("url"));
    assert "url" in sc.fields;
  }

  /** Rows that share a key are compared in the order given, and then order shows. */
  lemma TiesShowOrder(sc: Schema, x: Record, y: Record)
    requires Tied(x, y, sc)
    ensures DetailOf([x, y], [x, y], sc).minItem == 1.0
    ensures DetailOf([x, y], [y, x], sc).minItem == 0.5
  {
    TiedKeep(x, y, sc);
    TiedScores(x, y, sc);
    PairOfTwo(x, y, x, y, sc);
    PairOfTwo(x, y, y, x, sc);
  }

  lemma TwoTied(x: Record, y: Record, le: (Record, Record) -> bool)
    requires le(x, y)
    ensures SortBy([x, y], le) == [x, y]
  {
    assert [x, y][..1] == [x] && [x][..0] == [];
    assert SortBy([x], le) == [x];
    assert Insert([x], y, le) == [x] + Insert([], y, le);
  }

  lemma PairOfTwo(x: Record, y: Record, v: Record, w: Record, sc: Schema)
    requires AlignKey(sc) == Some("url")
    requires SortBy([x, y], KeyOrder("url")) == [x, y] && SortBy([v, w], KeyOrder("url")) == [v, w]
    ensures AlignedPairs([x, y], [v, w], AlignKey(sc)) == [(x, v), (y, w)]
    ensures DetailOf([x, y], [v, w], sc).minItem ==
      if PairScore(x, v, sc) <= PairScore(y, w, sc) then PairScore(x, v, sc) else PairScore(y, w, sc)
  {
    var scores := PairScores([(x, v), (y, w)], sc);
    assert scores[0] == PairScore(x, v, sc) && scores[1] == PairScore(y, w, sc);
    assert Min(scores[..1]) == scores[0];
    assert Min(scores) == if scores[1] < scores[0] then scores[1] else scores[0];
  }

  lemma TwoFields(a: Record, b: Record, sc: Schema)
    requires sc.fields == ["url", "price"]
    ensures PairScore(a, b, sc) * 2.0 ==
      (if FieldAgrees(a, b, "url", sc.volatile) then 1.0 else 0.0)
      + (if FieldAgrees(a, b, "price", sc.volatile) then 1.0 else 0.0)
  {
    var one := sc.fields[..1];
    assert one == ["url"] && one[..0] == [];
    assert AgreeCount(a, b, one, sc.volatile) == if FieldAgrees(a, b, "url", sc.volatile) then 1 else 0;
    assert AgreeCount(a, b, sc.fields, sc.volatile) ==
      AgreeCount(a, b, one, sc.volatile) + if FieldAgrees(a, b, "price", sc.volatile) then 1 else 0;
  }

  /** Every aligned pair differs on at most `slack` fields. */
  ghost predicate PairsWithin(actual: seq<Record>, oracle: seq<Record>, sc: Schema, slack: nat) {
    var pairs := AlignedPairs(actual, oracle, AlignKey(sc));
    forall i :: 0 <= i < |pairs| ==> |Disagreements(pairs[i].0, pairs[i].1, sc)| <= slack
  }

  /** What the per-item gate measures, in whole fields. */
  lemma MinItemInFields(actual: seq<Record>, oracle: seq<Record>, sc: Schema)
    requires ValidSchema(sc) && |actual| == |oracle|
    ensures var d := DetailOf(actual, oracle, sc);
      && d.mean <= 1.0
      && (d.minItem >= 0.98 <==> PairsWithin(actual, oracle, sc, |sc.fields| / 50))
      && (d.mean >= 1.0 <==> PairsWithin(actual, oracle, sc, 0))
  {
    var pairs := AlignedPairs(actual, oracle, AlignKey(sc));
    var scores := PairScores(pairs, sc);
    forall i | 0 <= i < |pairs|
      ensures scores[i] <= 1.0
      ensures scores[i] >= 0.98 <==> |Disagreements(pairs[i].0, pairs[i].1, sc)| <= |sc.fields| / 50
      ensures scores[i] == 1.0 <==> |Disagreements(pairs[i].0, pairs[i].1, sc)| <= 0
    {
      BarInFields(pairs[i].0, pairs[i].1, sc);
    }
    MeanIsOne(scores);
    if actual != [] {
      assert Mean(scores) == DetailOf(actual, oracle, sc).mean;
      MinIsLeast(scores, 0.98);
    }
  }

  /** Rows of equal-length lists that agree pairwise are matched by a bijection of positions. */
  lemma RowsCorrespond(actual: seq<Record>, oracle: seq<Record>, sc: Schema, slack: nat)
    returns (row: seq<nat>)
    requires |actual| == |oracle| && PairsWithin(actual, oracle, sc, slack)
    ensures IsPermutation(row, |actual|)
    ensures forall j :: 0 <= j < |oracle| ==> |Disagreements(actual[row[j]], oracle[j], sc)| <= slack
  {
    var key := AlignKey(sc);
    var pairs := AlignedPairs(actual, oracle, key);
    AlignKeepsRows(actual, key);
    AlignKeepsRows(oracle, key);
    var p := MatchPositions(oracle, Align(oracle, key));
    var q := MatchPositions(Align(actual, key), actual);
    row := seq(|oracle|, j requires 0 <= j < |oracle| => q[p[j]]);
    forall j | 0 <= j < |oracle|
      ensures |Disagreements(actual[row[j]], oracle[j], sc)| <= slack
    {
      assert pairs[p[j]] == (actual[row[j]], oracle[j]);
    }
  }
}
