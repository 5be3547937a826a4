// When the order of the extracted rows shows in `agreement_detail` (crawloop/validator.py):
// alignment sorts by a key and the sort is stable, so only rows that share a key can swap.
module RowOrder {
  import opened Wrappers
  import opened Sorting
  import opened Averages
  import opened PyText
  import opened Values
  import opened FieldEquality
  import opened Validator

  ghost predicate WellFormedRow(r: Record) {
    forall f :: f in r ==> WellFormed(r[f])
  }

  ghost predicate WellFormedRows(rows: seq<Record>) {
    forall i :: 0 <= i < |rows| ==> WellFormedRow(rows[i])
  }

  /** No comparison tells the rows apart in any schema field. */
  predicate SameInFields(x: Record, y: Record, fields: seq<string>) {
    forall f :: f in fields ==> Interchangeable(Get(x, f), Get(y, f))
  }

  /** The text a row is aligned by; without a key rows are paired as given, as if all keys were equal. */
  function RowKey(r: Record, key: Option<string>): string {
    if key.Some? then KeyText(r, key.value) else ""
  }

  /** Rows that share an alignment key are interchangeable. */
  ghost predicate KeysDecide(rows: seq<Record>, sc: Schema, key: Option<string>) {
    forall x, y :: x in rows && y in rows && RowKey(x, key) == RowKey(y, key) ==> SameInFields(x, y, sc.fields)
  }

  // ---- interchangeable rows score alike ----

  lemma {:induction false} SameCount(x: Record, y: Record, o: Record, fields: seq<string>, volatile: set<string>)
    requires WellFormedRow(x) && WellFormedRow(y) && WellFormedRow(o) && SameInFields(x, y, fields)
    ensures AgreeCount(x, o, fields, volatile) == AgreeCount(y, o, fields, volatile)
  {
    if fields != [] {
      var n := |fields| - 1;
      assert fields == fields[..n] + [fields[n]];
      SameCount(x, y, o, fields[..n], volatile);
      InterchangeableAgree(Get(x, fields[n]), Get(y, fields[n]), Get(o, fields[n]), fields[n] in volatile);
    }
  }

  function KeyTexts(rows: seq<Record>, key: Option<string>): (r: seq<string>)
    ensures |r| == |rows|
  {
    seq(|rows|, i requires 0 <= i < |rows| => RowKey(rows[i], key))
  }

  lemma {:induction false} KeyTextsPermute(a: seq<Record>, b: seq<Record>, key: Option<string>)
    requires multiset(a) == multiset(b)
    ensures multiset(KeyTexts(a, key)) == multiset(KeyTexts(b, key))
  {
    assert |a| == |multiset(a)| && |b| == |multiset(b)|;
    if a != [] {
      var n := |a| - 1;
      assert a[n] in multiset(b);
      var k :| 0 <= k < |b| && b[k] == a[n];
      RemoveAt(a, n);
      RemoveAt(b, k);
      assert a[..n] == a[..n] + a[n + 1..];
      KeyTextsPermute(a[..n], b[..k] + b[k + 1..], key);
      KeyTextsSplit(a, n, key);
      KeyTextsSplit(b, k, key);
    }
  }

  lemma KeyTextsSplit(a: seq<Record>, k: nat, key: Option<string>)
    requires k < |a|
    ensures multiset(KeyTexts(a, key)) ==
      multiset(KeyTexts(a[..k] + a[k + 1..], key)) + multiset{RowKey(a[k], key)}
  {
    var texts := KeyTexts(a, key);
    RemoveAt(texts, k);
    assert KeyTexts(a[..k] + a[k + 1..], key) == texts[..k] + texts[k + 1..];
  }

  lemma AlignedTextsOrdered(a: seq<Record>, key: Option<string>)
    ensures Ordered(KeyTexts(Align(a, key), key), StrLe)
  {
    if key.Some? {
      KeyOrderTotal(key.value);
      SortOrdered(a, KeyOrder(key.value));
    }
  }

  /** Aligning two permutations of the same rows puts the same key at each position. */
  lemma AlignedKeysAgree(a: seq<Record>, b: seq<Record>, key: Option<string>)
    requires multiset(a) == multiset(b)
    ensures KeyTexts(Align(a, key), key) == KeyTexts(Align(b, key), key)
  {
    AlignKeepsRows(a, key);
    AlignKeepsRows(b, key);
    AlignedTextsOrdered(a, key);
    AlignedTextsOrdered(b, key);
    KeyTextsPermute(Align(a, key), Align(b, key), key);
    StrLeTotalPreorder();
    forall x, y | StrLe(x, y) && StrLe(y, x) ensures x == y {
      StrLeTotal(x, y);
    }
    OrderedUnique(KeyTexts(Align(a, key), key), KeyTexts(Align(b, key), key), StrLe);
  }

  lemma AlignedRowsAlike(a: seq<Record>, b: seq<Record>, sc: Schema, key: Option<string>, k: nat)
    requires multiset(a) == multiset(b) && KeysDecide(a, sc, key) && k < |a| && WellFormedRows(a)
    ensures var s, t := Align(a, key), Align(b, key);
      && |s| == |t| == |a| && SameInFields(s[k], t[k], sc.fields)
      && WellFormedRow(s[k]) && WellFormedRow(t[k])
  {
    AlignKeepsRows(a, key);
    AlignKeepsRows(b, key);
    var s, t := Align(a, key), Align(b, key);
    assert |s| == |multiset(s)| && |t| == |multiset(t)| && |a| == |multiset(a)|;
    SameMembers(s, a, s[k]);
    SameMembers(t, a, t[k]);
    AlignedKeysAgree(a, b, key);
    assert KeyTexts(s, key)[k] == KeyTexts(t, key)[k];
    var i :| 0 <= i < |a| && a[i] == s[k];
    var j :| 0 <= j < |a| && a[j] == t[k];
  }

  /** Where keys decide rows, no oracle sees the order of the rows. */
  lemma OrderUnseen(a: seq<Record>, b: seq<Record>, oracle: seq<Record>, sc: Schema, key: Option<string>)
    requires AlignKey(sc) == key && KeysDecide(a, sc, key) && multiset(a) == multiset(b)
    requires WellFormedRows(a) && WellFormedRows(oracle)
    ensures DetailOf(b, oracle, sc) == DetailOf(a, oracle, sc)
  {
    assert |a| == |multiset(a)| && |b| == |multiset(b)|;
    var p, q := AlignedPairs(a, oracle, key), AlignedPairs(b, oracle, key);
    assert PairScores(p, sc) == PairScores(q, sc) by {
      forall k | 0 <= k < |p| ensures PairScores(p, sc)[k] == PairScores(q, sc)[k] {
        PairsAlike(a, b, oracle, sc, key, k);
        SameCount(p[k].0, q[k].0, p[k].1, sc.fields, sc.volatile);
      }
    }
  }

  lemma PairsAlike(a: seq<Record>, b: seq<Record>, oracle: seq<Record>, sc: Schema, key: Option<string>, k: nat)
    requires KeysDecide(a, sc, key) && multiset(a) == multiset(b) && WellFormedRows(a) && WellFormedRows(oracle)
    requires k < |AlignedPairs(a, oracle, key)|
    ensures |a| == |b|
    ensures var p, q := AlignedPairs(a, oracle, key)[k], AlignedPairs(b, oracle, key)[k];
      && p.1 == q.1 && SameInFields(p.0, q.0, sc.fields)
      && WellFormedRow(p.0) && WellFormedRow(q.0) && WellFormedRow(p.1)
  {
    assert |a| == |multiset(a)| && |b| == |multiset(b)|;
    AlignKeepsRows(a, key);
    AlignKeepsRows(b, key);
    AlignKeepsRows(oracle, key);
    if k < |a| {
      AlignedRowsAlike(a, b, sc, key, k);
    }
    if k < |oracle| {
      SameMembers(Align(oracle, key), oracle, Align(oracle, key)[k]);
    }
  }

  // ---- the sort depends on the keys only ----

  /** Where `Insert` puts `x`. */
  function InsertAt<T>(s: seq<T>, x: T, le: (T, T) -> bool): (p: nat)
    ensures p <= |s|
  {
    if s == [] || !le(s[0], x) then 0 else 1 + InsertAt(s[1..], x, le)
  }

  lemma {:induction false} InsertSplits<T>(s: seq<T>, x: T, le: (T, T) -> bool)
    ensures var p := InsertAt(s, x, le); Insert(s, x, le) == s[..p] + [x] + s[p..]
  {
    if s != [] && le(s[0], x) {
      InsertSplits(s[1..], x, le);
      assert s == [s[0]] + s[1..];
    }
  }

  lemma {:induction false} SameInsertAt<T>(s: seq<T>, x: T, t: seq<T>, y: T, le: (T, T) -> bool)
    requires |s| == |t| && forall k :: 0 <= k < |s| ==> le(s[k], x) == le(t[k], y)
    ensures InsertAt(s, x, le) == InsertAt(t, y, le)
  {
    if s != [] && le(s[0], x) {
      SameInsertAt(s[1..], x, t[1..], y, le);
    }
  }

  /** `s` rearranged by the positions in `at`. */
  ghost predicate Gathered<T>(r: seq<T>, s: seq<T>, at: seq<nat>) {
    && |r| == |at| == |s|
    && forall k :: 0 <= k < |at| ==> at[k] < |s| && r[k] == s[at[k]]
  }

  /** A rearrangement of `n` positions, with where each of them went. */
  ghost predicate Inverse(at: seq<nat>, went: seq<nat>, n: nat) {
    && |at| == |went| == n
    && (forall k :: 0 <= k < n ==> at[k] < n && went[at[k]] == k)
    && (forall i :: 0 <= i < n ==> went[i] < n && at[went[i]] == i)
  }

  /** Two lists whose elements compare alike position by position are sorted by one rearrangement. */
  lemma {:induction false} SortGathers<T>(s: seq<T>, t: seq<T>, le: (T, T) -> bool)
    returns (at: seq<nat>, went: seq<nat>)
    requires |s| == |t|
    requires forall i, j :: 0 <= i < |s| && 0 <= j < |s| ==> le(s[i], s[j]) == le(t[i], t[j])
    ensures Inverse(at, went, |s|)
    ensures Gathered(SortBy(s, le), s, at) && Gathered(SortBy(t, le), t, at)
  {
    at, went := [], [];
    if s != [] {
      var n := |s| - 1;
      var before, gone := SortGathers(s[..n], t[..n], le);
      SameInsertAt(SortBy(s[..n], le), s[n], SortBy(t[..n], le), t[n], le);
      var p := InsertAt(SortBy(s[..n], le), s[n], le);
      at := before[..p] + [n] + before[p..];
      went := InverseInsert(before, gone, n, p);
      GatherInsert(s, before, p, le);
      GatherInsert(t, before, p, le);
    }
  }

  lemma InverseInsert(before: seq<nat>, gone: seq<nat>, n: nat, p: nat) returns (went: seq<nat>)
    requires Inverse(before, gone, n) && p <= n
    ensures Inverse(before[..p] + [n] + before[p..], went, n + 1)
  {
    went := seq(n, i requires 0 <= i < n => if gone[i] < p then gone[i] else gone[i] + 1) + [p];
  }

  lemma GatherInsert<T>(s: seq<T>, before: seq<nat>, p: nat, le: (T, T) -> bool)
    requires s != [] && Gathered(SortBy(s[..|s| - 1], le), s[..|s| - 1], before)
    requires p == InsertAt(SortBy(s[..|s| - 1], le), s[|s| - 1], le)
    ensures Gathered(SortBy(s, le), s, before[..p] + [|s| - 1] + before[p..])
  {
    var r, x := SortBy(s[..|s| - 1], le), s[|s| - 1];
    InsertSplits(r, x, le);
    GatherSplice(r, s, x, before, p);
  }

  lemma GatherSplice<T>(r: seq<T>, s: seq<T>, x: T, before: seq<nat>, p: nat)
    requires s != [] && Gathered(r, s[..|s| - 1], before) && p <= |r| && x == s[|s| - 1]
    ensures Gathered(r[..p] + [x] + r[p..], s, before[..p] + [|s| - 1] + before[p..])
  {
    var at, to := before[..p] + [|s| - 1] + before[p..], r[..p] + [x] + r[p..];
    forall k | 0 <= k < |at| ensures at[k] < |s| && to[k] == s[at[k]] {
      if k < p {
        assert at[k] == before[k] && to[k] == r[k];
      } else if k > p {
        assert at[k] == before[k - 1] && to[k] == r[k - 1];
      }
    }
  }

  /** A list already in order is its own sort. */
  lemma {:induction false} OrderedStays<T>(s: seq<T>, le: (T, T) -> bool)
    requires Ordered(s, le)
    ensures SortBy(s, le) == s
  {
    if s != [] {
      var n := |s| - 1;
      OrderedStays(s[..n], le);
      InsertLast(s[..n], s[n], le);
    }
  }

  lemma {:induction false} InsertLast<T>(s: seq<T>, x: T, le: (T, T) -> bool)
    requires forall k :: 0 <= k < |s| ==> le(s[k], x)
    ensures Insert(s, x, le) == s + [x]
  {
    if s != [] {
      InsertLast(s[1..], x, le);
    }
  }

  // ---- an oracle that sees the order ----

  /** An oracle row with one field agrees where that value does, and wherever both are missing. */
  lemma {:induction false} OneFieldCount(r: Record, f: string, w: Value, fields: seq<string>, volatile: set<string>)
    requires !w.Null? && forall i, j :: 0 <= i < j < |fields| ==> fields[i] != fields[j]
    ensures AgreeCount(r, map[f := w], fields, volatile)
      + (if f in fields && Get(r, f).Null? then 1 else 0)
      == AgreeCount(r, map[], fields, volatile)
      + (if f in fields && FieldEqual(Get(r, f), w, f in volatile) then 1 else 0)
  {
    if fields != [] {
      var n := |fields| - 1;
      assert fields == fields[..n] + [fields[n]];
      OneFieldCount(r, f, w, fields[..n], volatile);
      MissingAgreesOnlyWithMissing(Get(r, fields[n]), fields[n] in volatile);
    }
  }

  /** Empty rows below position `high`, rows with the one field from there on. */
  function Probe(n: nat, high: nat, f: string, w: Value): (o: seq<Record>)
    ensures |o| == n
  {
    seq(n, k requires 0 <= k < n => if k < high then map[] else map[f := w])
  }

  lemma ProbeWellFormed(n: nat, high: nat, f: string, w: Value)
    requires WellFormed(w)
    ensures WellFormedRows(Probe(n, high, f, w))
  {
  }

  lemma ProbeAligned(n: nat, high: nat, f: string, w: Value, key: Option<string>)
    ensures Align(Probe(n, high, f, w), key) == Probe(n, high, f, w)
  {
    if key.Some? {
      KeyOrderTotal(key.value);
      OrderedStays(Probe(n, high, f, w), KeyOrder(key.value));
    }
  }

  lemma {:induction false} TotalUpdate(ks: seq<nat>, p: nat, v: nat)
    requires p < |ks|
    ensures Total(ks[p := v]) + ks[p] == Total(ks) + v
  {
    var n := |ks| - 1;
    if p < n {
      TotalUpdate(ks[..n], p, v);
      assert ks[p := v][..n] == ks[..n][p := v];
    } else {
      assert ks[p := v][..n] == ks[..n];
    }
  }

  lemma TotalTwo(ks: seq<nat>, ls: seq<nat>, p: nat, q: nat)
    requires |ks| == |ls| && p < |ks| && q < |ks| && p != q
    requires forall k :: 0 <= k < |ks| && k != p && k != q ==> ks[k] == ls[k]
    ensures Total(ls) + ks[p] + ks[q] == Total(ks) + ls[p] + ls[q]
  {
    assert ls == ks[p := ls[p]][q := ls[q]];
    TotalUpdate(ks, p, ls[p]);
    TotalUpdate(ks[p := ls[p]], q, ls[q]);
  }

  /** Against a probe with `w` from the upper position on, exchanging the two rows changes the
      number of agreements. */
  lemma ProbeSees(x: Record, y: Record, f: string, w: Value, sc: Schema)
    requires ValidSchema(sc) && f in sc.fields && !w.Null?
    requires FieldEqual(Get(x, f), w, f in sc.volatile) != FieldEqual(Get(y, f), w, f in sc.volatile)
    ensures AgreeCount(x, map[], sc.fields, sc.volatile) + AgreeCount(y, map[f := w], sc.fields, sc.volatile)
      != AgreeCount(y, map[], sc.fields, sc.volatile) + AgreeCount(x, map[f := w], sc.fields, sc.volatile)
  {
    OneFieldCount(x, f, w, sc.fields, sc.volatile);
    OneFieldCount(y, f, w, sc.fields, sc.volatile);
    MissingAgreesOnlyWithMissing(w, f in sc.volatile);
  }

  /** The rows with `i` and `j` exchanged. */
  function Exchanged(a: seq<Record>, i: nat, j: nat): seq<Record>
    requires i < |a| && j < |a|
  {
    a[i := a[j]][j := a[i]]
  }

  lemma CountsOf(a: seq<Record>, at: seq<nat>, o: seq<Record>, sc: Schema, key: Option<string>, k: nat)
    requires |o| == |a| && Gathered(Align(a, key), a, at) && Align(o, key) == o && k < |a|
    ensures var pairs := AlignedPairs(a, o, key);
      |pairs| == |a| && pairs[k] == (a[at[k]], o[k])
      && PairCounts(pairs, sc)[k] == AgreeCount(a[at[k]], o[k], sc.fields, sc.volatile)
  {
  }

  /** Both lists are aligned by one rearrangement, and differ by exchanging the rows it puts at the
      positions `low` and `high`. */
  ghost predicate Swapped(
    a: seq<Record>, b: seq<Record>, at: seq<nat>, low: nat, high: nat, key: Option<string>)
  {
    && Gathered(Align(a, key), a, at) && Gathered(Align(b, key), b, at)
    && low < high < |at|
    && b[at[low]] == a[at[high]] && b[at[high]] == a[at[low]]
    && forall k :: 0 <= k < |at| && k != low && k != high ==> a[at[k]] == b[at[k]]
  }

  lemma TotalsDiffer(
    a: seq<Record>, b: seq<Record>, at: seq<nat>, low: nat, high: nat, f: string, w: Value, sc: Schema,
    key: Option<string>)
    requires ValidSchema(sc) && f in sc.fields && !w.Null? && Swapped(a, b, at, low, high, key)
    requires FieldEqual(Get(a[at[low]], f), w, f in sc.volatile) != FieldEqual(Get(a[at[high]], f), w, f in sc.volatile)
    ensures var o := Probe(|a|, high, f, w);
      Total(PairCounts(AlignedPairs(a, o, key), sc)) != Total(PairCounts(AlignedPairs(b, o, key), sc))
  {
    var o := Probe(|a|, high, f, w);
    ProbeAligned(|a|, high, f, w, key);
    var ks, ls := PairCounts(AlignedPairs(a, o, key), sc), PairCounts(AlignedPairs(b, o, key), sc);
    CountsOf(a, at, o, sc, key, low);
    CountsOf(a, at, o, sc, key, high);
    CountsOf(b, at, o, sc, key, low);
    CountsOf(b, at, o, sc, key, high);
    forall k | 0 <= k < |a| && k != low && k != high ensures ks[k] == ls[k] {
      CountsOf(a, at, o, sc, key, k);
      CountsOf(b, at, o, sc, key, k);
    }
    TotalTwo(ks, ls, low, high);
    ProbeSees(a[at[low]], a[at[high]], f, w, sc);
  }

  lemma QuotientsDiffer(x: nat, y: nat, d: nat)
    requires x != y && d > 0
    ensures x as real / d as real != y as real / d as real
  {
    var p, q := x as real / d as real, y as real / d as real;
    assert p * d as real == x as real && q * d as real == y as real;
  }

  lemma SharesDiffer(x: nat, y: nat, total: nat)
    requires x != y && total > 0
    ensures Share(x, total) != Share(y, total)
  {
    QuotientsDiffer(x, y, total);
  }

  lemma MeansDiffer(a: seq<Record>, b: seq<Record>, o: seq<Record>, sc: Schema, key: Option<string>)
    requires AlignKey(sc) == key && sc.fields != [] && a != [] && |a| == |b| == |o|
    requires Total(PairCounts(AlignedPairs(a, o, key), sc)) != Total(PairCounts(AlignedPairs(b, o, key), sc))
    ensures DetailOf(a, o, sc).mean != DetailOf(b, o, sc).mean
  {
    MeanIsPooled(a, o, sc);
    MeanIsPooled(b, o, sc);
    SomeComparisons(|a|, |sc.fields|);
    SharesDiffer(Total(PairCounts(AlignedPairs(a, o, key), sc)),
                 Total(PairCounts(AlignedPairs(b, o, key), sc)), Comparisons(|a|, |sc.fields|));
  }

  lemma SomeComparisons(rows: nat, fields: nat)
    requires rows > 0 && fields > 0
    ensures Comparisons(rows, fields) > 0
  {
  }

  lemma ExchangePermutes(a: seq<Record>, i: nat, j: nat)
    requires i < j < |a|
    ensures multiset(Exchanged(a, i, j)) == multiset(a)
  {
  }

  /** `b` is `a` with the rows at `i` and `j` exchanged. */
  ghost predicate Exchanges(a: seq<Record>, b: seq<Record>, i: nat, j: nat) {
    && i < |a| == |b| && j < |a| && i != j && b[i] == a[j] && b[j] == a[i]
    && forall k :: 0 <= k < |a| && k != i && k != j ==> a[k] == b[k]
  }

  /** One rearrangement aligns the rows with and without the exchange. */
  lemma ExchangeGathers(a: seq<Record>, b: seq<Record>, i: nat, j: nat, key: Option<string>)
    returns (at: seq<nat>, went: seq<nat>)
    requires Exchanges(a, b, i, j) && RowKey(a[i], key) == RowKey(a[j], key)
    ensures Inverse(at, went, |a|) && Gathered(Align(a, key), a, at) && Gathered(Align(b, key), b, at)
  {
    if key.Some? {
      assert forall k :: 0 <= k < |a| ==> KeyText(a[k], key.value) == KeyText(b[k], key.value);
      at, went := SortGathers(a, b, KeyOrder(key.value));
    } else {
      at := seq(|a|, k requires 0 <= k < |a| => k);
      went := at;
    }
  }

  lemma Stand(
    a: seq<Record>, b: seq<Record>, i: nat, j: nat, at: seq<nat>, went: seq<nat>, key: Option<string>)
    requires Exchanges(a, b, i, j)
    requires Inverse(at, went, |a|) && Gathered(Align(a, key), a, at) && Gathered(Align(b, key), b, at)
    requires went[i] < went[j]
    ensures Swapped(a, b, at, went[i], went[j], key)
  {
  }

  /** Where the exchanged rows stand once aligned, the lower one first. */
  lemma ExchangedPositions(a: seq<Record>, b: seq<Record>, i: nat, j: nat, key: Option<string>)
    returns (at: seq<nat>, low: nat, high: nat)
    requires Exchanges(a, b, i, j) && RowKey(a[i], key) == RowKey(a[j], key)
    ensures Swapped(a, b, at, low, high, key)
    ensures (at[low] == i && at[high] == j) || (at[low] == j && at[high] == i)
  {
    var went: seq<nat>;
    at, went := ExchangeGathers(a, b, i, j, key);
    assert went[i] != went[j];
    if went[i] < went[j] {
      low, high := went[i], went[j];
      Stand(a, b, i, j, at, went, key);
    } else {
      low, high := went[j], went[i];
      Stand(a, b, j, i, at, went, key);
    }
  }

  lemma OrderSeenBy(a: seq<Record>, i: nat, j: nat, f: string, w: Value, sc: Schema, key: Option<string>)
    returns (oracle: seq<Record>)
    requires ValidSchema(sc) && AlignKey(sc) == key && i < j < |a| && RowKey(a[i], key) == RowKey(a[j], key)
    requires f in sc.fields && !w.Null? && WellFormed(w)
    requires FieldEqual(Get(a[i], f), w, f in sc.volatile) != FieldEqual(Get(a[j], f), w, f in sc.volatile)
    ensures WellFormedRows(oracle)
    ensures DetailOf(Exchanged(a, i, j), oracle, sc).mean != DetailOf(a, oracle, sc).mean
  {
    assert Exchanges(a, Exchanged(a, i, j), i, j);
    var at, low, high := ExchangedPositions(a, Exchanged(a, i, j), i, j, key);
    TotalsDiffer(a, Exchanged(a, i, j), at, low, high, f, w, sc, key);
    oracle := Probe(|a|, high, f, w);
    ProbeWellFormed(|a|, high, f, w);
    MeansDiffer(a, Exchanged(a, i, j), oracle, sc, key);
  }

  /** Two rows that share a key and can be told apart: some oracle sees them exchanged. */
  lemma OrderSeen(a: seq<Record>, i: nat, j: nat, sc: Schema, key: Option<string>) returns (oracle: seq<Record>)
    requires ValidSchema(sc) && AlignKey(sc) == key && WellFormedRows(a)
    requires i < j < |a| && RowKey(a[i], key) == RowKey(a[j], key)
    requires !SameInFields(a[i], a[j], sc.fields) || !SameInFields(a[j], a[i], sc.fields)
    ensures WellFormedRows(oracle)
    ensures DetailOf(Exchanged(a, i, j), oracle, sc).mean != DetailOf(a, oracle, sc).mean
  {
    var f :| f in sc.fields && !Interchangeable(Get(a[i], f), Get(a[j], f));
    var w := Apart(Get(a[i], f), Get(a[j], f), f in sc.volatile);
    oracle := OrderSeenBy(a, i, j, f, w, sc, key);
  }

  /** With or without an alignment key, no oracle sees the order of the rows exactly when rows that share a key are interchangeable. */
  lemma OrderShowsExactly(a: seq<Record>, sc: Schema)
    requires ValidSchema(sc) && WellFormedRows(a)
    ensures (forall b, oracle :: multiset(b) == multiset(a) && WellFormedRows(oracle) ==>
               DetailOf(b, oracle, sc) == DetailOf(a, oracle, sc))
      <==> KeysDecide(a, sc, AlignKey(sc))
  {
    var key := AlignKey(sc);
    if KeysDecide(a, sc, key) {
      forall b, oracle | multiset(b) == multiset(a) && WellFormedRows(oracle)
        ensures DetailOf(b, oracle, sc) == DetailOf(a, oracle, sc)
      {
        OrderUnseen(a, b, oracle, sc, key);
      }
    } else {
      var x, y :| x in a && y in a && RowKey(x, key) == RowKey(y, key) && !SameInFields(x, y, sc.fields);
      var b, oracle := OrderSeenSome(a, x, y, sc, key);
    }
  }

  lemma OrderSeenSome(a: seq<Record>, x: Record, y: Record, sc: Schema, key: Option<string>)
    returns (b: seq<Record>, oracle: seq<Record>)
    requires ValidSchema(sc) && AlignKey(sc) == key && WellFormedRows(a)
    requires x in a && y in a && RowKey(x, key) == RowKey(y, key) && !SameInFields(x, y, sc.fields)
    ensures multiset(b) == multiset(a) && WellFormedRows(oracle)
    ensures DetailOf(b, oracle, sc) != DetailOf(a, oracle, sc)
  {
    var i :| 0 <= i < |a| && a[i] == x;
    var j :| 0 <= j < |a| && a[j] == y;
    var p, q := if i < j then i else j, if i < j then j else i;
    ExchangePermutes(a, p, q);
    b := Exchanged(a, p, q);
    oracle := OrderSeen(a, p, q, sc, key);
  }
}
