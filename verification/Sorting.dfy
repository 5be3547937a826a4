// Python's `sorted(...)` as a stable insertion sort over an arbitrary order,
// with the three facts its callers rely on: the result is a permutation, it is
// ordered, and when the order separates the elements it is the only such list.
module Sorting {

  ghost predicate TotalPreorder<T(!new)>(le: (T, T) -> bool) {
    && (forall x, y :: le(x, y) || le(y, x))
    && (forall x, y, z :: le(x, y) && le(y, z) ==> le(x, z))
  }

  ghost predicate Ordered<T>(s: seq<T>, le: (T, T) -> bool) {
    forall i, j :: 0 <= i < j < |s| ==> le(s[i], s[j])
  }

  /** Ties in `le` are broken only by equality, among the elements of `s`. */
  ghost predicate Separates<T(!new)>(le: (T, T) -> bool, s: seq<T>) {
    forall x, y :: x in s && y in s && le(x, y) && le(y, x) ==> x == y
  }

  /** Places `x` after every element that is not above it, so the sort is stable. */
  function Insert<T>(s: seq<T>, x: T, le: (T, T) -> bool): seq<T> {
    if s == [] then [x]
    else if le(s[0], x) then [s[0]] + Insert(s[1..], x, le)
    else [x] + s
  }

  function SortBy<T>(s: seq<T>, le: (T, T) -> bool): seq<T> {
    if s == [] then [] else Insert(SortBy(s[..|s| - 1], le), s[|s| - 1], le)
  }

  lemma {:induction false} InsertPermutes<T>(s: seq<T>, x: T, le: (T, T) -> bool)
    ensures multiset(Insert(s, x, le)) == multiset(s) + multiset{x}
    ensures |Insert(s, x, le)| == |s| + 1
  {
    if s != [] {
      assert s == [s[0]] + s[1..];
      InsertPermutes(s[1..], x, le);
    }
  }

  lemma {:induction false} SortPermutes<T>(s: seq<T>, le: (T, T) -> bool)
    ensures multiset(SortBy(s, le)) == multiset(s)
    ensures |SortBy(s, le)| == |s|
  {
    if s != [] {
      assert s == s[..|s| - 1] + [s[|s| - 1]];
      SortPermutes(s[..|s| - 1], le);
      InsertPermutes(SortBy(s[..|s| - 1], le), s[|s| - 1], le);
    }
  }

  lemma SameMembers<T>(a: seq<T>, b: seq<T>, x: T)
    requires multiset(a) == multiset(b)
    ensures x in a <==> x in b
  {
    assert x in a <==> x in multiset(a);
  }

  lemma {:induction false} InsertOrdered<T(!new)>(s: seq<T>, x: T, le: (T, T) -> bool)
    requires TotalPreorder(le) && Ordered(s, le)
    ensures Ordered(Insert(s, x, le), le)
  {
    if s != [] && le(s[0], x) {
      var rest := Insert(s[1..], x, le);
      InsertOrdered(s[1..], x, le);
      InsertPermutes(s[1..], x, le);
      forall k | 0 <= k < |rest| ensures le(s[0], rest[k]) {
        assert rest[k] in multiset(rest);
        assert rest[k] == x || rest[k] in s[1..];
      }
    }
  }

  lemma {:induction false} SortOrdered<T(!new)>(s: seq<T>, le: (T, T) -> bool)
    requires TotalPreorder(le)
    ensures Ordered(SortBy(s, le), le)
  {
    if s != [] {
      SortOrdered(s[..|s| - 1], le);
      InsertOrdered(SortBy(s[..|s| - 1], le), s[|s| - 1], le);
    }
  }

  lemma RemoveAt<T>(s: seq<T>, k: nat)
    requires k < |s|
    ensures multiset(s[..k] + s[k + 1..]) == multiset(s) - multiset{s[k]}
  {
    assert s == s[..k] + ([s[k]] + s[k + 1..]);
  }

  lemma HeadsAgree<T(!new)>(a: seq<T>, b: seq<T>, le: (T, T) -> bool)
    requires a != [] && b != [] && multiset(a) == multiset(b)
    requires Separates(le, a) && le(a[0], a[0])
    requires Ordered(a, le) && Ordered(b, le)
    ensures a[0] == b[0]
  {
    SameMembers(a, b, a[0]);
    SameMembers(a, b, b[0]);
    var k :| 0 <= k < |b| && b[k] == a[0];
    var m :| 0 <= m < |a| && a[m] == b[0];
  }

  lemma TailMembers<T>(s: seq<T>)
    requires s != []
    ensures multiset(s[1..]) == multiset(s) - multiset{s[0]}
  {
    assert s == [s[0]] + s[1..];
  }

  lemma SameFromTails<T>(a: seq<T>, b: seq<T>)
    requires a != [] && b != [] && a[0] == b[0] && a[1..] == b[1..]
    ensures a == b
  {
    assert a == [a[0]] + a[1..] && b == [b[0]] + b[1..];
  }

  lemma TailSeparated<T(!new)>(a: seq<T>, le: (T, T) -> bool)
    requires a != [] && Separates(le, a)
    ensures Separates(le, a[1..])
  {
    forall x, y | x in a[1..] && y in a[1..] && le(x, y) && le(y, x) ensures x == y {
      assert x in a && y in a;
    }
  }

  /** An ordered list is determined by its members when the order separates them. */
  lemma {:induction false} OrderedUnique<T(!new)>(a: seq<T>, b: seq<T>, le: (T, T) -> bool)
    requires (forall x :: x in a ==> le(x, x)) && Separates(le, a)
    requires Ordered(a, le) && Ordered(b, le) && multiset(a) == multiset(b)
    ensures a == b
  {
    if a == [] {
      assert |b| == |multiset(b)|;
    } else {
      SameMembers(a, b, a[0]);
      HeadsAgree(a, b, le);
      TailSeparated(a, le);
      TailMembers(a);
      TailMembers(b);
      OrderedUnique(a[1..], b[1..], le);
      SameFromTails(a, b);
    }
  }

  /** Sorting forgets the order of its input when the order separates its members. */
  lemma SortForgetsOrder<T(!new)>(a: seq<T>, b: seq<T>, le: (T, T) -> bool)
    requires TotalPreorder(le) && Separates(le, a) && multiset(a) == multiset(b)
    ensures SortBy(a, le) == SortBy(b, le)
  {
    SortPermutes(a, le);
    SortPermutes(b, le);
    SortOrdered(a, le);
    SortOrdered(b, le);
    forall x | x in SortBy(a, le) ensures x in a {
      SameMembers(SortBy(a, le), a, x);
    }
    OrderedUnique(SortBy(a, le), SortBy(b, le), le);
  }

  /** `p` is a bijection of the first `n` positions onto themselves. */
  ghost predicate IsPermutation(p: seq<nat>, n: nat) {
    && |p| == n
    && (forall i :: 0 <= i < n ==> p[i] < n)
    && (forall i, j :: 0 <= i < j < n ==> p[i] != p[j])
  }

  /** Two lists with the same members, counted, are matched by a bijection of positions. */
  lemma {:induction false} MatchPositions<T>(a: seq<T>, b: seq<T>) returns (p: seq<nat>)
    requires multiset(a) == multiset(b)
    ensures IsPermutation(p, |b|) && |a| == |b|
    ensures forall i :: 0 <= i < |a| ==> a[i] == b[p[i]]
  {
    assert |a| == |multiset(a)| && |b| == |multiset(b)|;
    p := [];
    if a != [] {
      var n := |a| - 1;
      assert a[n] in multiset(b);
      var k :| 0 <= k < |b| && b[k] == a[n];
      RemoveAt(b, k);
      RemoveAt(a, n);
      assert a[..n] == a[..n] + a[n + 1..];
      var q := MatchPositions(a[..n], b[..k] + b[k + 1..]);
      p := ExtendMatch(a, b, k, q);
    }
  }

  lemma ExtendMatch<T>(a: seq<T>, b: seq<T>, k: nat, q: seq<nat>) returns (p: seq<nat>)
    requires k < |b| == |a| && a[|a| - 1] == b[k]
    requires IsPermutation(q, |b| - 1)
    requires forall i :: 0 <= i < |a| - 1 ==> a[i] == (b[..k] + b[k + 1..])[q[i]]
    ensures IsPermutation(p, |b|)
    ensures forall i :: 0 <= i < |a| ==> a[i] == b[p[i]]
  {
    var n := |a| - 1;
    p := seq(n, i requires 0 <= i < n => if q[i] < k then q[i] else q[i] + 1) + [k];
  }

  /** Python's ordering of strings: by code point, a prefix below its extensions. */
  predicate StrLe(a: string, b: string) {
    a == "" || (b != "" && (a[0] < b[0] || (a[0] == b[0] && StrLe(a[1..], b[1..]))))
  }

  lemma {:induction false} StrLeTotal(a: string, b: string)
    ensures StrLe(a, b) || StrLe(b, a)
    ensures StrLe(a, b) && StrLe(b, a) ==> a == b
  {
    if a != "" && b != "" {
      StrLeTotal(a[1..], b[1..]);
      assert a == [a[0]] + a[1..] && b == [b[0]] + b[1..];
    }
  }

  lemma {:induction false} StrLeTransitive(a: string, b: string, c: string)
    requires StrLe(a, b) && StrLe(b, c)
    ensures StrLe(a, c)
  {
    if a != "" && a[0] == b[0] && b[0] == c[0] {
      StrLeTransitive(a[1..], b[1..], c[1..]);
    }
  }

  lemma StrLeTotalPreorder()
    ensures TotalPreorder(StrLe)
  {
    forall a, b ensures StrLe(a, b) || StrLe(b, a) { StrLeTotal(a, b); }
    forall a, b, c | StrLe(a, b) && StrLe(b, c) ensures StrLe(a, c) { StrLeTransitive(a, b, c); }
  }

  /** `a` and `b` agree up to character `k`, where `a` ends or has the smaller character. */
  ghost predicate SmallerAt(a: string, b: string, k: nat) {
    && k <= |a| && k < |b| && (k == |a| || a[k] < b[k])
    && forall j :: 0 <= j < k ==> a[j] == b[j]
  }

  /** `a` comes before `b`: a proper prefix of it, or smaller where they first differ. */
  ghost predicate Before(a: string, b: string) {
    exists k: nat :: SmallerAt(a, b, k)
  }

  lemma {:induction false} SmallerIsLe(a: string, b: string, k: nat)
    requires SmallerAt(a, b, k)
    ensures StrLe(a, b) && a != b
    decreases k
  {
    if k > 0 {
      assert a[0] == b[0];
      assert SmallerAt(a[1..], b[1..], k - 1);
      SmallerIsLe(a[1..], b[1..], k - 1);
    }
  }

  lemma {:induction false} LeIsSmaller(a: string, b: string) returns (k: nat)
    requires StrLe(a, b) && a != b
    ensures SmallerAt(a, b, k)
  {
    k := 0;
    if a != "" && a[0] == b[0] {
      assert a == [a[0]] + a[1..] && b == [b[0]] + b[1..];
      var rest := LeIsSmaller(a[1..], b[1..]);
      k := rest + 1;
      forall j | 0 <= j < k ensures a[j] == b[j] {
        assert j > 0 ==> a[1..][j - 1] == b[1..][j - 1];
      }
    }
  }

  /** The order of texts is that one. */
  lemma StrLeExact(a: string, b: string)
    ensures StrLe(a, b) <==> a == b || Before(a, b)
  {
    StrLeTotal(a, b);
    if k: nat :| SmallerAt(a, b, k) {
      SmallerIsLe(a, b, k);
    }
    if StrLe(a, b) && a != b {
      var k := LeIsSmaller(a, b);
    }
  }
}
