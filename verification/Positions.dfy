// Where things stand in a list: the order in which a list without repetitions keeps the first
// occurrences of another one, and the places of its elements that satisfy a property.
module Positions {
  /** `x` first occurs in `s` at `i`. */
  ghost predicate FirstAt<T>(s: seq<T>, x: T, i: nat) {
    i < |s| && s[i] == x && forall j :: 0 <= j < i ==> s[j] != x
  }

  lemma {:induction false} HasFirst<T>(s: seq<T>, x: T) returns (i: nat)
    requires x in s
    ensures FirstAt(s, x, i)
  {
    i := 0;
    while s[i] != x
      invariant i < |s| && x in s[i..]
      invariant forall j :: 0 <= j < i ==> s[j] != x
      decreases |s| - i
    {
      assert s[i..] == [s[i]] + s[i + 1..];
      i := i + 1;
    }
  }

  lemma FirstUnique<T>(s: seq<T>, x: T, i: nat, j: nat)
    requires FirstAt(s, x, i) && FirstAt(s, x, j)
    ensures i == j
  {
  }

  /** Later elements do not move a first occurrence. */
  lemma FirstStays<T>(s: seq<T>, more: seq<T>, x: T, i: nat)
    ensures FirstAt(s, x, i) ==> FirstAt(s + more, x, i)
    ensures x in s && FirstAt(s + more, x, i) ==> FirstAt(s, x, i)
  {
    if x in s && FirstAt(s + more, x, i) {
      var k := HasFirst(s, x);
      assert (s + more)[k] == x;
      assert i <= k;
    }
  }

  /** `out` stands in the order in which its elements first occur in `s`. */
  ghost predicate InFirstOrder<T>(out: seq<T>, s: seq<T>) {
    && (forall x :: x in out ==> x in s)
    && forall a, b, i: nat, j: nat :: 0 <= a < b < |out| && FirstAt(s, out[a], i) && FirstAt(s, out[b], j) ==> i < j
  }

  lemma SameInFirstOrder<T>(out: seq<T>, s: seq<T>, x: T)
    requires InFirstOrder(out, s)
    ensures InFirstOrder(out, s + [x])
  {
    forall a, b, i: nat, j: nat | 0 <= a < b < |out| && FirstAt(s + [x], out[a], i) && FirstAt(s + [x], out[b], j)
      ensures i < j
    {
      FirstStays(s, [x], out[a], i);
      FirstStays(s, [x], out[b], j);
    }
  }

  /** A new element is kept at the end. */
  lemma MoreInFirstOrder<T>(out: seq<T>, s: seq<T>, x: T)
    requires InFirstOrder(out, s) && x !in s
    ensures InFirstOrder(out + [x], s + [x])
  {
    var more, t := out + [x], s + [x];
    forall a, b, i: nat, j: nat | 0 <= a < b < |more| && FirstAt(t, more[a], i) && FirstAt(t, more[b], j)
      ensures i < j
    {
      assert more[a] == out[a];
      FirstStays(s, [x], out[a], i);
      if b < |out| {
        assert more[b] == out[b];
        FirstStays(s, [x], out[b], j);
      } else {
        assert j == |s|;
      }
    }
  }

  /** `at` lists exactly the positions of `xs` that satisfy `p`, in order. */
  ghost predicate Lists<T>(xs: seq<T>, p: T -> bool, at: seq<nat>) {
    && (forall a, b :: 0 <= a < b < |at| ==> at[a] < at[b])
    && (forall a :: 0 <= a < |at| ==> at[a] < |xs| && p(xs[at[a]]))
    && (forall i: nat :: i < |xs| && p(xs[i]) ==> i in at)
  }

  lemma ListsMore<T>(xs: seq<T>, x: T, p: T -> bool, at: seq<nat>)
    requires Lists(xs, p, at)
    ensures p(x) ==> Lists(xs + [x], p, at + [|xs|])
    ensures !p(x) ==> Lists(xs + [x], p, at)
  {
    var all, more := xs + [x], at + [|xs|];
    forall i: nat | i < |all| && p(all[i]) ensures i in more && (!p(x) ==> i in at) {
      if i < |xs| {
        assert all[i] == xs[i];
        var a :| 0 <= a < |at| && at[a] == i;
        assert more[a] == i;
      } else {
        assert more[|at|] == i;
      }
    }
  }
}
