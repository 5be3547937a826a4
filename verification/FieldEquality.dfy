// The single value comparator behind every gate (crawloop/validator.py,
// `_as_money` and `field_equal`), and what relation it really is.
module FieldEquality {
  import opened Wrappers
  import opened PyText
  import opened Values

  /** `_as_money`: numbers and number-bearing text, never bools. */
  function AsMoney(v: Value): Option<real> {
    match v
    case Dec(d, _) => Some(d)
    case Int(n) => ParseMoney(IntText(n))
    case Flt(_, t) => ParseMoney(t)
    case Str(s) => ParseMoney(s)
    case _ => None
  }

  const EPSILON: real := 0.000000001

  function Abs(x: real): real {
    if x < 0.0 then -x else x
  }

  function Max(x: real, y: real): real {
    if x < y then y else x
  }

  /** `field_equal`, branch by branch. */
  predicate FieldEqual(a: Value, b: Value, volatile: bool) {
    if a.Null? || b.Null? then a.Null? && b.Null?
    else if a.Bool? || b.Bool? then PyEq(a, b)
    else
      var ma, mb := AsMoney(a), AsMoney(b);
      if ma.Some? && mb.Some? then
        if !volatile then ma == mb
        else Abs(ma.value - mb.value) / Max(Abs(ma.value), EPSILON) <= EPSILON
      else if a.Str? && b.Str? then CleanText(a.s) == CleanText(b.s)
      else PyEq(a, b)
  }

  /** What a stable field is compared by. */
  datatype Reading =
    | Missing
    | Flag(b: bool)
    | Amount(m: real)
    | Words(clean: string)
    | Other(c: Canon)

  function ReadingOf(v: Value): Reading {
    if v.Null? then Missing
    else if v.Bool? then Flag(v.b)
    else if AsMoney(v).Some? then Amount(AsMoney(v).value)
    else if v.Str? then Words(CleanText(v.s))
    else Other(CanonOf(v))
  }

  /** Python equates `True` with 1 and `False` with 0: the one comparison a reading does not explain. */
  predicate FlagMeetsNumber(a: Value, b: Value) {
    IsNumber(a) && IsNumber(b) && a.Bool? != b.Bool? && NumberOf(a) == NumberOf(b)
  }

  /** Stable comparison is equality of readings, except where a flag meets its number. */
  lemma FieldEqualIsReading(a: Value, b: Value)
    requires WellFormed(a) && WellFormed(b)
    ensures FieldEqual(a, b, false) <==> (ReadingOf(a) == ReadingOf(b) || FlagMeetsNumber(a, b))
  {
    if a.Int? { ParseMoneyIntText(a.n); }
    if b.Int? { ParseMoneyIntText(b.n); }
    if a.Str? && b.Str? {
      ParseMoneyIgnoresCleaning(a.s);
      ParseMoneyIgnoresCleaning(b.s);
    } else if (a.Arr? || a.Obj?) && (b.Arr? || b.Obj?) {
      PyEqIsCanonical(a, b);
    }
  }

  /** When a chain of two stable agreements through `b` composes: always, unless one of them is a
      flag meeting its number; then only as far as Python's own equality goes. */
  predicate Composes(a: Value, b: Value, c: Value) {
    if !FlagMeetsNumber(a, b) && !FlagMeetsNumber(b, c) then true
    else if b.Bool? then a.Bool? || c.Bool? || AsMoney(a) == AsMoney(c)
    else IsNumber(a) && IsNumber(c) && NumberOf(a) == NumberOf(c)
  }

  /** Hence reflexive and symmetric, and transitive exactly along the chains that compose. */
  lemma StableEquivalence(a: Value, b: Value, c: Value)
    requires WellFormed(a) && WellFormed(b) && WellFormed(c)
    ensures FieldEqual(a, a, false)
    ensures FieldEqual(a, b, false) <==> FieldEqual(b, a, false)
    ensures FieldEqual(a, b, false) && FieldEqual(b, c, false) ==>
      (FieldEqual(a, c, false) <==> Composes(a, b, c))
  {
    FieldEqualIsReading(a, a);
    FieldEqualIsReading(a, b);
    FieldEqualIsReading(b, a);
    FieldEqualIsReading(b, c);
    FieldEqualIsReading(a, c);
  }

  /** The exception is real: a flag equals 1, 1 equals the text "1", the flag does not equal the text. */
  lemma FlagsBreakTransitivity()
    ensures FieldEqual(Bool(true), Int(1), false) && FieldEqual(Int(1), Str("1"), false)
    ensures !FieldEqual(Bool(true), Str("1"), false)
  {
    ParseMoneyIntText(1);
    assert IntText(1) == "1";
  }

  /** On amounts the volatile comparison bounds the move by the first argument alone. */
  lemma VolatileBound(a: Value, b: Value)
    requires !a.Null? && !b.Null? && !a.Bool? && !b.Bool?
    requires AsMoney(a).Some? && AsMoney(b).Some?
    ensures var x, y := AsMoney(a).value, AsMoney(b).value;
      FieldEqual(a, b, true) <==> Abs(x - y) <= EPSILON * Max(Abs(x), EPSILON)
  {
    var x, y := AsMoney(a).value, AsMoney(b).value;
    var d, m := Abs(x - y), Max(Abs(x), EPSILON);
    QuotientAtMost(d, m, EPSILON);
  }

  lemma QuotientAtMost(d: real, m: real, e: real)
    requires m > 0.0
    ensures d / m <= e <==> d <= e * m
  {
    var q := d / m;
    assert q * m == d;
    if q <= e {
      assert (e - q) * m >= 0.0;
    } else {
      assert (q - e) * m > 0.0;
    }
  }

  predicate BothAmounts(a: Value, b: Value) {
    !a.Null? && !b.Null? && !a.Bool? && !b.Bool? && AsMoney(a).Some? && AsMoney(b).Some?
  }

  /** Off amounts the volatile comparison is the stable one. */
  lemma VolatileIsStable(a: Value, b: Value)
    requires !BothAmounts(a, b)
    ensures FieldEqual(a, b, true) == FieldEqual(a, b, false)
  {
  }

  function Lesser(x: real, y: real): real {
    if x < y then x else y
  }

  /** The move is within the tolerance of the smaller amount, or beyond that of the larger. */
  predicate SameEitherWay(x: real, y: real) {
    var d := Abs(x - y);
    d <= EPSILON * Max(Lesser(Abs(x), Abs(y)), EPSILON) || d > EPSILON * Max(Max(Abs(x), Abs(y)), EPSILON)
  }

  /** The two directions of a volatile comparison agree exactly when the values are not both
      amounts, or the move between the amounts is one either tolerance judges alike. */
  lemma VolatileSymmetry(a: Value, b: Value)
    requires WellFormed(a) && WellFormed(b)
    ensures (FieldEqual(a, b, true) <==> FieldEqual(b, a, true))
      <==> (BothAmounts(a, b) ==> SameEitherWay(AsMoney(a).value, AsMoney(b).value))
  {
    if BothAmounts(a, b) {
      VolatileBound(a, b);
      VolatileBound(b, a);
    } else {
      VolatileIsStable(a, b);
      VolatileIsStable(b, a);
      FieldEqualIsReading(a, b);
      FieldEqualIsReading(b, a);
    }
  }

  /** So it is not symmetric: a move just outside the smaller amount's tolerance. */
  lemma VolatileAsymmetric()
    ensures exists a, b :: FieldEqual(a, b, true) && !FieldEqual(b, a, true)
  {
    var a, b := Dec(1.0, "1"), Dec(0.999999999, "0.999999999");
    VolatileBound(a, b);
    VolatileBound(b, a);
  }

  // ---- values no comparison can tell apart ----

  /** The same reading, and the same flags met. */
  predicate Interchangeable(a: Value, b: Value) {
    && ReadingOf(a) == ReadingOf(b)
    && forall t: bool :: FlagMeetsNumber(a, Bool(t)) <==> FlagMeetsNumber(b, Bool(t))
  }

  lemma InterchangeableAgree(a: Value, b: Value, w: Value, volatile: bool)
    requires WellFormed(a) && WellFormed(b) && WellFormed(w) && Interchangeable(a, b)
    ensures FieldEqual(a, w, volatile) == FieldEqual(b, w, volatile)
  {
    FieldEqualIsReading(a, w);
    FieldEqualIsReading(b, w);
    if w.Bool? {
      assert w == Bool(w.b);
    }
  }

  /** An amount within reach of `x` and out of reach of `y`. */
  lemma AmountApart(x: real, y: real) returns (w: real)
    requires x != y && Abs(x) >= Abs(y)
    ensures Abs(x - w) <= EPSILON * Max(Abs(x), EPSILON)
    ensures Abs(y - w) > EPSILON * Max(Abs(y), EPSILON)
  {
    var reach := EPSILON * Max(Abs(x), EPSILON);
    w := if x > y then x + reach else x - reach;
  }

  lemma AmountsApart(a: Value, b: Value) returns (w: Value)
    requires BothAmounts(a, b) && AsMoney(a) != AsMoney(b)
    ensures w.Dec? && FieldEqual(a, w, true) != FieldEqual(b, w, true)
  {
    var x, y := AsMoney(a).value, AsMoney(b).value;
    var m: real;
    if Abs(x) >= Abs(y) {
      m := AmountApart(x, y);
    } else {
      m := AmountApart(y, x);
    }
    w := Dec(m, "");
    VolatileBound(a, w);
    VolatileBound(b, w);
  }

  /** A text that reads as the number does, which no flag meets. */
  lemma TextLike(b: Value) returns (w: Value)
    requires WellFormed(b) && IsNumber(b) && !b.Bool? && (NumberOf(b) == 0.0 || NumberOf(b) == 1.0)
    ensures w.Str? && ReadingOf(w) == ReadingOf(b)
  {
    if b.Flt? {
      w := Str(b.text);
    } else {
      w := Str(IntText(NumberOf(b).Floor));
      ParseMoneyIntText(NumberOf(b).Floor);
      if b.Int? {
        ParseMoneyIntText(b.n);
      }
    }
  }

  /** The stable comparison of `a` with `b` tells them apart, or the text of a number the flag meets does. */
  lemma FlagApart(a: Value, b: Value, volatile: bool) returns (w: Value)
    requires WellFormed(b) && a.Bool? && !b.Null? && ReadingOf(a) != ReadingOf(b)
    ensures WellFormed(w) && !w.Null? && FieldEqual(a, w, volatile) != FieldEqual(b, w, volatile)
  {
    FieldEqualIsReading(b, a);
    FieldEqualIsReading(a, a);
    w := a;
    if FlagMeetsNumber(a, b) {
      w := TextLike(b);
      if volatile {
        VolatileBound(b, w);
      } else {
        FieldEqualIsReading(b, w);
      }
    }
  }

  lemma ReadingsApart(a: Value, b: Value, volatile: bool) returns (w: Value)
    requires WellFormed(a) && WellFormed(b) && ReadingOf(a) != ReadingOf(b)
    ensures WellFormed(w) && !w.Null? && FieldEqual(a, w, volatile) != FieldEqual(b, w, volatile)
  {
    if a.Null? || b.Null? {
      w := if a.Null? then b else a;
      FieldEqualIsReading(w, w);
      if BothAmounts(w, w) {
        VolatileBound(w, w);
      }
    } else if a.Bool? {
      w := FlagApart(a, b, volatile);
    } else if b.Bool? {
      w := FlagApart(b, a, volatile);
    } else if volatile && BothAmounts(a, b) {
      w := AmountsApart(a, b);
    } else {
      w := a;
      FieldEqualIsReading(a, a);
      FieldEqualIsReading(b, a);
      if BothAmounts(a, a) {
        VolatileBound(a, a);
      }
    }
  }

  /** Values that are not interchangeable are told apart by some value. */
  lemma Apart(a: Value, b: Value, volatile: bool) returns (w: Value)
    requires WellFormed(a) && WellFormed(b) && !Interchangeable(a, b)
    ensures WellFormed(w) && !w.Null? && FieldEqual(a, w, volatile) != FieldEqual(b, w, volatile)
  {
    if ReadingOf(a) != ReadingOf(b) {
      w := ReadingsApart(a, b, volatile);
    } else {
      var t: bool :| FlagMeetsNumber(a, Bool(t)) != FlagMeetsNumber(b, Bool(t));
      w := Bool(t);
      FieldEqualIsReading(a, w);
      FieldEqualIsReading(b, w);
    }
  }

  /** A missing value agrees with nothing but a missing value. */
  lemma MissingAgreesOnlyWithMissing(v: Value, volatile: bool)
    ensures FieldEqual(Null, v, volatile) <==> v.Null?
    ensures FieldEqual(v, Null, volatile) <==> v.Null?
  {
  }
}
