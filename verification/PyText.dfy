// The text helpers every comparison goes through (crawloop/contract.py), and the
// decimal rendering of integers used by path ordering.
module PyText {
  import opened Wrappers

  /** Python's `str.isspace`, which is also what `\s` matches. */
  predicate IsSpace(c: char) {
    var n := c as int;
    || 9 <= n <= 13 || 28 <= n <= 32 || n == 0x85 || n == 0xA0 || n == 0x1680
    || 0x2000 <= n <= 0x200A || n == 0x2028 || n == 0x2029 || n == 0x202F
    || n == 0x205F || n == 0x3000
  }

  predicate IsDigit(c: char) {
    '0' <= c <= '9'
  }

  function LStrip(s: string): string {
    if s != "" && IsSpace(s[0]) then LStrip(s[1..]) else s
  }

  function RStrip(s: string): string {
    if s != "" && IsSpace(s[|s| - 1]) then RStrip(s[..|s| - 1]) else s
  }

  /** `s.strip()`. */
  function Strip(s: string): string {
    RStrip(LStrip(s))
  }

  lemma LStripShortens(s: string)
    ensures |LStrip(s)| <= |s|
  {
  }

  /** `re.sub(r"\s+", " ", s)`: each run of whitespace becomes one blank. */
  function Collapse(s: string): string
    decreases |s|
  {
    if s == "" then ""
    else if IsSpace(s[0]) then
      LStripShortens(s[1..]);
      " " + Collapse(LStrip(s[1..]))
    else [s[0]] + Collapse(s[1..])
  }

  /** `clean_text`: collapse whitespace runs, then strip both ends. */
  function CleanText(s: string): string {
    Strip(Collapse(s))
  }

  /** `s.replace(",", "")`. */
  function WithoutCommas(s: string): string {
    if s == "" then ""
    else (if s[0] == ',' then "" else [s[0]]) + WithoutCommas(s[1..])
  }

  /** The longest run of digits `s` starts with. */
  function TakeDigits(s: string): string {
    if s != "" && IsDigit(s[0]) then [s[0]] + TakeDigits(s[1..]) else ""
  }

  lemma TakeDigitsIsPrefix(s: string)
    ensures |TakeDigits(s)| <= |s| && TakeDigits(s) == s[..|TakeDigits(s)|]
  {
  }

  function DigitsValue(s: string): int {
    if s == "" then 0 else 10 * DigitsValue(s[..|s| - 1]) + DigitOf(s[|s| - 1])
  }

  function DigitOf(c: char): int {
    c as int - '0' as int
  }

  /** The digits after a decimal point. */
  function FractionValue(s: string): real {
    if s == "" then 0.0 else (DigitOf(s[0]) as real + FractionValue(s[1..])) / 10.0
  }

  /** The unsigned decimal that `s` starts with: digits, then optionally a point and more digits. */
  function Unsigned(s: string): real {
    TakeDigitsIsPrefix(s);
    var whole := TakeDigits(s);
    var rest := s[|whole|..];
    var fraction := if rest != "" && rest[0] == '.' then TakeDigits(rest[1..]) else "";
    DigitsValue(whole) as real + FractionValue(fraction)
  }

  predicate IsSign(c: char) {
    c == '-' || c == '+'
  }

  /** Whether the money pattern matches at the first position of `s`. */
  predicate StartsNumber(s: string) {
    s != "" && (IsDigit(s[0]) || (IsSign(s[0]) && |s| > 1 && IsDigit(s[1])))
  }

  function NumberValue(s: string): real
    requires StartsNumber(s)
  {
    if IsDigit(s[0]) then Unsigned(s)
    else if s[0] == '-' then -Unsigned(s[1..])
    else Unsigned(s[1..])
  }

  /** Leftmost match of the money pattern in text without commas. */
  function FirstNumber(s: string): Option<real> {
    if s == "" then None
    else if StartsNumber(s) then Some(NumberValue(s))
    else FirstNumber(s[1..])
  }

  /** `parse_money` on a string. */
  function ParseMoney(raw: string): Option<real> {
    if raw == "" then None else FirstNumber(WithoutCommas(raw))
  }

  // ---- parse_money does not see whitespace ----

  lemma {:induction false} TakeDigitsStops(u: string, w: string)
    requires w == "" || !IsDigit(w[0])
    ensures TakeDigits(u + w) == TakeDigits(u)
  {
    if u == "" {
      assert u + w == w;
    } else {
      assert (u + w)[1..] == u[1..] + w;
      TakeDigitsStops(u[1..], w);
    }
  }

  lemma UnsignedStops(u: string, w: string)
    requires w != "" && IsSpace(w[0])
    ensures Unsigned(u + w) == Unsigned(u)
  {
    TakeDigitsStops(u, w);
    TakeDigitsIsPrefix(u);
    var n := |TakeDigits(u)|;
    assert (u + w)[n..] == u[n..] + w;
    if u[n..] != "" {
      assert (u[n..] + w)[1..] == u[n..][1..] + w;
      TakeDigitsStops(u[n..][1..], w);
    } else {
      assert u[n..] + w == w;
    }
  }

  lemma NumberStops(u: string, w: string)
    requires w != "" && IsSpace(w[0]) && StartsNumber(u)
    ensures StartsNumber(u + w) && NumberValue(u + w) == NumberValue(u)
  {
    assert (u + w)[1..] == u[1..] + w;
    UnsignedStops(u, w);
    UnsignedStops(u[1..], w);
  }

  lemma NoNumberStarts(u: string, w: string)
    requires w != "" && IsSpace(w[0]) && u != "" && !StartsNumber(u)
    ensures !StartsNumber(u + w) && (u + w)[1..] == u[1..] + w
  {
  }

  /** A blank ends any number: the search never looks across it. */
  lemma {:induction false} BlankSeparates(u: string, w: string)
    requires w != "" && IsSpace(w[0])
    ensures FirstNumber(u + w) == if FirstNumber(u).Some? then FirstNumber(u) else FirstNumber(w[1..])
  {
    if u == "" {
      assert u + w == w;
    } else if StartsNumber(u) {
      NumberStops(u, w);
    } else {
      NoNumberStarts(u, w);
      BlankSeparates(u[1..], w);
    }
  }

  lemma {:induction false} WithoutCommasConcat(u: string, v: string)
    ensures WithoutCommas(u + v) == WithoutCommas(u) + WithoutCommas(v)
  {
    if u == "" {
      assert u + v == v;
    } else {
      assert (u + v)[1..] == u[1..] + v;
      WithoutCommasConcat(u[1..], v);
    }
  }

  /** `ParseMoney`, spelled so that the empty text needs no case of its own. */
  function Money(s: string): Option<real> {
    FirstNumber(WithoutCommas(s))
  }

  lemma MoneyAtBlank(u: string, w: string)
    requires w != "" && IsSpace(w[0])
    ensures Money(u + w) == if Money(u).Some? then Money(u) else Money(w[1..])
  {
    WithoutCommasConcat(u, w);
    assert WithoutCommas(w) == [w[0]] + WithoutCommas(w[1..]);
    BlankSeparates(WithoutCommas(u), WithoutCommas(w));
    assert WithoutCommas(w)[1..] == WithoutCommas(w[1..]);
  }

  lemma {:induction false} MoneyLStrip(s: string)
    ensures Money(LStrip(s)) == Money(s)
  {
    if s != "" && IsSpace(s[0]) {
      MoneyAtBlank("", s);
      assert "" + s == s;
      MoneyLStrip(s[1..]);
    }
  }

  lemma {:induction false} MoneyRStrip(s: string)
    ensures Money(RStrip(s)) == Money(s)
  {
    if s != "" && IsSpace(s[|s| - 1]) {
      var u, w := s[..|s| - 1], s[|s| - 1..];
      MoneyAtBlank(u, w);
      assert u + w == s && w[1..] == "";
      MoneyRStrip(u);
    }
  }

  /** After a blank, only the numbers before it and after it matter. */
  lemma MoneyTail(u: string, b: char, v: string)
    requires IsSpace(b)
    ensures Money(u + ([b] + v)) == if Money(u).Some? then Money(u) else Money(v)
  {
    MoneyAtBlank(u, [b] + v);
    assert ([b] + v)[1..] == v;
  }

  /** It does not matter which blank it is. */
  lemma AnyBlank(u: string, b: char, v: string, c: char, w: string)
    requires IsSpace(b) && IsSpace(c) && Money(v) == Money(w)
    ensures Money(u + ([b] + v)) == Money(u + ([c] + w))
  {
    MoneyTail(u, b, v);
    MoneyTail(u, c, w);
  }

  lemma CollapseBlank(s: string)
    requires s != "" && IsSpace(s[0])
    ensures Collapse(s) == [' '] + Collapse(LStrip(s[1..])) && s == [s[0]] + s[1..]
  {
    LStripShortens(s[1..]);
  }

  lemma MoneyCollapseBlank(u: string, s: string)
    requires s != "" && IsSpace(s[0])
    requires Money(Collapse(LStrip(s[1..]))) == Money(LStrip(s[1..]))
    ensures Money(u + Collapse(s)) == Money(u + s)
  {
    MoneyLStrip(s[1..]);
    CollapseBlank(s);
    AnyBlank(u, ' ', Collapse(LStrip(s[1..])), s[0], s[1..]);
  }

  lemma Shift(u: string, c: char, v: string)
    ensures u + ([c] + v) == u + [c] + v
  {
  }

  lemma {:induction false} MoneyCollapse(u: string, s: string)
    ensures Money(u + Collapse(s)) == Money(u + s)
    decreases |s|
  {
    if s == "" {
    } else if IsSpace(s[0]) {
      LStripShortens(s[1..]);
      var rest := LStrip(s[1..]);
      MoneyCollapse("", rest);
      assert "" + Collapse(rest) == Collapse(rest) && "" + rest == rest;
      MoneyCollapseBlank(u, s);
    } else {
      MoneyCollapse(u + [s[0]], s[1..]);
      Shift(u, s[0], Collapse(s[1..]));
      Shift(u, s[0], s[1..]);
      assert s == [s[0]] + s[1..];
    }
  }

  /** Cleaning a text never changes the number `parse_money` reads from it. */
  lemma ParseMoneyIgnoresCleaning(s: string)
    ensures ParseMoney(CleanText(s)) == ParseMoney(s)
  {
    MoneyCollapse("", s);
    assert "" + Collapse(s) == Collapse(s) && "" + s == s;
    MoneyLStrip(Collapse(s));
    MoneyRStrip(LStrip(Collapse(s)));
  }

  /** Neither does stripping it first. */
  lemma ParseMoneyIgnoresStripping(s: string)
    ensures ParseMoney(Strip(s)) == ParseMoney(s)
  {
    MoneyLStrip(s);
    MoneyRStrip(LStrip(s));
  }

  predicate NoDigit(s: string) {
    forall i :: 0 <= i < |s| ==> !IsDigit(s[i])
  }

  lemma {:induction false} NoDigitNoNumber(s: string)
    requires NoDigit(s)
    ensures FirstNumber(s) == None && NoDigit(WithoutCommas(s))
  {
    if s != "" {
      NoDigitNoNumber(s[1..]);
    }
  }

  /** A text without digits has no number in it. */
  lemma NoDigitNoMoney(s: string)
    requires NoDigit(s)
    ensures ParseMoney(s) == None
  {
    NoDigitNoNumber(s);
    NoDigitNoNumber(WithoutCommas(s));
  }

  lemma StripKeeps(s: string)
    requires s != "" && !IsSpace(s[0]) && !IsSpace(s[|s| - 1])
    ensures Strip(s) == s
  {
  }

  // ---- clean_text does not see the blanks at the ends ----

  lemma {:induction false} RStripCons(c: char, y: string)
    ensures RStrip([c] + y) == if RStrip(y) == "" && IsSpace(c) then "" else [c] + RStrip(y)
  {
    if y != "" {
      var n := |y| - 1;
      assert ([c] + y)[..n + 1] == [c] + y[..n];
      if IsSpace(y[n]) {
        RStripCons(c, y[..n]);
      }
    } else {
      assert [c] + y == [c] && [c][..0] == "";
    }
  }

  lemma {:induction false} StripsCommute(x: string)
    ensures RStrip(LStrip(x)) == LStrip(RStrip(x))
  {
    if x != "" {
      assert x == [x[0]] + x[1..];
      RStripCons(x[0], x[1..]);
      if IsSpace(x[0]) {
        StripsCommute(x[1..]);
        assert ([x[0]] + RStrip(x[1..]))[1..] == RStrip(x[1..]);
      }
    }
  }

  lemma {:induction false} LStripSnoc(y: string, b: char)
    requires IsSpace(b)
    ensures LStrip(y + [b]) == if LStrip(y) == "" then "" else LStrip(y) + [b]
  {
    if y == "" {
      assert y + [b] == [b] && [b][1..] == "";
    } else {
      assert (y + [b])[1..] == y[1..] + [b];
      if IsSpace(y[0]) {
        LStripSnoc(y[1..], b);
      }
    }
  }

  /** One more blank at the end adds at most one blank. */
  lemma {:induction false} CollapseSnoc(w: string, b: char)
    requires IsSpace(b)
    ensures Collapse(w + [b]) == Collapse(w) || Collapse(w + [b]) == Collapse(w) + " "
    decreases |w|
  {
    if w == "" {
      assert w + [b] == [b] && [b][1..] == "";
      assert Collapse(w + [b]) == "" + " ";
    } else {
      assert (w + [b])[1..] == w[1..] + [b];
      LStripShortens(w[1..]);
      if IsSpace(w[0]) {
        LStripSnoc(w[1..], b);
        CollapseSnoc(LStrip(w[1..]), b);
        Shift("", ' ', Collapse(LStrip(w[1..])));
      } else {
        CollapseSnoc(w[1..], b);
      }
    }
  }

  lemma RStripBlank(x: string)
    ensures RStrip(x + " ") == RStrip(x)
  {
    assert (x + " ")[..|x|] == x;
  }

  lemma {:induction false} CollapseRStrip(s: string)
    ensures RStrip(Collapse(RStrip(s))) == RStrip(Collapse(s))
  {
    if s != "" && IsSpace(s[|s| - 1]) {
      var u := s[..|s| - 1];
      assert s == u + [s[|s| - 1]];
      CollapseSnoc(u, s[|s| - 1]);
      RStripBlank(Collapse(u));
      CollapseRStrip(u);
    }
  }

  lemma CleanTextIgnoresRStrip(s: string)
    ensures CleanText(RStrip(s)) == CleanText(s)
  {
    CollapseRStrip(s);
    StripsCommute(Collapse(s));
    StripsCommute(Collapse(RStrip(s)));
  }

  lemma LStripAgain(s: string)
    requires s != "" && IsSpace(s[0])
    ensures LStrip(Collapse(s)) == LStrip(Collapse(LStrip(s)))
  {
    LStripShortens(s[1..]);
    var rest := Collapse(LStrip(s[1..]));
    assert (" " + rest)[1..] == rest;
  }

  /** `clean_text` of a text is that of its stripped form. */
  lemma CleanTextIgnoresStripping(s: string)
    ensures CleanText(Strip(s)) == CleanText(s)
  {
    CleanTextIgnoresRStrip(LStrip(s));
    if s != "" && IsSpace(s[0]) {
      LStripAgain(s);
    }
  }

  // ---- decimal text of an integer ----

  function DigitChar(d: nat): char
    requires d < 10
  {
    ('0' as int + d) as char
  }

  function NatText(n: nat): string {
    if n < 10 then [DigitChar(n)] else NatText(n / 10) + [DigitChar(n % 10)]
  }

  /** Python's `str` of an int. */
  function IntText(n: int): string {
    if n < 0 then "-" + NatText(-n) else NatText(n)
  }

  lemma {:induction false} NatTextValue(n: nat)
    ensures DigitsValue(NatText(n)) == n && NatText(n) != "" && IsDigit(NatText(n)[0])
  {
    if n < 10 {
      assert NatText(n)[..0] == "";
    } else {
      NatTextValue(n / 10);
      assert NatText(n)[..|NatText(n)| - 1] == NatText(n / 10);
    }
  }

  /** Distinct integers have distinct texts. */
  lemma IntTextInjective(a: int, b: int)
    requires IntText(a) == IntText(b)
    ensures a == b
  {
    NatTextValue(if a < 0 then -a else a);
    NatTextValue(if b < 0 then -b else b);
    if a < 0 && b < 0 {
      assert IntText(a)[1..] == NatText(-a) && IntText(b)[1..] == NatText(-b);
    }
  }

  // ---- parse_money reads an integer's text back ----

  predicate AllDigits(s: string) {
    forall i :: 0 <= i < |s| ==> IsDigit(s[i])
  }

  lemma {:induction false} NatTextDigits(n: nat)
    ensures AllDigits(NatText(n))
  {
    if n >= 10 {
      NatTextDigits(n / 10);
    }
  }

  lemma {:induction false} DigitsTakeAll(s: string)
    requires AllDigits(s)
    ensures TakeDigits(s) == s && WithoutCommas(s) == s
  {
    if s != "" {
      DigitsTakeAll(s[1..]);
      assert s == [s[0]] + s[1..];
    }
  }

  lemma UnsignedNat(n: nat)
    ensures Unsigned(NatText(n)) == n as real
  {
    NatTextDigits(n);
    NatTextValue(n);
    DigitsTakeAll(NatText(n));
    var s := NatText(n);
    assert s[|s|..] == "";
    assert DigitsValue("") == 0;
  }

  lemma ParseMoneyIntText(n: int)
    ensures ParseMoney(IntText(n)) == Some(n as real)
  {
    var m := if n < 0 then -n else n;
    NatTextDigits(m);
    NatTextValue(m);
    DigitsTakeAll(NatText(m));
    UnsignedNat(m);
    if n < 0 {
      assert IntText(n)[1..] == NatText(m);
      WithoutCommasConcat("-", NatText(m));
      assert WithoutCommas("-") == "-";
    }
  }

  // ---- decimals ----

  lemma DecimalParts(a: string, b: string)
    requires AllDigits(a) && AllDigits(b)
    ensures TakeDigits(a + ("." + b)) == a && WithoutCommas(a + ("." + b)) == a + ("." + b)
  {
    DigitsTakeAll(a);
    DigitsTakeAll(b);
    TakeDigitsStops(a, "." + b);
    WithoutCommasConcat(a, "." + b);
    WithoutCommasConcat(".", b);
    assert WithoutCommas(".") == ".";
  }

  lemma UnsignedDecimal(a: string, b: string)
    requires AllDigits(a) && AllDigits(b)
    ensures Unsigned(a + ("." + b)) == DigitsValue(a) as real + FractionValue(b)
  {
    DecimalParts(a, b);
    DigitsTakeAll(b);
    var s := a + ("." + b);
    assert s[|a|..] == "." + b && ("." + b)[1..] == b;
  }

  /** Digits, a point and digits read as the one value and the other. */
  lemma ReadsDecimal(a: string, b: string)
    requires a != "" && AllDigits(a) && AllDigits(b)
    ensures ParseMoney(a + ("." + b)) == Some(DigitsValue(a) as real + FractionValue(b))
  {
    DecimalParts(a, b);
    UnsignedDecimal(a, b);
    assert (a + ("." + b))[0] == a[0];
  }

  lemma ReadsWhole(a: string)
    requires a != "" && AllDigits(a)
    ensures ParseMoney(a) == Some(DigitsValue(a) as real)
  {
    DigitsTakeAll(a);
    assert a[|a|..] == "";
  }

  /** A point with nothing after it changes nothing; moving it past a digit multiplies by ten. */
  lemma PointShifts(a: string, c: char, b: string)
    requires a != "" && AllDigits(a) && IsDigit(c) && AllDigits(b)
    ensures ParseMoney(a + ("." + "")) == ParseMoney(a)
    ensures ParseMoney(a + ("." + ([c] + b))).Some? && ParseMoney((a + [c]) + ("." + b)).Some?
    ensures 10.0 * ParseMoney(a + ("." + ([c] + b))).value == ParseMoney((a + [c]) + ("." + b)).value
  {
    ReadsWhole(a);
    ReadsDecimal(a, "");
    ReadsDecimal(a, [c] + b);
    ReadsDecimal(a + [c], b);
    assert ([c] + b)[1..] == b && (a + [c])[..|a|] == a;
  }

  /** A sign right before the digits counts, and one minus negates. */
  lemma MinusNegates(a: string)
    requires a != "" && IsDigit(a[0])
    ensures ParseMoney("-" + a).Some? && ParseMoney(a).Some?
    ensures ParseMoney("-" + a).value == -ParseMoney(a).value && ParseMoney("+" + a) == ParseMoney(a)
  {
    WithoutCommasConcat("-", a);
    WithoutCommasConcat("+", a);
    assert WithoutCommas("-") == "-" && WithoutCommas("+") == "+";
    var s := WithoutCommas(a);
    assert s == [a[0]] + WithoutCommas(a[1..]);
    assert ("-" + s)[1..] == s && ("+" + s)[1..] == s;
  }

  /** What is no digit, sign or comma before a number changes nothing. */
  lemma PrefixIgnored(c: char, s: string)
    requires !IsDigit(c) && !IsSign(c)
    ensures ParseMoney([c] + s) == ParseMoney(s)
  {
    WithoutCommasConcat([c], s);
    assert [c][1..] == [] && WithoutCommas("") == "";
    var t := WithoutCommas(s);
    if c == ',' {
      assert WithoutCommas([c]) + t == t;
    } else {
      assert WithoutCommas([c] + s) == [c] + t;
      assert ([c] + t)[1..] == t && !StartsNumber([c] + t);
      assert FirstNumber([c] + t) == FirstNumber(t);
    }
  }

  /** Commas are dropped before anything is read. */
  lemma CommasIgnored(a: string, b: string)
    ensures ParseMoney(a + "," + b) == ParseMoney(a + b)
  {
    WithoutCommasConcat(a + ",", b);
    WithoutCommasConcat(a, ",");
    WithoutCommasConcat(a, b);
    assert WithoutCommas(",") == "" && WithoutCommas(a) + "" == WithoutCommas(a);
  }
}
