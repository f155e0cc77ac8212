/**
  Validation of the `/start_session` argument.

  `ParseInt` models Python's `int(text)` on ASCII text: surrounding white space
  is ignored, one optional `+` or `-` sign may lead, and the body is decimal
  digits in which single underscores may separate two digits. Every other
  string is a `ValueError`, modelled as `None`. `ValidateMinutes` then keeps
  only strictly positive values.
*/
module Validation {
  import opened Wrappers

  /** The white space `int()` skips around an ASCII number, the C-locale
      set: tab, line feed, vertical tab, form feed, carriage return and the
      space. The separators 0x1C-0x1F, for which `str.isspace` also holds,
      are not skipped. */
  predicate IsSpace(c: char) {
    (9 <= c as int <= 13) || c == ' '
  }

  predicate IsDigit(c: char) {
    '0' <= c <= '9'
  }

  function DigitValue(c: char): (d: nat)
    requires IsDigit(c)
    ensures d < 10
  {
    c as int - '0' as int
  }

  function DigitChar(d: nat): (c: char)
    requires d < 10
    ensures IsDigit(c) && DigitValue(c) == d
  {
    ('0' as int + d) as char
  }

  /** Drops leading white space. */
  function TrimLeft(s: string): (r: string)
    ensures |r| <= |s| && r == s[|s| - |r|..]
    ensures |r| > 0 ==> !IsSpace(r[0])
  {
    if |s| > 0 && IsSpace(s[0]) then TrimLeft(s[1..]) else s
  }

  /** Drops trailing white space. */
  function TrimRight(s: string): (r: string)
    ensures |r| <= |s| && r == s[..|r|]
    ensures |r| > 0 ==> !IsSpace(r[|r| - 1])
  {
    if |s| > 0 && IsSpace(s[|s| - 1]) then TrimRight(s[..|s| - 1]) else s
  }

  function Strip(s: string): string {
    TrimRight(TrimLeft(s))
  }

  /** A string in which nothing but digits occur. */
  predicate AllDigits(d: string) {
    forall i :: 0 <= i < |d| ==> IsDigit(d[i])
  }

  /** The unsigned body `int()` accepts: starts and ends with a digit, holds
      only digits and underscores, and never two underscores in a row. */
  predicate WellFormedBody(t: string) {
    && |t| > 0
    && IsDigit(t[0])
    && IsDigit(t[|t| - 1])
    && (forall i :: 0 <= i < |t| ==> IsDigit(t[i]) || t[i] == '_')
    && (forall i :: 0 < i < |t| && t[i] == '_' ==> t[i - 1] != '_')
  }

  /** The digits of a body with its separating underscores removed. */
  function DropSeparators(t: string): (r: string)
    requires forall i :: 0 <= i < |t| ==> IsDigit(t[i]) || t[i] == '_'
    ensures AllDigits(r)
    ensures |r| <= |t|
  {
    if |t| == 0 then []
    else (if t[0] == '_' then [] else [t[0]]) + DropSeparators(t[1..])
  }

  /** The value of a run of decimal digits, most significant first. */
  function DigitsValue(d: string): nat
    requires AllDigits(d)
  {
    if |d| == 0 then 0
    else DigitsValue(d[..|d| - 1]) * 10 + DigitValue(d[|d| - 1])
  }

  /** A body without underscores is its own digits. */
  lemma {:induction false} DropSeparatorsOfDigits(d: string)
    requires AllDigits(d)
    ensures DropSeparators(d) == d
    decreases |d|
  {
    if |d| > 0 {
      assert AllDigits(d[1..]) by {
        forall i | 0 <= i < |d[1..]|
          ensures IsDigit(d[1..][i])
        {
          assert d[1..][i] == d[i + 1];
        }
      }
      DropSeparatorsOfDigits(d[1..]);
      assert [d[0]] + d[1..] == d;
    }
  }

  function BodyValue(t: string): nat
    requires WellFormedBody(t)
  {
    DigitsValue(DropSeparators(t))
  }

  /** The default of `sys.get_int_max_str_digits()`: `int()` refuses a
      decimal number of more digits with `ValueError`, and `str()` refuses to
      render one. */
  const MaxStrDigits: nat := 4300

  /** A body short enough for `int()`: its digits, underscores not counted,
      are at most `MaxStrDigits`. */
  predicate WithinDigitLimit(t: string)
    requires forall i :: 0 <= i < |t| ==> IsDigit(t[i]) || t[i] == '_'
  {
    |DropSeparators(t)| <= MaxStrDigits
  }

  /** `int()` on text whose surrounding white space is already removed. */
  function ParseStripped(t: string): Option<int> {
    if |t| > 0 && (t[0] == '-' || t[0] == '+') then
      var body := t[1..];
      if WellFormedBody(body) && WithinDigitLimit(body) then
        var v: int := BodyValue(body);
        Some(if t[0] == '-' then -v else v)
      else None
    else if WellFormedBody(t) && WithinDigitLimit(t) then Some(BodyValue(t))
    else None
  }

  /** `int(text)` on ASCII text: `Some(n)` for the integer the text denotes,
      `None` where Python raises `ValueError`. */
  function ParseInt(s: string): Option<int> {
    ParseStripped(Strip(s))
  }

  /** `_validate_minutes`: a value only for a strictly positive integer. */
  function ValidateMinutes(text: string): (r: Option<int>)
    ensures r.Some? ==> r.value > 0
    ensures r.Some? ==> ParseInt(text) == r
    ensures r.None? <==> ParseInt(text).None? || ParseInt(text).value <= 0
  {
    match ParseInt(text)
    case None => None
    case Some(minutes) => if minutes > 0 then Some(minutes) else None
  }

  // ---------------------------------------------------------------------
  // Decimal rendering, the partner of ParseInt.

  /** The shortest decimal digits of `n`. */
  function FormatNat(n: nat): (r: string)
    ensures |r| > 0 && AllDigits(r)
  {
    if n < 10 then [DigitChar(n)]
    else FormatNat(n / 10) + [DigitChar(n % 10)]
  }

  /** The decimal text of an integer `n`: what `str(n)` produces when `n`
      has at most `MaxStrDigits` digits. */
  function FormatInt(n: int): string {
    if n < 0 then "-" + FormatNat(-n) else FormatNat(n)
  }

  /** `n` has few enough digits for `str()` and `int()`. */
  predicate FitsDigitLimit(n: int) {
    |FormatNat(if n < 0 then -n else n)| <= MaxStrDigits
  }

  lemma {:induction false} DigitsValueOfFormat(n: nat)
    ensures DigitsValue(FormatNat(n)) == n
    decreases n
  {
    if n >= 10 {
      var d := FormatNat(n);
      assert d[..|d| - 1] == FormatNat(n / 10);
      DigitsValueOfFormat(n / 10);
    }
  }

  /** Text that neither starts nor ends with white space parses as it is. */
  lemma {:induction false} ParseUnpadded(s: string)
    requires |s| > 0 && !IsSpace(s[0]) && !IsSpace(s[|s| - 1])
    ensures ParseInt(s) == ParseStripped(s)
  {
    assert TrimLeft(s) == s;
  }

  /** The value of a run of digits is unaffected by separator removal, and
      every digit counts towards the limit. */
  lemma {:induction false} BodyValueOfDigits(d: string)
    requires |d| > 0 && AllDigits(d)
    ensures WellFormedBody(d) && BodyValue(d) == DigitsValue(d)
    ensures WithinDigitLimit(d) <==> |d| <= MaxStrDigits
  {
    DropSeparatorsOfDigits(d);
  }

  /** A nonempty run of digits parses to its value, unless it is longer
      than the limit. */
  lemma {:induction false} ParseDigits(d: string)
    requires |d| > 0 && AllDigits(d)
    ensures ParseInt(d) == if |d| <= MaxStrDigits then Some(DigitsValue(d) as int) else None
  {
    ParseUnpadded(d);
    BodyValueOfDigits(d);
  }

  /** A minus sign before a well-formed body negates its value. */
  lemma {:induction false} ParseStrippedNegated(d: string)
    requires WellFormedBody(d)
    ensures ParseStripped("-" + d) == if WithinDigitLimit(d) then Some(-(BodyValue(d) as int)) else None
  {
    var s := "-" + d;
    assert s[0] == '-' && s[1..] == d;
  }

  /** A minus sign followed by a nonempty run of digits parses to the
      negated value, unless the digits are longer than the limit. */
  lemma {:induction false} ParseNegatedDigits(d: string)
    requires |d| > 0 && AllDigits(d)
    ensures ParseInt("-" + d) == if |d| <= MaxStrDigits then Some(-(DigitsValue(d) as int)) else None
  {
    var s := "-" + d;
    assert s[|s| - 1] == d[|d| - 1];
    ParseUnpadded(s);
    BodyValueOfDigits(d);
    ParseStrippedNegated(d);
  }

  /** Every integer within the digit limit is read back from its decimal
      text; the text of a longer one is refused. */
  lemma {:induction false} ParseFormatRoundTrip(n: int)
    ensures ParseInt(FormatInt(n)) == if FitsDigitLimit(n) then Some(n) else None
  {
    if n < 0 {
      ParseFormatNegative(n);
    } else {
      ParseFormatNonNegative(n);
    }
  }

  /** The round trip for negative integers, whose text carries a sign. */
  lemma {:induction false} ParseFormatNegative(n: int)
    requires n < 0
    ensures ParseInt(FormatInt(n)) == if FitsDigitLimit(n) then Some(n) else None
  {
    var d := FormatNat(-n);
    calc {
      ParseInt(FormatInt(n));
    == { assert FormatInt(n) == "-" + d; }
      ParseInt("-" + d);
    == { ParseNegatedDigits(d); }
      if |d| <= MaxStrDigits then Some(-(DigitsValue(d) as int)) else None;
    == { DigitsValueOfFormat(-n); assert FitsDigitLimit(n) <==> |d| <= MaxStrDigits; }
      if FitsDigitLimit(n) then Some(n) else None;
    }
  }

  /** The round trip for the integers rendered as bare digits. */
  lemma {:induction false} ParseFormatNonNegative(n: int)
    requires n >= 0
    ensures ParseInt(FormatInt(n)) == if FitsDigitLimit(n) then Some(n) else None
  {
    var d := FormatNat(n);
    calc {
      ParseInt(FormatInt(n));
    == { assert FormatInt(n) == d; }
      ParseInt(d);
    == { ParseDigits(d); }
      if |d| <= MaxStrDigits then Some(DigitsValue(d) as int) else None;
    == { DigitsValueOfFormat(n); assert FitsDigitLimit(n) <==> |d| <= MaxStrDigits; }
      if FitsDigitLimit(n) then Some(n) else None;
    }
  }

  /** `_validate_minutes` accepts the decimal text of an integer exactly when
      that integer is strictly positive and within the digit limit, and then
      returns it. */
  lemma {:induction false} ValidateMinutesOfFormat(n: int)
    ensures ValidateMinutes(FormatInt(n)) == (if n > 0 && FitsDigitLimit(n) then Some(n) else None)
  {
    ParseFormatRoundTrip(n);
  }

  /** A run of more digits than the limit allows is rejected, however large
      or small the number it spells. */
  lemma {:induction false} ValidateMinutesRejectsLong(d: string)
    requires AllDigits(d) && |d| > MaxStrDigits
    ensures ValidateMinutes(d) == None
  {
    ParseDigits(d);
  }

  /** Inputs the handler must reject: a negative number, zero, a word and
      the empty text. */
  lemma {:induction false} ValidateMinutesRejects()
    ensures ValidateMinutes("-5") == None
    ensures ValidateMinutes("0") == None
    ensures ValidateMinutes("abc") == None
    ensures ValidateMinutes("") == None
  {
    assert FormatInt(-5) == "-5";
    ValidateMinutesOfFormat(-5);
    assert FormatInt(0) == "0";
    ValidateMinutesOfFormat(0);
    var w := "abc";
    ParseUnpadded(w);
    assert !IsDigit(w[0]);
    assert TrimRight(TrimLeft("")) == "";
  }

  /** A file separator before the digits is not white space to `int()`, so
      the text is rejected. */
  lemma {:induction false} ValidateMinutesRejectsSeparator()
    ensures ValidateMinutes([28 as char, '5']) == None
  {
    var s := [28 as char, '5'];
    ParseUnpadded(s);
  }

  /** Separator removal distributes over concatenation. */
  lemma {:induction false} DropSeparatorsAppend(x: string, y: string)
    requires forall i :: 0 <= i < |x| ==> IsDigit(x[i]) || x[i] == '_'
    requires forall i :: 0 <= i < |y| ==> IsDigit(y[i]) || y[i] == '_'
    ensures DropSeparators(x + y) == DropSeparators(x) + DropSeparators(y)
    decreases |x|
  {
    if |x| == 0 {
      assert x + y == y;
    } else {
      var head := if x[0] == '_' then [] else [x[0]];
      calc {
        DropSeparators(x + y);
      == { assert (x + y)[0] == x[0] && (x + y)[1..] == x[1..] + y; }
        head + DropSeparators(x[1..] + y);
      == { DropSeparatorsAppend(x[1..], y); }
        head + (DropSeparators(x[1..]) + DropSeparators(y));
      ==
        (head + DropSeparators(x[1..])) + DropSeparators(y);
      ==
        DropSeparators(x) + DropSeparators(y);
      }
    }
  }

  /** A well-formed body without a sign parses to its value. */
  lemma {:induction false} ParseStrippedUnsigned(t: string)
    requires WellFormedBody(t)
    ensures ParseStripped(t) == if WithinDigitLimit(t) then Some(BodyValue(t) as int) else None
  {
  }

  /** Two runs of digits joined by one underscore form a well-formed body
      whose digits are the two runs run together. */
  lemma {:induction false} GroupedBody(a: string, b: string)
    requires |a| > 0 && AllDigits(a) && |b| > 0 && AllDigits(b)
    ensures WellFormedBody(a + "_" + b)
    ensures DropSeparators(a + "_" + b) == a + b
    ensures BodyValue(a + "_" + b) == DigitsValue(a + b)
  {
    var t := a + "_" + b;
    forall i | 0 < i < |t| && t[i] == '_'
      ensures t[i - 1] != '_'
    {
      assert i == |a|;
    }
    assert DropSeparators(t) == a + b by {
      var u := "_" + b;
      assert t == a + u;
      calc {
        DropSeparators(a + u);
      == { DropSeparatorsAppend(a, u); }
        DropSeparators(a) + DropSeparators(u);
      == { assert u[1..] == b; DropSeparatorsOfDigits(a); }
        a + DropSeparators(b);
      == { DropSeparatorsOfDigits(b); }
        a + b;
      }
    }
  }

  /** An underscore between two runs of digits does not change the number
      `int()` reads. */
  lemma {:induction false} ParseGroupedDigits(a: string, b: string)
    requires |a| > 0 && AllDigits(a) && |b| > 0 && AllDigits(b)
    ensures ParseInt(a + "_" + b) == ParseInt(a + b)
  {
    var t := a + "_" + b;
    GroupedBody(a, b);
    ParseStrippedUnsigned(t);
    assert t[0] == a[0] && t[|t| - 1] == b[|b| - 1];
    ParseUnpadded(t);
    ParseDigits(a + b);
  }
}
