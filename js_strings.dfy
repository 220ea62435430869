/**
 * The parts of JavaScript's string and number built-ins the scorekeeper relies on:
 * `String.prototype.trim`, the decimal text of an integer in a template literal,
 * `parseInt` without a radix argument, and `isNaN` applied to a string.
 */
module JsStrings {
  import opened Wrappers

  /** The WhiteSpace and LineTerminator code points of ECMAScript: the set `trim` removes. */
  predicate IsWhitespace(c: char) {
    var n := c as int;
    n == 0x09 || n == 0x0A || n == 0x0B || n == 0x0C || n == 0x0D || n == 0x20 || n == 0xA0
    || n == 0x1680 || (0x2000 <= n <= 0x200A) || n == 0x2028 || n == 0x2029
    || n == 0x202F || n == 0x205F || n == 0x3000 || n == 0xFEFF
  }

  predicate AllWhitespace(s: string) {
    forall k :: 0 <= k < |s| ==> IsWhitespace(s[k])
  }

  /** Neither end of `s` is whitespace. */
  predicate IsTrimmed(s: string) {
    s == [] || (!IsWhitespace(s[0]) && !IsWhitespace(s[|s| - 1]))
  }

  /** The number of whitespace characters at the start of `s`. */
  function LeadingWhitespace(s: string): (n: nat)
    ensures n <= |s|
    ensures forall k :: 0 <= k < n ==> IsWhitespace(s[k])
    ensures n < |s| ==> !IsWhitespace(s[n])
  {
    if s != [] && IsWhitespace(s[0]) then 1 + LeadingWhitespace(s[1..]) else 0
  }

  /** Drops the leading whitespace of `s`. */
  function TrimStart(s: string): string {
    s[LeadingWhitespace(s)..]
  }

  /** The number of whitespace characters at the end of `s`. */
  function TrailingWhitespace(s: string): (n: nat)
    ensures n <= |s|
    ensures forall k :: |s| - n <= k < |s| ==> IsWhitespace(s[k])
    ensures n < |s| ==> !IsWhitespace(s[|s| - 1 - n])
  {
    if s != [] && IsWhitespace(s[|s| - 1]) then 1 + TrailingWhitespace(s[..|s| - 1]) else 0
  }

  /** Drops the trailing whitespace of `s`. */
  function TrimEnd(s: string): string {
    s[..|s| - TrailingWhitespace(s)]
  }

  /** `s.trim()`: the result has no whitespace at either end, and it is empty exactly when `s` is blank. */
  function Trim(s: string): (r: string)
    ensures IsTrimmed(r)
    ensures r == [] <==> AllWhitespace(s)
  {
    var t := TrimStart(s);
    var r := TrimEnd(t);
    assert r == [] ==> AllWhitespace(s) by {
      if r == [] {
        assert s == s[..|s| - |t|] + t;
        assert t == t[|r|..];
      }
    }
    r
  }

  lemma {:induction false} LeadingWhitespaceOfPadded(w: string, rest: string)
    requires AllWhitespace(w)
    requires rest == [] || !IsWhitespace(rest[0])
    ensures LeadingWhitespace(w + rest) == |w|
  {
    if w != [] {
      assert (w + rest)[1..] == w[1..] + rest;
      LeadingWhitespaceOfPadded(w[1..], rest);
    } else {
      assert w + rest == rest;
    }
  }

  lemma TrimStartOfPadded(w: string, rest: string)
    requires AllWhitespace(w)
    requires rest == [] || !IsWhitespace(rest[0])
    ensures TrimStart(w + rest) == rest
  {
    LeadingWhitespaceOfPadded(w, rest);
    assert (w + rest)[|w|..] == rest;
  }

  lemma {:induction false} TrailingWhitespaceOfPadded(rest: string, w: string)
    requires AllWhitespace(w)
    requires rest == [] || !IsWhitespace(rest[|rest| - 1])
    ensures TrailingWhitespace(rest + w) == |w|
  {
    if w != [] {
      assert (rest + w)[..|rest + w| - 1] == rest + w[..|w| - 1];
      TrailingWhitespaceOfPadded(rest, w[..|w| - 1]);
    } else {
      assert rest + w == rest;
    }
  }

  lemma TrimEndOfPadded(rest: string, w: string)
    requires AllWhitespace(w)
    requires rest == [] || !IsWhitespace(rest[|rest| - 1])
    ensures TrimEnd(rest + w) == rest
  {
    TrailingWhitespaceOfPadded(rest, w);
    assert (rest + w)[..|rest|] == rest;
  }

  /** `trim` removes exactly the whitespace padding around a text whose ends are not whitespace. */
  lemma TrimOfPadded(before: string, text: string, after: string)
    requires AllWhitespace(before) && AllWhitespace(after)
    requires IsTrimmed(text)
    ensures Trim(before + text + after) == text
  {
    if text == [] {
      assert before + text + after == before + after;
      assert AllWhitespace(before + after);
    } else {
      assert before + text + after == before + (text + after);
      TrimStartOfPadded(before, text + after);
      TrimEndOfPadded(text, after);
    }
  }

  // ---------------------------------------------------------------------------
  // Digits

  /** The value of `c` as a digit in radixes up to 36 (`0`-`9`, then `a`-`z` or `A`-`Z`); 36 when it is none. */
  function DigitValue(c: char): nat {
    if '0' <= c <= '9' then c as int - '0' as int
    else if 'a' <= c <= 'z' then c as int - 'a' as int + 10
    else if 'A' <= c <= 'Z' then c as int - 'A' as int + 10
    else 36
  }

  predicate IsDigitIn(c: char, radix: nat) {
    DigitValue(c) < radix
  }

  predicate AllDigits(s: string) {
    forall k :: 0 <= k < |s| ==> IsDigitIn(s[k], 10)
  }

  /** The length of the longest prefix of `s` made of digits of `radix`. */
  function LeadingDigits(s: string, radix: nat): (n: nat)
    ensures n <= |s|
    ensures forall k :: 0 <= k < n ==> IsDigitIn(s[k], radix)
    ensures n < |s| ==> !IsDigitIn(s[n], radix)
  {
    if s != [] && IsDigitIn(s[0], radix) then 1 + LeadingDigits(s[1..], radix) else 0
  }

  /** The number written by the digits `s` in `radix`, most significant digit first. */
  function DigitsValue(s: string, radix: nat): int {
    if s == [] then 0 else DigitsValue(s[..|s| - 1], radix) * radix + DigitValue(s[|s| - 1])
  }

  function DigitChar(d: nat): (c: char)
    requires d < 10
    ensures IsDigitIn(c, 10) && DigitValue(c) == d
  {
    ('0' as int + d) as char
  }

  /** The decimal text of `n`, as a template literal `${n}` writes it. */
  function NatToString(n: nat): (s: string)
    ensures s != [] && AllDigits(s)
    ensures s[0] == '0' <==> n == 0
    ensures |s| > 1 ==> s[0] != '0'
  {
    if n < 10 then [DigitChar(n)] else NatToString(n / 10) + [DigitChar(n % 10)]
  }

  /** Reading back the decimal text of `n` gives `n`. */
  lemma {:induction false} NatToStringValue(n: nat)
    ensures DigitsValue(NatToString(n), 10) == n
  {
    var s := NatToString(n);
    if n < 10 {
      assert s[..0] == [];
    } else {
      assert s[..|s| - 1] == NatToString(n / 10);
      NatToStringValue(n / 10);
    }
  }

  // ---------------------------------------------------------------------------
  // parseInt and isNaN

  /**
   * `parseInt(s)` with no radix: leading whitespace and one sign are skipped, then the
   * digits are read as `ParseUnsigned` does; `None` is NaN.
   */
  function ParseInt(s: string): (r: Option<int>)
    ensures AllWhitespace(s) ==> r.None?
    ensures var t := TrimStart(s);
      t != [] && !IsDigitIn(t[0], 10) && t[0] != '-' && t[0] != '+' ==> r.None?
  {
    ParseSigned(TrimStart(s))
  }

  /** `parseInt` of a text with no leading whitespace: one `-` negates the number that follows, one `+` is dropped. */
  function ParseSigned(t: string): Option<int> {
    if t != [] && t[0] == '-' then
      match ParseUnsigned(t[1..])
      case Some(v) => Some(-v)
      case None => None
    else
      ParseUnsigned(if t != [] && t[0] == '+' then t[1..] else t)
  }

  /** A `0x`/`0X` prefix selects radix 16, otherwise radix 10; the longest run of digits that follows is read. */
  function ParseUnsigned(u: string): Option<int> {
    var hex := |u| >= 2 && u[0] == '0' && (u[1] == 'x' || u[1] == 'X');
    var radix := if hex then 16 else 10;
    var digits := if hex then u[2..] else u;
    var n := LeadingDigits(digits, radix);
    if n == 0 then None else Some(DigitsValue(digits[..n], radix))
  }

  /** An optional exponent part `e`/`E`, an optional sign, and at least one decimal digit. */
  predicate IsOptionalExponent(e: string) {
    e == [] ||
    (e[0] in "eE" &&
     var f := if |e| > 1 && e[1] in "+-" then e[2..] else e[1..];
     f != [] && AllDigits(f))
  }

  /** `Infinity`, or digits with an optional fraction and exponent (at least one digit in all). */
  predicate IsUnsignedDecimal(u: string) {
    u == "Infinity" ||
    var a := LeadingDigits(u, 10);
    var rest := u[a..];
    if rest != [] && rest[0] == '.' then
      var b := LeadingDigits(rest[1..], 10);
      (a > 0 || b > 0) && IsOptionalExponent(rest[1 + b..])
    else
      a > 0 && IsOptionalExponent(rest)
  }

  /** `0b`, `0o` or `0x` (either case) followed by at least one digit of that radix, and nothing else. */
  predicate IsNonDecimalInteger(t: string) {
    |t| >= 3 && t[0] == '0' &&
    var radix := if t[1] in "bB" then 2 else if t[1] in "oO" then 8 else if t[1] in "xX" then 16 else 0;
    radix != 0 && LeadingDigits(t[2..], radix) == |t| - 2
  }

  /** A trimmed text that converts to a number: empty (which converts to 0), a non-decimal integer literal, or a signed decimal literal. */
  predicate IsNumericLiteral(t: string): (b: bool)
    ensures b ==> t == [] || IsDigitIn(t[0], 10) || t[0] in "+-.I"
  {
    t == [] || IsNonDecimalInteger(t) ||
    (var u := if t[0] == '+' || t[0] == '-' then t[1..] else t;
     IsUnsignedDecimal(u))
  }

  /** `!isNaN(s)` for a string `s`: its trimmed text converts to a number. */
  predicate IsNumericString(s: string): (b: bool)
    ensures AllWhitespace(s) ==> b
    ensures b ==> var t := Trim(s); t == [] || IsDigitIn(t[0], 10) || t[0] in "+-.I"
  {
    IsNumericLiteral(Trim(s))
  }

  lemma DigitIsNotWhitespace(c: char)
    requires IsDigitIn(c, 10)
    ensures !IsWhitespace(c) && c != '-' && c != '+' && c != 'x' && c != 'X' && c != '.'
  {
  }

  /** A run of decimal digits is read as the number it writes. */
  lemma ParseUnsignedOfDigits(s: string)
    requires s != [] && AllDigits(s)
    ensures ParseUnsigned(s) == Some(DigitsValue(s, 10))
  {
    if |s| >= 2 {
      DigitIsNotWhitespace(s[1]);
    }
    assert LeadingDigits(s, 10) == |s|;
    assert s[..|s|] == s;
  }

  /** `parseInt` reads a run of decimal digits as the number they write. */
  lemma ParseIntOfDigits(s: string)
    requires s != [] && AllDigits(s)
    ensures ParseInt(s) == Some(DigitsValue(s, 10))
  {
    DigitIsNotWhitespace(s[0]);
    assert TrimStart(s) == s;
    ParseUnsignedOfDigits(s);
  }

  /** `trim` leaves a text whose ends are not whitespace unchanged. */
  lemma TrimOfTrimmed(s: string)
    requires IsTrimmed(s)
    ensures Trim(s) == s
  {
    if s != [] {
      assert LeadingWhitespace(s) == 0;
      assert s[0..] == s;
      assert TrailingWhitespace(s) == 0;
      assert s[..|s|] == s;
    }
  }

  /** A run of decimal digits is an unsigned decimal literal. */
  lemma DigitsAreUnsignedDecimal(s: string)
    requires s != [] && AllDigits(s)
    ensures IsUnsignedDecimal(s)
  {
    assert LeadingDigits(s, 10) == |s|;
    assert s[|s|..] == [];
  }

  /** A run of decimal digits passes the numeric test. */
  lemma DigitsAreNumeric(s: string)
    requires s != [] && AllDigits(s)
    ensures IsNumericString(s)
  {
    DigitIsNotWhitespace(s[0]);
    DigitIsNotWhitespace(s[|s| - 1]);
    TrimOfTrimmed(s);
    DigitsAreUnsignedDecimal(s);
  }

  /** `parseInt` and the numeric test both read the decimal text of a natural number back as that number. */
  lemma DecimalTextParses(n: nat)
    ensures IsNumericString(NatToString(n))
    ensures ParseInt(NatToString(n)) == Some(n)
  {
    var s := NatToString(n);
    ParseIntOfDigits(s);
    DigitsAreNumeric(s);
    NatToStringValue(n);
  }

  /** A text that does not start with whitespace has nothing to drop at its start. */
  lemma TrimStartOfUnpadded(s: string)
    requires s != [] && !IsWhitespace(s[0])
    ensures TrimStart(s) == s
  {
  }

  /** `parseInt` reads a minus sign in front of a number as that number negated. */
  lemma ParseIntOfNegative(u: string, v: int)
    requires ParseUnsigned(u) == Some(v)
    ensures ParseInt("-" + u) == Some(-v)
  {
    var s := "-" + u;
    assert s[0] == '-';
    TrimStartOfUnpadded(s);
    assert s[1..] == u;
  }

  /** The decimal text of `n` is read back as `n`. */
  lemma ParseUnsignedOfDecimal(n: nat)
    ensures ParseUnsigned(NatToString(n)) == Some(n)
  {
    ParseUnsignedOfDigits(NatToString(n));
    NatToStringValue(n);
  }

  /** `parseInt` reads a minus sign in front of the decimal text of `n` as `-n`. */
  lemma NegativeTextParses(n: nat)
    ensures ParseInt("-" + NatToString(n)) == Some(-(n as int))
  {
    ParseUnsignedOfDecimal(n);
    ParseIntOfNegative(NatToString(n), n);
  }

  /** Whitespace in front of a text does not change what `parseInt` reads from it. */
  lemma {:induction false} LeadingWhitespaceOfPrefixed(w: string, s: string)
    requires AllWhitespace(w)
    ensures LeadingWhitespace(w + s) == |w| + LeadingWhitespace(s)
  {
    if w != [] {
      assert (w + s)[1..] == w[1..] + s;
      LeadingWhitespaceOfPrefixed(w[1..], s);
    } else {
      assert w + s == s;
    }
  }

  lemma ParseIntIgnoresLeadingWhitespace(w: string, s: string)
    requires AllWhitespace(w)
    ensures ParseInt(w + s) == ParseInt(s)
  {
    var n := LeadingWhitespace(s);
    LeadingWhitespaceOfPrefixed(w, s);
    assert TrimStart(w + s) == TrimStart(s) by {
      assert (w + s)[|w| + n..] == s[n..];
    }
  }

  /**
   * `parseInt` reads the run of decimal digits at the start of a text and ignores whatever
   * follows it (unless a lone `0` is followed by `x`, which selects radix 16).
   */
  lemma ParseIntOfDigitsThenText(d: string, rest: string)
    requires d != [] && AllDigits(d)
    requires rest == [] || (!IsDigitIn(rest[0], 10) && rest[0] != 'x' && rest[0] != 'X')
    ensures ParseInt(d + rest) == Some(DigitsValue(d, 10))
  {
    var u := d + rest;
    DigitIsNotWhitespace(u[0]);
    TrimStartOfUnpadded(u);
    if |d| >= 2 {
      DigitIsNotWhitespace(u[1]);
    }
    assert LeadingDigits(u, 10) == |d| by {
      LeadingDigitsOfPrefix(d, rest);
    }
    assert u[..|d|] == d;
  }

  /** The leading run of digits of `d + rest` is `d` when `rest` does not start with a digit. */
  lemma {:induction false} LeadingDigitsOfPrefix(d: string, rest: string)
    requires AllDigits(d)
    requires rest == [] || !IsDigitIn(rest[0], 10)
    ensures LeadingDigits(d + rest, 10) == |d|
  {
    if d != [] {
      assert (d + rest)[1..] == d[1..] + rest;
      LeadingDigitsOfPrefix(d[1..], rest);
    } else {
      assert d + rest == rest;
    }
  }

  /** `12px`: `parseInt` reads 12, but the numeric test rejects the text. */
  lemma DigitsThenLettersParseButAreNaN()
    ensures ParseInt("12px") == Some(12)
    ensures !IsNumericString("12px")
  {
    TwelveParses();
    TwelvePxIsNaN();
  }

  lemma TwelveParses()
    ensures ParseInt("12px") == Some(12)
  {
    assert "12px" == "12" + "px";
    ParseIntOfDigitsThenText("12", "px");
    assert DigitsValue("12", 10) == 12 by {
      assert "12"[..1] == "1";
      assert "1"[..0] == [];
    }
  }

  lemma TwelvePxIsNaN()
    ensures !IsNumericString("12px")
  {
    TrimOfTrimmed("12px");
    TwelvePxIsNotLiteral();
  }

  lemma TwelvePxIsNotLiteral()
    ensures !IsNumericLiteral("12px")
  {
    var t := "12px";
    assert t == "12" + "px";
    LeadingDigitsOfPrefix("12", "px");
    assert t[2..] == "px";
    assert !IsNonDecimalInteger(t);
    assert !IsUnsignedDecimal(t);
  }

  /** `0x1A` is numeric, and `parseInt` reads it in radix 16 as 26. */
  lemma HexTextParses()
    ensures IsNumericString("0x1A")
    ensures ParseInt("0x1A") == Some(26)
  {
    HexDigitsValue();
    HexIsNumeric();
    HexParses();
  }

  lemma HexDigitsValue()
    ensures LeadingDigits("1A", 16) == 2
    ensures DigitsValue("1A", 16) == 26
  {
    assert "1A"[1..] == "A";
    assert "A"[1..] == [];
    assert "1A"[..1] == "1";
    assert "1"[..0] == [];
  }

  lemma HexIsNumeric()
    requires LeadingDigits("1A", 16) == 2
    ensures IsNumericString("0x1A")
  {
    TrimOfTrimmed("0x1A");
    HexIsLiteral();
  }

  lemma HexIsLiteral()
    requires LeadingDigits("1A", 16) == 2
    ensures IsNumericLiteral("0x1A")
  {
    var t := "0x1A";
    assert t[2..] == "1A";
    assert IsNonDecimalInteger(t);
  }

  lemma HexParses()
    requires LeadingDigits("1A", 16) == 2 && DigitsValue("1A", 16) == 26
    ensures ParseInt("0x1A") == Some(26)
  {
    var t := "0x1A";
    TrimStartOfUnpadded(t);
    assert t[2..] == "1A";
    assert "1A"[..2] == "1A";
    assert ParseUnsigned(t) == Some(26);
  }
}
