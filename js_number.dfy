/** Which strings `isNaN` rejects. `isNaN(s)` converts the string with
    `Number(s)`, which follows the StringNumericLiteral grammar of ECMA-262
    (section 7.1.4.1.1, StringToNumber): surrounding whitespace is ignored,
    the empty string is 0, and otherwise the text must be a signed decimal
    literal (digits, an optional fraction, an optional exponent, or
    `Infinity`) or an unsigned binary, octal or hexadecimal integer literal.
    Numeric separators are not accepted there. The numeric value is not
    modelled; only whether the text is NaN. */
module JsNumber {
  import opened JsStrings

  predicate IsDigit(c: char, radix: nat) {
    if radix == 16 then ('0' <= c <= '9') || ('a' <= c <= 'f') || ('A' <= c <= 'F')
    else '0' <= c && (c as int) < ('0' as int) + radix
  }

  /** A non-empty run of digits in the given radix. */
  predicate IsDigits(s: string, radix: nat) {
    |s| > 0 && forall i :: 0 <= i < |s| ==> IsDigit(s[i], radix)
  }

  predicate IsSign(c: char) {
    c == '+' || c == '-'
  }

  predicate IsExponentMarker(c: char) {
    c == 'e' || c == 'E'
  }

  /** `0b…`, `0o…` or `0x…` with at least one digit; no sign allowed. */
  predicate IsNonDecimalIntegerLiteral(s: string) {
    && |s| >= 3
    && s[0] == '0'
    && (|| ((s[1] == 'b' || s[1] == 'B') && IsDigits(s[2..], 2))
        || ((s[1] == 'o' || s[1] == 'O') && IsDigits(s[2..], 8))
        || ((s[1] == 'x' || s[1] == 'X') && IsDigits(s[2..], 16)))
  }

  /** The exponent's integer: digits with an optional sign. */
  predicate IsSignedInteger(s: string) {
    if |s| > 0 && IsSign(s[0]) then IsDigits(s[1..], 10) else IsDigits(s, 10)
  }

  /** Digits, digits with a fraction, or a fraction alone: `5`, `5.`,
      `5.25`, `.25`. */
  predicate IsMantissa(m: string) {
    var d := IndexOfChar(m, '.');
    if d == |m| then IsDigits(m, 10)
    else
      && |m| > 1
      && (d == 0 || IsDigits(m[..d], 10))
      && (d == |m| - 1 || IsDigits(m[d + 1..], 10))
  }

  /** The position of the first exponent marker, or `|s|`. */
  function IndexOfExponent(s: string): (k: nat)
    ensures k <= |s|
    ensures k < |s| ==> IsExponentMarker(s[k])
    ensures forall i :: 0 <= i < k ==> !IsExponentMarker(s[i])
  {
    IndexWhere(s, IsExponentMarker)
  }

  /** StrUnsignedDecimalLiteral: `Infinity`, or a mantissa with an optional
      exponent part. */
  predicate IsUnsignedDecimalLiteral(s: string) {
    || s == "Infinity"
    || var e := IndexOfExponent(s);
       IsMantissa(s[..e]) && (e == |s| || IsSignedInteger(s[e + 1..]))
  }

  /** StrDecimalLiteral: an unsigned decimal literal with an optional sign. */
  predicate IsDecimalLiteral(s: string) {
    if |s| > 0 && IsSign(s[0]) then IsUnsignedDecimalLiteral(s[1..])
    else IsUnsignedDecimalLiteral(s)
  }

  /** `isNaN(s)` for a string `s`. Blank text is 0, and `Infinity` with or
      without a sign is a number, so neither is NaN. */
  function IsNaN(s: string): (b: bool)
    ensures b ==> Trim(s) != []
    ensures b ==> !NamesInfinity(Trim(s))
  {
    var t := Trim(s);
    assert NamesInfinity(t) ==> IsDecimalLiteral(t) by {
      assert !IsSign('I');
    }
    !(t == [] || IsDecimalLiteral(t) || IsNonDecimalIntegerLiteral(t))
  }

  /** Decimal digits are neither signs, exponent markers nor points. */
  lemma DigitsAreNotPunctuation(s: string)
    requires IsDigits(s, 10)
    ensures !IsSign(s[0])
    ensures forall i :: 0 <= i < |s| ==> !IsExponentMarker(s[i]) && s[i] != '.'
  {
    assert IsDigit(s[0], 10);
    forall i | 0 <= i < |s|
      ensures !IsExponentMarker(s[i]) && s[i] != '.'
    {
      assert IsDigit(s[i], 10);
    }
  }

  /** Any run of decimal digits is a number. */
  lemma DigitsAreNumeric(s: string)
    requires IsDigits(s, 10)
    ensures !IsNaN(s)
  {
    DigitsAreNotPunctuation(s);
    assert s[..IndexOfExponent(s)] == s;
    assert IndexOfChar(s, '.') == |s|;
    assert [] + s + [] == s;
    TrimUnique([], s, []);
  }

  /** `Infinity`, with or without a sign: the one numeral without digits. */
  predicate NamesInfinity(t: string) {
    t == "Infinity" || (|t| > 0 && IsSign(t[0]) && t[1..] == "Infinity")
  }

  /** A mantissa has a decimal digit, before or after its point. */
  lemma MantissaDigit(m: string) returns (i: nat)
    requires IsMantissa(m)
    ensures i < |m| && IsDigit(m[i], 10)
  {
    var d := IndexOfChar(m, '.');
    if d == |m| {
      i := 0;
    } else if d == 0 {
      i := 1;
      assert m[d + 1..][0] == m[1];
    } else {
      i := 0;
      assert m[..d][0] == m[0];
    }
  }

  /** Every decimal literal other than `Infinity` contains a decimal digit. */
  lemma DecimalLiteralHasDigit(t: string)
    ensures IsDecimalLiteral(t) && !NamesInfinity(t) ==> exists i :: 0 <= i < |t| && IsDigit(t[i], 10)
  {
    if IsDecimalLiteral(t) && !NamesInfinity(t) {
      var off := if |t| > 0 && IsSign(t[0]) then 1 else 0;
      var u := t[off..];
      var e := IndexOfExponent(u);
      var j := MantissaDigit(u[..e]);
      assert t[off + j] == u[..e][j];
    }
  }

  /** Text that, once trimmed, has no decimal digit and is not `Infinity`
      is not a number. */
  lemma WithoutDigitsIsNaN(s: string)
    requires Trim(s) != [] && !NamesInfinity(Trim(s))
    requires forall i :: 0 <= i < |Trim(s)| ==> !IsDigit(Trim(s)[i], 10)
    ensures IsNaN(s)
  {
    DecimalLiteralHasDigit(Trim(s));
  }
}
