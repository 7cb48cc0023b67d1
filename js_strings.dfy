/** The JavaScript string operations the server applies to chat bodies, chat
    ids and request headers: `trim`, `toUpperCase`, `startsWith`, `includes`,
    `replace` with a string pattern, and `split` on one character. Strings are
    sequences of Unicode scalar values. */
module JsStrings {

  datatype Option<+T> = None | Some(value: T)

  /** WhiteSpace or LineTerminator in ECMA-262: the characters `trim()` drops
      at both ends, and the ones `Number()` ignores around a numeral. */
  predicate IsWhitespace(c: char) {
    || c == '\t' || c == '\n' || c == '\U{B}' || c == '\U{C}' || c == '\r' || c == ' '
    || c == '\U{A0}' || c == '\U{1680}' || ('\U{2000}' <= c <= '\U{200A}')
    || c == '\U{2028}' || c == '\U{2029}' || c == '\U{202F}' || c == '\U{205F}'
    || c == '\U{3000}' || c == '\U{FEFF}'
  }

  predicate AllWhitespace(s: string) {
    forall i :: 0 <= i < |s| ==> IsWhitespace(s[i])
  }

  /** A string `trim()` leaves as it is: empty, or no whitespace at either end. */
  predicate IsTrimmed(s: string) {
    s == [] || (!IsWhitespace(s[0]) && !IsWhitespace(s[|s| - 1]))
  }

  // ---------------------------------------------------------------- trim

  /** Drops the leading whitespace: the result is the suffix that starts at
      the first non-whitespace character. */
  function TrimStart(s: string): (r: string)
    ensures |r| <= |s| && r == s[|s| - |r|..]
    ensures AllWhitespace(s[..|s| - |r|])
    ensures r == [] || !IsWhitespace(r[0])
  {
    if |s| > 0 && IsWhitespace(s[0]) then
      var r := TrimStart(s[1..]);
      assert s[..|s| - |r|] == [s[0]] + s[1..][..|s| - 1 - |r|];
      r
    else
      s
  }

  /** Drops the trailing whitespace: the result is the prefix that ends at
      the last non-whitespace character. */
  function TrimEnd(s: string): (r: string)
    ensures |r| <= |s| && r == s[..|r|]
    ensures AllWhitespace(s[|r|..])
    ensures r == [] || !IsWhitespace(r[|r| - 1])
  {
    if |s| > 0 && IsWhitespace(s[|s| - 1]) then
      var r := TrimEnd(s[..|s| - 1]);
      assert s[|r|..] == s[..|s| - 1][|r|..] + [s[|s| - 1]];
      r
    else
      s
  }

  /** `String.prototype.trim`: whitespace is dropped at both ends, and
      what remains has no whitespace at either end (`TrimParts` below shows
      that nothing else is dropped). */
  function Trim(s: string): (r: string)
    ensures IsTrimmed(r)
  {
    var t := TrimStart(s);
    var r := TrimEnd(t);
    assert r != [] ==> r[0] == t[0];
    r
  }

  /** Only an all-whitespace string trims to nothing. */
  lemma TrimEmpty(s: string)
    ensures Trim(s) == [] <==> AllWhitespace(s)
  {
    var p, q := TrimParts(s);
    if Trim(s) == [] {
      assert s == p + q;
      AllWhitespaceAppend(p, q);
    }
    if AllWhitespace(s) {
      assert s + [] + [] == s;
      TrimUnique(s, [], []);
    }
  }

  /** Whatever whitespace precedes a string that does not itself start with
      whitespace is exactly what `TrimStart` removes. */
  lemma {:induction false} TrimStartSkips(a: string, t: string)
    requires AllWhitespace(a)
    requires t == [] || !IsWhitespace(t[0])
    ensures TrimStart(a + t) == t
  {
    if a == [] {
      assert a + t == t;
    } else {
      assert (a + t)[0] == a[0];
      assert (a + t)[1..] == a[1..] + t;
      TrimStartSkips(a[1..], t);
    }
  }

  /** Whatever whitespace follows a string that does not itself end with
      whitespace is exactly what `TrimEnd` removes. */
  lemma {:induction false} TrimEndSkips(t: string, b: string)
    requires AllWhitespace(b)
    requires t == [] || !IsWhitespace(t[|t| - 1])
    ensures TrimEnd(t + b) == t
  {
    if b == [] {
      assert t + b == t;
    } else {
      var n := |b|;
      assert (t + b)[|t + b| - 1] == b[n - 1];
      assert (t + b)[..|t + b| - 1] == t + b[..n - 1];
      TrimEndSkips(t, b[..n - 1]);
    }
  }

  /** `trim()` is determined by its specification: a string that splits into
      a whitespace prefix, a trimmed middle and a whitespace suffix trims to
      that middle. */
  lemma {:induction false} TrimUnique(a: string, m: string, b: string)
    requires AllWhitespace(a) && AllWhitespace(b) && IsTrimmed(m)
    ensures Trim(a + m + b) == m
  {
    if m == [] {
      assert a + m + b == (a + b) + [];
      AllWhitespaceAppend(a, b);
      TrimStartSkips(a + b, []);
    } else {
      assert a + m + b == a + (m + b);
      TrimStartSkips(a, m + b);
      TrimEndSkips(m, b);
    }
  }

  /** Trimming twice trims once. */
  lemma TrimIdempotent(s: string)
    ensures Trim(Trim(s)) == Trim(s)
  {
    TrimOfTrimmed(Trim(s));
  }

  /** Text with no whitespace at either end is left alone by `trim()`. */
  lemma TrimOfTrimmed(t: string)
    requires IsTrimmed(t)
    ensures Trim(t) == t
  {
    assert TrimStart(t) == t by {
      assert [] + t == t;
      TrimStartSkips([], t);
    }
    assert TrimEnd(t) == t by {
      assert t + [] == t;
      TrimEndSkips(t, []);
    }
  }

  /** Whitespace added around a string is removed by `trim()`. */
  lemma TrimIgnoresPadding(before: string, s: string, after: string)
    requires AllWhitespace(before) && AllWhitespace(after)
    ensures Trim(before + s + after) == Trim(s)
  {
    var p, q := TrimParts(s);
    var m := Trim(s);
    AllWhitespaceAppend(before, p);
    AllWhitespaceAppend(q, after);
    Regroup(before, p, m, q, after);
    TrimUnique(before + p, m, q + after);
  }

  /** Every string is its trimmed middle between two runs of whitespace. */
  lemma TrimParts(s: string) returns (before: string, after: string)
    ensures AllWhitespace(before) && AllWhitespace(after)
    ensures s == before + Trim(s) + after
  {
    var t := TrimStart(s);
    var m := TrimEnd(t);
    before, after := s[..|s| - |t|], t[|m|..];
    assert t == m + after by { SplitAt(t, |m|); }
    assert s == before + t by { SplitAt(s, |s| - |t|); }
    Associate(before, m, after);
  }

  lemma Associate(a: string, b: string, c: string)
    ensures a + (b + c) == a + b + c
  {
  }

  lemma SplitAt(s: string, k: nat)
    requires k <= |s|
    ensures s == s[..k] + s[k..]
  {
  }

  lemma Regroup(w: string, p: string, m: string, q: string, x: string)
    ensures w + (p + m + q) + x == (w + p) + m + (q + x)
  {
  }

  lemma AllWhitespaceAppend(a: string, b: string)
    requires AllWhitespace(a) && AllWhitespace(b)
    ensures AllWhitespace(a + b)
  {
    assert forall j :: |a| <= j < |a + b| ==> (a + b)[j] == b[j - |a|];
  }

  // ---------------------------------------------------------- toUpperCase

  /** The upper-case mapping of `toUpperCase()` for one character, for the
      Basic Latin and Latin-1 Supplement blocks (including the two-character
      expansion of 'ß'); every other character maps to itself. */
  function UpperChar(c: char): (u: string)
    ensures 1 <= |u| <= 2
    ensures forall i :: 0 <= i < |u| ==> (IsWhitespace(u[i]) <==> IsWhitespace(c))
  {
    if ('a' <= c <= 'z') || ('\U{E0}' <= c <= '\U{FE}' && c != '\U{F7}' && c != 'ß') then
      [(c as int - 32) as char]
    else if c == 'ß' then "SS"
    else if c == 'ÿ' then "\U{178}"
    else if c == 'µ' then "\U{39C}"
    else [c]
  }

  /** `String.prototype.toUpperCase`, character by character: every
      character becomes one or two. */
  function ToUpperCase(s: string): (r: string)
    ensures |s| <= |r| <= 2 * |s|
  {
    if s == [] then [] else UpperChar(s[0]) + ToUpperCase(s[1..])
  }

  lemma {:induction false} UpperAppend(a: string, b: string)
    ensures ToUpperCase(a + b) == ToUpperCase(a) + ToUpperCase(b)
  {
    if a != [] {
      assert (a + b)[0] == a[0];
      assert (a + b)[1..] == a[1..] + b;
      UpperAppend(a[1..], b);
    } else {
      assert a + b == b;
    }
  }

  /** Strings that agree character by character once upper-cased, that is,
      differ only in letter case, upper-case to the same string. */
  lemma {:induction false} UpperIgnoresCase(s: string, t: string)
    requires |s| == |t|
    requires forall i :: 0 <= i < |s| ==> UpperChar(s[i]) == UpperChar(t[i])
    ensures ToUpperCase(s) == ToUpperCase(t)
  {
    if s != [] {
      assert UpperChar(s[0]) == UpperChar(t[0]);
      UpperIgnoresCase(s[1..], t[1..]);
    }
  }

  /** Upper-case text is left alone by `toUpperCase()`. */
  lemma UpperCharIdempotent(c: char)
    ensures ToUpperCase(UpperChar(c)) == UpperChar(c)
  {
    var u := UpperChar(c);
    if |u| == 1 {
      assert ToUpperCase(u) == UpperChar(u[0]) + ToUpperCase([]);
    } else {
      assert u == "SS";
      assert ToUpperCase(u) == UpperChar('S') + ToUpperCase("S");
    }
  }

  lemma {:induction false} UpperIdempotent(s: string)
    ensures ToUpperCase(ToUpperCase(s)) == ToUpperCase(s)
  {
    if s != [] {
      UpperAppend(UpperChar(s[0]), ToUpperCase(s[1..]));
      UpperCharIdempotent(s[0]);
      UpperIdempotent(s[1..]);
    }
  }

  /** `toUpperCase()` leaves whitespace as it is. */
  lemma {:induction false} UpperOfWhitespace(s: string)
    requires AllWhitespace(s)
    ensures ToUpperCase(s) == s
  {
    if s != [] {
      assert UpperChar(s[0]) == [s[0]];
      UpperOfWhitespace(s[1..]);
    }
  }

  /** `toUpperCase()` keeps a trimmed string trimmed. */
  lemma UpperKeepsTrimmed(s: string)
    requires IsTrimmed(s)
    ensures IsTrimmed(ToUpperCase(s))
    ensures s != [] ==> ToUpperCase(s) != []
  {
    if s != [] {
      var n := |s|;
      assert s == s[..n - 1] + [s[n - 1]];
      UpperAppend(s[..n - 1], [s[n - 1]]);
      assert ToUpperCase([s[n - 1]]) == UpperChar(s[n - 1]) + ToUpperCase([]);
    }
  }

  /** Upper-casing a padded string upper-cases only what the padding
      surrounds. */
  lemma UpperOfPadded(before: string, s: string, after: string)
    requires AllWhitespace(before) && AllWhitespace(after)
    ensures ToUpperCase(before + s + after) == before + ToUpperCase(s) + after
  {
    UpperAppend(before + s, after);
    UpperAppend(before, s);
    UpperOfWhitespace(before);
    UpperOfWhitespace(after);
  }

  /** Trimming and upper-casing commute. */
  lemma TrimUpperCommute(s: string)
    ensures ToUpperCase(Trim(s)) == Trim(ToUpperCase(s))
  {
    var a, b := TrimParts(s);
    var m := Trim(s);
    UpperOfPadded(a, m, b);
    UpperKeepsTrimmed(m);
    TrimUnique(a, ToUpperCase(m), b);
  }

  // ------------------------------------------------- prefixes and searches

  /** `String.prototype.startsWith`: a string starts with a pattern exactly
      when the pattern's first occurrence is at position 0. */
  function StartsWith(s: string, prefix: string): (b: bool)
    ensures b <==> IndexOf(s, prefix) == Some(0)
  {
    var b := |prefix| <= |s| && s[..|prefix|] == prefix;
    assert b ==> OccursAt(s, prefix, 0);
    b
  }

  predicate OccursAt(s: string, pat: string, i: int) {
    0 <= i && i + |pat| <= |s| && s[i..i + |pat|] == pat
  }

  /** The first occurrence of `pat` in `s` at or after `from`. */
  function IndexOfFrom(s: string, pat: string, from: nat): (r: Option<nat>)
    ensures r.Some? ==> from <= r.value && OccursAt(s, pat, r.value)
    ensures r.Some? ==> forall j :: from <= j < r.value ==> !OccursAt(s, pat, j)
    ensures r.None? ==> forall j :: from <= j ==> !OccursAt(s, pat, j)
    decreases |s| - from
  {
    if from + |pat| > |s| then None
    else if s[from..from + |pat|] == pat then Some(from)
    else IndexOfFrom(s, pat, from + 1)
  }

  /** `String.prototype.indexOf`, with `None` for -1: the first
      occurrence, or none at all. */
  function IndexOf(s: string, pat: string): (r: Option<nat>)
    ensures r.Some? ==> OccursAt(s, pat, r.value)
    ensures r.Some? ==> forall j :: 0 <= j < r.value ==> !OccursAt(s, pat, j)
    ensures r.None? ==> forall j :: !OccursAt(s, pat, j)
  {
    IndexOfFrom(s, pat, 0)
  }

  /** `String.prototype.includes`. */
  function Includes(s: string, pat: string): (b: bool)
    ensures b <==> exists i :: OccursAt(s, pat, i)
  {
    IndexOf(s, pat).Some?
  }

  /** A string occurs in anything built around it. */
  lemma IncludesMiddle(a: string, x: string, b: string)
    ensures Includes(a + x + b, x)
  {
    var s := a + x + b;
    assert s[|a|..|a| + |x|] == x;
    assert OccursAt(s, x, |a|);
  }

  /** `String.prototype.replace` with a string pattern: only the first
      occurrence (as `IndexOf` finds it) is replaced, so exactly one
      occurrence's worth of text is exchanged; without an occurrence the
      string is unchanged; and a pattern the string starts with is the one
      replaced. */
  function ReplaceFirst(s: string, pat: string, replacement: string): (r: string)
    ensures !Includes(s, pat) ==> r == s
    ensures Includes(s, pat) ==>
      var i := IndexOf(s, pat).value;
      r == s[..i] + replacement + s[i + |pat|..]
    ensures Includes(s, pat) ==> |r| == |s| - |pat| + |replacement|
    ensures StartsWith(s, pat) ==> r == replacement + s[|pat|..]
  {
    match IndexOf(s, pat)
    case None => s
    case Some(i) =>
      assert i == 0 ==> s[..i] == [];
      s[..i] + replacement + s[i + |pat|..]
  }

  /** In a trimmed string, the text after a prefix that ends in whitespace
      does not trim to nothing: the string's last character is not
      whitespace and lies beyond the prefix. */
  lemma RestAfterPadding(s: string, prefix: string)
    requires IsTrimmed(s) && StartsWith(s, prefix)
    requires prefix != [] && IsWhitespace(prefix[|prefix| - 1])
    ensures Trim(s[|prefix|..]) != []
  {
    var n := |prefix|;
    assert s[n - 1] == prefix[n - 1];
    assert |s| > n;
    var rest := s[n..];
    assert rest[|rest| - 1] == s[|s| - 1];
    TrimEmpty(rest);
  }

  // ------------------------------------------------------ split and join

  /** The position of the first character of `s` that satisfies `p`, or
      `|s|` when there is none. */
  function IndexWhere(s: string, p: char -> bool): (k: nat)
    ensures k <= |s|
    ensures k < |s| ==> p(s[k])
    ensures forall i :: 0 <= i < k ==> !p(s[i])
  {
    if s == [] || p(s[0]) then 0
    else IndexWhere(s[1..], p) + 1
  }

  /** The position of the first `c` in `s`, or `|s|`. */
  function IndexOfChar(s: string, c: char): (k: nat)
    ensures k <= |s|
    ensures k < |s| ==> s[k] == c
    ensures c !in s[..k]
  {
    var k := IndexWhere(s, x => x == c);
    assert forall i :: 0 <= i < k ==> s[..k][i] == s[i];
    k
  }

  /** Glues pieces back together with the separator between them. */
  function Join(parts: seq<string>, sep: char): string {
    if parts == [] then []
    else if |parts| == 1 then parts[0]
    else parts[0] + [sep] + Join(parts[1..], sep)
  }

  /** `String.prototype.split` with a one-character separator: the pieces
      between the separators, none of which contains it, and which join
      back to the original string. */
  function Split(s: string, sep: char): (parts: seq<string>)
    ensures |parts| >= 1
    ensures forall i :: 0 <= i < |parts| ==> sep !in parts[i]
    ensures Join(parts, sep) == s
    decreases |s|
  {
    var k := IndexOfChar(s, sep);
    if k == |s| then
      assert s[..k] == s;
      [s]
    else
      var rest := Split(s[k + 1..], sep);
      var parts := [s[..k]] + rest;
      assert parts[1..] == rest;
      assert s == s[..k] + [sep] + s[k + 1..];
      parts
  }

  /** Splitting undoes joining pieces that do not contain the separator. */
  lemma {:induction false} SplitJoin(parts: seq<string>, sep: char)
    requires |parts| >= 1
    requires forall i :: 0 <= i < |parts| ==> sep !in parts[i]
    ensures Split(Join(parts, sep), sep) == parts
  {
    var s := Join(parts, sep);
    if |parts| == 1 {
      assert s == parts[0];
      assert IndexOfChar(s, sep) == |s|;
    } else {
      var tail := Join(parts[1..], sep);
      assert s == parts[0] + [sep] + tail;
      var k := IndexOfChar(s, sep);
      assert forall j :: 0 <= j < |parts[0]| ==> s[j] == parts[0][j];
      assert forall j :: 0 <= j < k ==> s[..k][j] == s[j];
      assert s[|parts[0]|] == sep;
      assert s[..k] == parts[0];
      assert s[k + 1..] == tail;
      SplitJoin(parts[1..], sep);
    }
  }

  // ---------------------------------------------------------------- numbers

  /** The value of a string of decimal digits. */
  function DigitsValue(s: string): nat
    requires forall i :: 0 <= i < |s| ==> '0' <= s[i] <= '9'
  {
    if s == [] then 0
    else DigitsValue(s[..|s| - 1]) * 10 + (s[|s| - 1] as int - '0' as int)
  }

  /** The decimal numeral of a natural number, as `String(n)` writes it:
      digits only, no leading zero, and their value is `n`. */
  function DecimalText(n: nat): (r: string)
    ensures |r| >= 1
    ensures forall i :: 0 <= i < |r| ==> '0' <= r[i] <= '9'
    ensures r[0] == '0' ==> n == 0
    ensures DigitsValue(r) == n
  {
    var digit := ['0' + (n % 10) as char];
    if n < 10 then digit
    else
      var r := DecimalText(n / 10) + digit;
      assert r[..|r| - 1] == DecimalText(n / 10);
      r
  }
}
