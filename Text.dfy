/** The Kotlin string functions the app relies on (`isDigit`, `isWhitespace`,
    `trim`, `isBlank`, `removePrefix`, `startsWith`, `contains`, `lowercase`,
    `toString` of integers, `toIntOrNull`/`toLongOrNull`, `%02d`), each with
    the facts the rest of the model needs. */
module Text {
  import opened Wrappers
  import opened Seqs

  /** Kotlin `Char.isDigit()`, restricted to the ASCII digits. */
  predicate IsDigit(c: char) {
    '0' <= c <= '9'
  }

  /** Kotlin `Char.isWhitespace()`: Java's `isWhitespace` or `isSpaceChar`,
      that is the ASCII controls TAB..CR and FS..US plus the Unicode space,
      line and paragraph separators (no-break spaces included). */
  predicate IsWhitespace(c: char) {
    ('\U{9}' <= c <= '\U{D}') || ('\U{1C}' <= c <= '\U{20}')
    || c == '\U{A0}' || c == '\U{1680}' || ('\U{2000}' <= c <= '\U{200A}')
    || c == '\U{2028}' || c == '\U{2029}' || c == '\U{202F}' || c == '\U{205F}' || c == '\U{3000}'
  }

  predicate AllDigits(s: string) {
    forall i | 0 <= i < |s| :: IsDigit(s[i])
  }

  /** `s.filter(Char::isDigit)`. */
  function FilterDigits(s: string): (r: string)
    ensures AllDigits(r)
  {
    Filter(s, IsDigit)
  }

  /** The digits of a string are kept as they are: filtering a second time changes nothing. */
  lemma FilterDigitsIdempotent(s: string)
    ensures FilterDigits(FilterDigits(s)) == FilterDigits(s)
  {
    FilterAll(FilterDigits(s), IsDigit);
  }

  /** Kotlin `isBlank()`: empty or whitespace only. */
  predicate IsBlank(s: string) {
    forall i | 0 <= i < |s| :: IsWhitespace(s[i])
  }

  /** Leading whitespace removed. */
  function TrimStart(s: string): (r: string)
    ensures |r| <= |s| && r == s[|s| - |r|..]
    ensures r == [] || !IsWhitespace(r[0])
    ensures IsBlank(s[..|s| - |r|])
  {
    if s != [] && IsWhitespace(s[0]) then
      var r := TrimStart(s[1..]);
      TrimStartStep(s, r);
      r
    else s
  }

  /** A suffix after a blank run of `s[1..]` is one after a blank run of `s`
      when `s` starts with whitespace. */
  lemma TrimStartStep(s: string, r: string)
    requires s != [] && IsWhitespace(s[0])
    requires |r| <= |s| - 1 && r == s[1..][|s| - 1 - |r|..]
    requires IsBlank(s[1..][..|s| - 1 - |r|])
    ensures r == s[|s| - |r|..]
    ensures IsBlank(s[..|s| - |r|])
  {
    var j := |s| - |r|;
    forall i | 0 <= i < j ensures IsWhitespace(s[..j][i]) {
      if i > 0 { assert s[..j][i] == s[1..][..j - 1][i - 1]; }
    }
  }

  /** Trailing whitespace removed. */
  function TrimEnd(s: string): (r: string)
    ensures |r| <= |s| && r == s[..|r|]
    ensures r == [] || !IsWhitespace(r[|r| - 1])
    ensures IsBlank(s[|r|..])
  {
    if s != [] && IsWhitespace(s[|s| - 1]) then
      var r := TrimEnd(s[..|s| - 1]);
      TrimEndStep(s, r);
      r
    else s
  }

  /** A prefix before a blank run of `s[..|s| - 1]` is one before a blank run
      of `s` when `s` ends with whitespace. */
  lemma TrimEndStep(s: string, r: string)
    requires s != [] && IsWhitespace(s[|s| - 1])
    requires |r| <= |s| - 1 && r == s[..|s| - 1][..|r|]
    requires IsBlank(s[..|s| - 1][|r|..])
    ensures r == s[..|r|]
    ensures IsBlank(s[|r|..])
  {
    var j := |r|;
    forall i | 0 <= i < |s| - j ensures IsWhitespace(s[j..][i]) {
      if i < |s| - 1 - j { assert s[j..][i] == s[..|s| - 1][j..][i]; }
    }
  }

  /** Where `trim()` starts cutting: the length of the leading whitespace. */
  function TrimOffset(s: string): (k: nat)
    ensures k <= |s| && IsBlank(s[..k])
  {
    |s| - |TrimStart(s)|
  }

  /** Kotlin `trim()`: the longest slice with no whitespace at either end,
      found after the leading blank run `s[..TrimOffset(s)]`, and followed by a
      blank run to the end. */
  function Trim(s: string): (r: string)
    ensures |r| <= |s| - TrimOffset(s)
    ensures r == [] || (!IsWhitespace(r[0]) && !IsWhitespace(r[|r| - 1]))
    ensures r == s[TrimOffset(s)..TrimOffset(s) + |r|]
    ensures IsBlank(s[TrimOffset(s) + |r|..])
  {
    var t := TrimStart(s);
    var r := TrimEnd(t);
    TrimParts(s, t, r, TrimOffset(s));
    r
  }

  lemma TrimParts(s: string, t: string, r: string, k: int)
    requires |t| <= |s| && t == s[|s| - |t|..] && k == |s| - |t|
    requires t == [] || !IsWhitespace(t[0])
    requires |r| <= |t| && r == t[..|r|]
    requires r == [] || !IsWhitespace(r[|r| - 1])
    requires IsBlank(t[|r|..])
    ensures r == [] || (!IsWhitespace(r[0]) && !IsWhitespace(r[|r| - 1]))
    ensures 0 <= k <= |s| - |r| && r == s[k..k + |r|] && IsBlank(s[k + |r|..])
  {
    if r != [] {
      assert r[0] == t[0];
    }
    assert s[k + |r|..] == t[|r|..];
  }

  /** Trailing trimming only empties a string that starts with whitespace. */
  lemma TrimEndEmpty(t: string)
    requires t == [] || !IsWhitespace(t[0])
    ensures TrimEnd(t) == [] ==> t == []
  {
    var r := TrimEnd(t);
    if |r| < |t| { assert t[|r|..][0] == t[|r|]; }
  }

  /** A string is blank exactly when trimming empties it. */
  lemma {:induction false} BlankIffTrimEmpty(s: string)
    ensures IsBlank(s) <==> Trim(s) == []
  {
    var k := TrimOffset(s);
    TrimEndEmpty(TrimStart(s));
    if Trim(s) == [] {
      assert k == |s| && s[..k] == s;
    } else {
      assert s[k] == Trim(s)[0];
    }
  }

  /** A string with no whitespace at its ends is left alone by `trim()`. */
  lemma TrimNoop(s: string)
    requires s == [] || (!IsWhitespace(s[0]) && !IsWhitespace(s[|s| - 1]))
    ensures Trim(s) == s
  {
  }

  /** With no whitespace at its ends, `trim()` before `removePrefix` changes nothing. */
  lemma TrimThenRemovePrefix(t: string, prefix: string)
    requires |t| > 0 && !IsWhitespace(t[0]) && !IsWhitespace(t[|t| - 1])
    ensures RemovePrefix(Trim(t), prefix) == RemovePrefix(t, prefix)
  {
    TrimNoop(t);
  }

  predicate StartsWith(s: string, prefix: string) {
    |prefix| <= |s| && s[..|prefix|] == prefix
  }

  /** Kotlin `removePrefix(prefix)`: removed once, if present. */
  function RemovePrefix(s: string, prefix: string): (r: string)
    ensures StartsWith(s, prefix) ==> s == prefix + r
    ensures !StartsWith(s, prefix) ==> r == s
  {
    if StartsWith(s, prefix) then s[|prefix|..] else s
  }

  /** Kotlin `contains(sub)`: `sub` occurs somewhere in `s` (the empty string always does). */
  predicate Contains(s: string, sub: string) {
    exists i | 0 <= i <= |s| - |sub| :: StartsWith(s[i..], sub)
  }

  function LowerChar(c: char): char {
    if 'A' <= c <= 'Z' then (c as int + 32) as char else c
  }

  /** Kotlin `lowercase()`, restricted to the ASCII letters. */
  function Lower(s: string): (r: string)
    ensures |r| == |s|
  {
    Map(s, LowerChar)
  }

  function DigitChar(d: int): (c: char)
    requires 0 <= d < 10
    ensures IsDigit(c) && c as int - '0' as int == d
  {
    ('0' as int + d) as char
  }

  function DigitValue(c: char): (d: int)
    requires IsDigit(c)
    ensures 0 <= d < 10 && DigitChar(d) == c
  {
    c as int - '0' as int
  }

  /** Decimal digits of a natural number, most significant first, without leading zeros. */
  function NatString(n: nat): (r: string)
    ensures |r| >= 1 && AllDigits(r)
  {
    if n < 10 then [DigitChar(n)] else NatString(n / 10) + [DigitChar(n % 10)]
  }

  /** Kotlin `Int.toString()` / `Long.toString()`. */
  function DecimalString(n: int): (r: string)
    ensures |r| >= 1
  {
    if n < 0 then "-" + NatString(-n) else NatString(n)
  }

  /** The value of a string of decimal digits (0 for the empty string). */
  function DigitsValue(s: string): (v: nat)
    requires AllDigits(s)
  {
    if s == [] then 0 else DigitsValue(s[..|s| - 1]) * 10 + DigitValue(s[|s| - 1])
  }

  lemma {:induction false} NatStringValue(n: nat)
    ensures DigitsValue(NatString(n)) == n
  {
    if n >= 10 {
      NatStringValue(n / 10);
      var s := NatString(n);
      assert s[..|s| - 1] == NatString(n / 10);
    }
  }

  /** Only zero is written with a leading `0`. */
  lemma {:induction false} NatStringNoLeadingZero(n: nat)
    requires n >= 1
    ensures NatString(n)[0] != '0'
  {
    if n >= 10 {
      NatStringNoLeadingZero(n / 10);
    }
  }

  /** Kotlin `toIntOrNull()` / `toLongOrNull()` in base 10, with the bounds of
      the target type: an optional `+` or `-`, then at least one digit, and a
      value within `[lo, hi]`; anything else is `null`. */
  function ParseSigned(s: string, lo: int, hi: int): (r: Option<int>)
    ensures r.Some? ==> lo <= r.value <= hi
  {
    if |s| == 0 then None
    else if s[0] == '-' || s[0] == '+' then
      if |s| == 1 || !AllDigits(s[1..]) then None
      else
        var d: int := DigitsValue(s[1..]);
        var v := if s[0] == '-' then -d else d;
        if lo <= v <= hi then Some(v) else None
    else if AllDigits(s) then
      var v := DigitsValue(s);
      if lo <= v <= hi then Some(v) else None
    else None
  }

  const IntMin: int := -0x8000_0000
  const IntMax: int := 0x7FFF_FFFF
  const LongMin: int := -0x8000_0000_0000_0000
  const LongMax: int := 0x7FFF_FFFF_FFFF_FFFF

  function ToIntOrNull(s: string): (r: Option<int>)
    ensures r.Some? ==> IntMin <= r.value <= IntMax
  {
    ParseSigned(s, IntMin, IntMax)
  }

  function ToLongOrNull(s: string): (r: Option<int>)
    ensures r.Some? ==> LongMin <= r.value <= LongMax
  {
    ParseSigned(s, LongMin, LongMax)
  }

  /** Parsing the decimal string of a number gives the number back when it
      is in range, and null when it is not. */
  lemma {:induction false} ParseDecimalString(n: int, lo: int, hi: int)
    ensures ParseSigned(DecimalString(n), lo, hi) == if lo <= n <= hi then Some(n) else None
  {
    var s := DecimalString(n);
    if n < 0 {
      NatStringValue(-n);
      assert s[0] == '-' && s[1..] == NatString(-n);
    } else {
      NatStringValue(n);
      assert s == NatString(n);
      assert IsDigit(s[0]);
    }
  }

  /** Two numbers print the same exactly when they are equal. */
  lemma DecimalStringInjective(a: int, b: int)
    ensures DecimalString(a) == DecimalString(b) <==> a == b
  {
    var lo, hi := if a < b then a else b, if a < b then b else a;
    ParseDecimalString(a, lo, hi);
    ParseDecimalString(b, lo, hi);
  }

  /** A decimal string of two or more characters never starts with `0`. */
  lemma DecimalStringNoLeadingZero(n: int)
    requires |DecimalString(n)| >= 2
    ensures DecimalString(n)[0] != '0'
  {
    if n >= 0 {
      NatStringNoLeadingZero(n);
    }
  }

  /** A decimal string starts with `-` or a digit and ends with a digit. */
  lemma {:induction false} DecimalStringEdges(n: int)
    ensures var s := DecimalString(n);
      |s| > 0 && (s[0] == '-' || IsDigit(s[0])) && IsDigit(s[|s| - 1])
      && !IsWhitespace(s[0]) && !IsWhitespace(s[|s| - 1]) && s[0] != '+'
  {
    var s := DecimalString(n);
    if n < 0 {
      var digits := NatString(-n);
      assert s == "-" + digits;
      assert s[|s| - 1] == digits[|digits| - 1];
    }
  }

  /** `trim()` leaves a decimal string alone, and it has no leading `+`. */
  lemma {:induction false} DecimalStringTrimmed(n: int)
    ensures Trim(DecimalString(n)) == DecimalString(n)
    ensures !StartsWith(DecimalString(n), "+")
  {
    DecimalStringEdges(n);
    EdgesNotWhitespace(DecimalString(n));
  }

  lemma {:induction false} EdgesNotWhitespace(s: string)
    requires |s| > 0 && !IsWhitespace(s[0]) && !IsWhitespace(s[|s| - 1]) && s[0] != '+'
    ensures Trim(s) == s && !StartsWith(s, "+")
  {
    TrimNoop(s);
    assert s[..1] != "+" by {
      assert s[..1][0] == s[0];
    }
  }

  /** `"%02d".format(n)`: at least two characters, zero-padded on the left. */
  function Pad2(n: int): (r: string)
    ensures |r| >= 2
    ensures 0 <= n < 100 ==> |r| == 2 && AllDigits(r) && DigitsValue(r) == n
  {
    if 0 <= n < 10 then
      Pad2Small(n);
      "0" + [DigitChar(n)]
    else
      Pad2Wide(n);
      DecimalString(n)
  }

  lemma Pad2Small(n: int)
    requires 0 <= n < 10
    ensures var r := "0" + [DigitChar(n)]; |r| == 2 && AllDigits(r) && DigitsValue(r) == n
  {
    var r := "0" + [DigitChar(n)];
    assert r[..1] == "0" && "0"[..0] == [];
    assert DigitsValue("0") == 0;
  }

  lemma Pad2Wide(n: int)
    requires n < 0 || 10 <= n
    ensures |DecimalString(n)| >= 2
    ensures 0 <= n < 100 ==> |DecimalString(n)| == 2 && AllDigits(DecimalString(n)) && DigitsValue(DecimalString(n)) == n
  {
    if n < 0 {
      assert DecimalString(n) == "-" + NatString(-n);
    } else {
      var s := NatString(n);
      assert DecimalString(n) == s;
      assert s == NatString(n / 10) + [DigitChar(n % 10)];
      if n < 100 {
        assert NatString(n / 10) == [DigitChar(n / 10)];
        assert s[..1] == [DigitChar(n / 10)];
        assert DigitsValue(s[..1]) == n / 10 by {
          assert s[..1][..0] == [];
        }
      }
    }
  }

  /** `lines.joinToString(sep)`. */
  function Join(lines: seq<string>, sep: string): string {
    if lines == [] then "" else if |lines| == 1 then lines[0] else lines[0] + sep + Join(lines[1..], sep)
  }
}
