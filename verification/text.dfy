/** String primitives of the JavaScript runtime that the bot relies on:
    `toLowerCase`, `trim`, the `\s` and `\d` regular-expression classes,
    `parseInt`, decimal rendering and `padStart(2, '0')`. */
module Text {
  import opened Wrappers

  /** White space as `String.prototype.trim` and the regular-expression class `\s`
      understand it: ECMAScript WhiteSpace and LineTerminator characters. */
  predicate IsWhitespace(c: char) {
    c == ' ' || c == '\t' || c == '\n' || c == '\r' || c == '\U{000B}' || c == '\U{000C}'
    || c == '\U{00A0}' || c == '\U{1680}' || ('\U{2000}' <= c <= '\U{200A}')
    || c == '\U{2028}' || c == '\U{2029}' || c == '\U{202F}' || c == '\U{205F}'
    || c == '\U{3000}' || c == '\U{FEFF}'
  }

  /** The regular-expression class `\d`: ASCII digits only. */
  predicate IsDigit(c: char) {
    '0' <= c <= '9'
  }

  predicate IsAsciiUpper(c: char) {
    'A' <= c <= 'Z'
  }

  predicate IsAsciiLower(c: char) {
    'a' <= c <= 'z'
  }

  /** The class `[A-Z0-9]` under the `i` flag. */
  predicate IsAlnumIgnoreCase(c: char) {
    IsAsciiUpper(c) || IsAsciiLower(c) || IsDigit(c)
  }

  function LowerChar(c: char): (r: char)
    ensures !IsAsciiUpper(r)
    ensures !IsAsciiUpper(c) ==> r == c
  {
    if IsAsciiUpper(c) then (c as int + 32) as char else c
  }

  function UpperChar(c: char): (r: char)
    ensures !IsAsciiLower(r)
    ensures !IsAsciiLower(c) ==> r == c
  {
    if IsAsciiLower(c) then (c as int - 32) as char else c
  }

  /** `toLowerCase`, on the ASCII letters. */
  function ToLower(s: string): (r: string)
    ensures |r| == |s|
    ensures forall i :: 0 <= i < |s| ==> r[i] == LowerChar(s[i])
  {
    seq(|s|, i requires 0 <= i < |s| => LowerChar(s[i]))
  }

  /** `toUpperCase`, on the ASCII letters. */
  function ToUpper(s: string): (r: string)
    ensures |r| == |s|
    ensures forall i :: 0 <= i < |s| ==> r[i] == UpperChar(s[i])
  {
    seq(|s|, i requires 0 <= i < |s| => UpperChar(s[i]))
  }

  function TrimStart(s: string): (r: string)
    ensures |r| <= |s| && r == s[|s| - |r|..]
    ensures r == [] || !IsWhitespace(r[0])
    ensures forall i :: 0 <= i < |s| - |r| ==> IsWhitespace(s[i])
  {
    if |s| > 0 && IsWhitespace(s[0]) then TrimStart(s[1..]) else s
  }

  function TrimEnd(s: string): (r: string)
    ensures |r| <= |s| && r == s[..|r|]
    ensures r == [] || !IsWhitespace(r[|r| - 1])
    ensures forall i :: |r| <= i < |s| ==> IsWhitespace(s[i])
  {
    if |s| > 0 && IsWhitespace(s[|s| - 1]) then TrimEnd(s[..|s| - 1]) else s
  }

  /** `trim`: the input without its leading and trailing white space. */
  function Trim(s: string): (r: string)
    ensures r == [] || (!IsWhitespace(r[0]) && !IsWhitespace(r[|r| - 1]))
    ensures exists k :: InfixAt(s, k, r)
                        && (forall i :: 0 <= i < k ==> IsWhitespace(s[i]))
                        && (forall i :: k + |r| <= i < |s| ==> IsWhitespace(s[i]))
  {
    var t := TrimStart(s);
    var r := TrimEnd(t);
    assert InfixAt(s, |s| - |t|, r);
    r
  }

  /** r occurs in s at position k. */
  predicate InfixAt(s: string, k: int, r: string) {
    0 <= k && k + |r| <= |s| && s[k..k + |r|] == r
  }

  /** The normalisation every command comparison applies: `toLowerCase().trim()`. */
  function Normalize(s: string): string {
    Trim(ToLower(s))
  }

  /** A string with no ASCII capital and no white space at either end is its own
      normal form. */
  lemma NormalizeIdle(s: string)
    requires forall i :: 0 <= i < |s| ==> !IsAsciiUpper(s[i])
    requires s == [] || (!IsWhitespace(s[0]) && !IsWhitespace(s[|s| - 1]))
    ensures Normalize(s) == s
  {
    assert ToLower(s) == s;
    TrimStartIdle(s);
    TrimEndIdle(s);
  }

  lemma {:induction false} TrimStartIdle(s: string)
    requires s == [] || !IsWhitespace(s[0])
    ensures TrimStart(s) == s
  {
  }

  lemma {:induction false} TrimEndIdle(s: string)
    requires s == [] || !IsWhitespace(s[|s| - 1])
    ensures TrimEnd(s) == s
  {
  }

  /** Trimming twice is trimming once. */
  lemma TrimIdempotent(s: string)
    ensures Trim(Trim(s)) == Trim(s)
  {
    var r := Trim(s);
    TrimStartIdle(r);
    TrimEndIdle(r);
  }

  // ---------------------------------------------------------------------------
  // Decimal numbers

  function DigitValue(c: char): (v: nat)
    requires IsDigit(c)
    ensures v < 10
  {
    c as int - '0' as int
  }

  function DigitChar(v: nat): (c: char)
    requires v < 10
    ensures IsDigit(c) && DigitValue(c) == v
  {
    ('0' as int + v) as char
  }

  predicate AllDigits(s: string) {
    forall i :: 0 <= i < |s| ==> IsDigit(s[i])
  }

  /** The value of a run of decimal digits (leading zeros allowed). */
  function DigitsValue(s: string): nat
    requires AllDigits(s)
  {
    if s == [] then 0 else 10 * DigitsValue(s[..|s| - 1]) + DigitValue(s[|s| - 1])
  }

  /** Decimal rendering of a natural number, as `String(n)`. */
  function NatToString(n: nat): (s: string)
    ensures AllDigits(s) && |s| >= 1
    ensures |s| > 1 ==> s[0] != '0'
  {
    if n < 10 then [DigitChar(n)] else NatToString(n / 10) + [DigitChar(n % 10)]
  }

  /** Decimal rendering of an integer, as `String(i)` / template interpolation. */
  function IntToString(i: int): string {
    if i < 0 then "-" + NatToString(-i) else NatToString(i)
  }

  /** `String(n).padStart(2, '0')`. */
  function Pad2(n: nat): (s: string)
    ensures AllDigits(s) && |s| >= 2
    ensures n < 100 ==> |s| == 2
  {
    var t := NatToString(n);
    NatToStringLength(n);
    if |t| < 2 then ['0'] + t else t
  }

  /** Reading back a rendered number gives the number. */
  lemma {:induction false} NatToStringRoundTrip(n: nat)
    ensures DigitsValue(NatToString(n)) == n
  {
    if n >= 10 {
      var s := NatToString(n);
      assert s[..|s| - 1] == NatToString(n / 10);
      NatToStringRoundTrip(n / 10);
    }
  }

  lemma {:induction false} NatToStringLength(n: nat)
    ensures n < 10 ==> |NatToString(n)| == 1
    ensures 10 <= n < 100 ==> |NatToString(n)| == 2
    ensures 100 <= n < 1000 ==> |NatToString(n)| == 3
    ensures 1000 <= n < 10000 ==> |NatToString(n)| == 4
  {
    if n >= 10 {
      NatToStringLength(n / 10);
    }
  }

  lemma {:induction false} LeadingZeroValue(s: string)
    requires AllDigits(s)
    ensures AllDigits(['0'] + s) && DigitsValue(['0'] + s) == DigitsValue(s)
  {
    var t := ['0'] + s;
    if s != [] {
      assert t[..|t| - 1] == ['0'] + s[..|s| - 1];
      LeadingZeroValue(s[..|s| - 1]);
    }
  }

  /** Reading back a zero-padded number gives the number. */
  lemma Pad2RoundTrip(n: nat)
    ensures DigitsValue(Pad2(n)) == n
  {
    NatToStringRoundTrip(n);
    LeadingZeroValue(NatToString(n));
  }

  // ---------------------------------------------------------------------------
  // parseInt

  /** The number of consecutive characters from position i satisfying the digit class. */
  function DigitRun(s: string, i: nat): (k: nat)
    requires i <= |s|
    ensures i + k <= |s| && forall j :: i <= j < i + k ==> IsDigit(s[j])
    ensures AllDigits(s[i..i + k])
    ensures i + k == |s| || !IsDigit(s[i + k])
    decreases |s| - i
  {
    if i < |s| && IsDigit(s[i]) then 1 + DigitRun(s, i + 1) else 0
  }

  predicate IsHexDigit(c: char) {
    IsDigit(c) || ('a' <= c <= 'f') || ('A' <= c <= 'F')
  }

  function HexDigitValue(c: char): (v: nat)
    requires IsHexDigit(c)
    ensures v < 16
  {
    if IsDigit(c) then DigitValue(c)
    else if 'a' <= c <= 'f' then c as int - 'a' as int + 10
    else c as int - 'A' as int + 10
  }

  function HexRun(s: string, i: nat): (k: nat)
    requires i <= |s|
    ensures i + k <= |s|
    ensures forall j :: i <= j < i + k ==> IsHexDigit(s[j])
    ensures i + k == |s| || !IsHexDigit(s[i + k])
    decreases |s| - i
  {
    if i < |s| && IsHexDigit(s[i]) then 1 + HexRun(s, i + 1) else 0
  }

  function HexValue(s: string): nat
    requires forall j :: 0 <= j < |s| ==> IsHexDigit(s[j])
  {
    if s == [] then 0 else 16 * HexValue(s[..|s| - 1]) + HexDigitValue(s[|s| - 1])
  }

  /** The text starts with `0x` or `0X`. */
  predicate HexPrefixed(u: string) {
    |u| >= 2 && u[0] == '0' && (u[1] == 'x' || u[1] == 'X')
  }

  /** The first k characters are the whole leading run of decimal digits, and
      there is at least one. */
  predicate LeadingDigits(u: string, k: int) {
    0 < k <= |u| && AllDigits(u[..k]) && (k == |u| || !IsDigit(u[k]))
  }

  /** After `0x`, the next k characters are the whole run of hexadecimal
      digits, and there is at least one. */
  predicate LeadingHex(u: string, k: int) {
    0 < k && 2 + k <= |u| && (forall j :: 2 <= j < 2 + k ==> IsHexDigit(u[j]))
    && (2 + k == |u| || !IsHexDigit(u[2 + k]))
  }

  /** The digits after the sign: the longest prefix of decimal digits, or of
      hexadecimal digits after `0x`/`0X`; `None` when there are none. */
  function ParseUnsigned(u: string): (r: Option<nat>)
    ensures u == [] || !IsDigit(u[0]) ==> r.None?
    ensures !HexPrefixed(u) ==> forall k :: LeadingDigits(u, k) ==> r == Some(DigitsValue(u[..k]))
    ensures HexPrefixed(u) ==> forall k :: LeadingHex(u, k) ==> r == Some(HexValue(u[2..2 + k]))
    ensures HexPrefixed(u) && (|u| == 2 || !IsHexDigit(u[2])) ==> r.None?
  {
    if HexPrefixed(u) then
      var k := HexRun(u, 2);
      if k == 0 then None else Some(HexValue(u[2..2 + k]))
    else
      var k := DigitRun(u, 0);
      if k == 0 then None else Some(DigitsValue(u[..k]))
  }

  /** `parseInt(s)` without a radix: leading white space, an optional sign, then the
      longest prefix of decimal digits (hexadecimal after `0x`/`0X`); `None` is `NaN`. */
  function ParseInt(s: string): (r: Option<int>)
    ensures var t := TrimStart(s);
            t == [] || !(IsDigit(t[0]) || t[0] == '+' || t[0] == '-') ==> r.None?
    ensures var t := TrimStart(s);
            t != [] && IsDigit(t[0]) && !HexPrefixed(t) ==> r.Some? && r.value >= 0
    ensures var t := TrimStart(s);
            t != [] && (t[0] == '-' || t[0] == '+') && (|t| == 1 || !IsDigit(t[1])) ==> r.None?
  {
    var t := TrimStart(s);
    var u := if |t| > 0 && (t[0] == '-' || t[0] == '+') then t[1..] else t;
    match ParseUnsigned(u)
    case None => None
    case Some(v) => if |t| > 0 && t[0] == '-' then Some(0 - v) else Some(v)
  }

  /** What `parseInt` reads: after the leading white space, the whole run of
      decimal digits. */
  lemma ParseIntValue(s: string, k: int)
    ensures var t := TrimStart(s);
            !HexPrefixed(t) && LeadingDigits(t, k) ==> ParseInt(s) == Some(DigitsValue(t[..k]))
  {
    var t := TrimStart(s);
    if !HexPrefixed(t) && LeadingDigits(t, k) {
      assert t[..k][0] == t[0];
      assert ParseUnsigned(t) == Some(DigitsValue(t[..k]));
    }
  }

  /** After a sign, `parseInt` reads the whole run of decimal digits that
      follows it, negated after `-`. */
  lemma ParseIntSignedValue(s: string, k: int)
    ensures var t := TrimStart(s);
            t != [] && t[0] == '-' && !HexPrefixed(t[1..]) && LeadingDigits(t[1..], k)
            ==> var v: int := DigitsValue(t[1..][..k]); ParseInt(s) == Some(-v)
    ensures var t := TrimStart(s);
            t != [] && t[0] == '+' && !HexPrefixed(t[1..]) && LeadingDigits(t[1..], k)
            ==> ParseInt(s) == Some(DigitsValue(t[1..][..k]))
  {
    var t := TrimStart(s);
    if t != [] && (t[0] == '-' || t[0] == '+') {
      var u := t[1..];
      if !HexPrefixed(u) && LeadingDigits(u, k) {
        assert ParseUnsigned(u) == Some(DigitsValue(u[..k]));
      }
    }
  }

  /** A rendered number followed by a non-digit suffix parses back to the number:
      `parseInt("28日")` is 28. */
  lemma ParseIntOfRendered(n: nat, rest: string)
    requires n > 0 || rest == [] || !(rest[0] == 'x' || rest[0] == 'X')
    requires rest == [] || !IsDigit(rest[0])
    ensures ParseInt(NatToString(n) + rest) == Some(n)
  {
    var d := NatToString(n);
    var s := d + rest;
    assert s[0] == d[0] && IsDigit(d[0]);
    TrimStartIdle(s);
    ParseUnsignedOfRendered(n, rest);
    assert ParseUnsigned(s) == Some(n);
  }

  /** Only zero is rendered with a leading `0`. */
  lemma NatToStringZero(n: nat)
    requires n > 0
    ensures NatToString(n)[0] != '0'
  {
    if n < 10 {
      assert DigitValue(NatToString(n)[0]) == n;
    }
  }

  /** The digits of a rendered number, read without a sign. */
  lemma ParseUnsignedOfRendered(n: nat, rest: string)
    requires n > 0 || rest == [] || !(rest[0] == 'x' || rest[0] == 'X')
    requires rest == [] || !IsDigit(rest[0])
    ensures ParseUnsigned(NatToString(n) + rest) == Some(n)
  {
    var s := NatToString(n) + rest;
    var d := NatToString(n);
    if n == 0 {
      assert d == "0";
    } else {
      NatToStringZero(n);
    }
    assert !(|s| >= 2 && s[0] == '0' && (s[1] == 'x' || s[1] == 'X'));
    DigitRunOfPrefix(d, rest);
    assert s[..|d|] == d;
    NatToStringRoundTrip(n);
  }

  lemma {:induction false} DigitRunOfPrefix(d: string, rest: string)
    requires AllDigits(d)
    requires rest == [] || !IsDigit(rest[0])
    ensures DigitRun(d + rest, 0) == |d|
  {
    DigitRunFrom(d + rest, 0, |d|);
  }

  lemma {:induction false} DigitRunFrom(s: string, i: nat, j: nat)
    requires i <= j <= |s|
    requires forall k :: i <= k < j ==> IsDigit(s[k])
    requires j == |s| || !IsDigit(s[j])
    ensures DigitRun(s, i) == j - i
    decreases j - i
  {
    if i < j {
      DigitRunFrom(s, i + 1, j);
    }
  }
}
