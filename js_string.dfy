/**
 * The JavaScript string built-ins the quiz relies on, on strings of Unicode
 * scalar values: `String.prototype.trim`, `parseInt(text, 10)`, the decimal
 * `toString` of an integer and `padStart(2, "0")`.
 */
module JsString {
  import opened Wrappers

  /** StrWhiteSpaceChar of ECMAScript: WhiteSpace (including the Zs category) and LineTerminator. */
  predicate IsWhitespace(c: char) {
    || c == '\t' || c == '\n' || c == '\U{B}' || c == '\U{C}' || c == '\r' || c == ' '
    || c == '\U{A0}' || c == '\U{1680}' || ('\U{2000}' <= c <= '\U{200A}')
    || c == '\U{2028}' || c == '\U{2029}' || c == '\U{202F}' || c == '\U{205F}'
    || c == '\U{3000}' || c == '\U{FEFF}'
  }

  predicate AllWhitespace(s: string) {
    forall i :: 0 <= i < |s| ==> IsWhitespace(s[i])
  }

  predicate IsDigit(c: char) {
    '0' <= c <= '9'
  }

  predicate AllDigits(s: string) {
    forall i :: 0 <= i < |s| ==> IsDigit(s[i])
  }

  function DigitValue(c: char): (d: nat)
    requires IsDigit(c)
    ensures d < 10
  {
    c as int - '0' as int
  }

  function DigitChar(d: nat): (c: char)
    requires d < 10
    ensures IsDigit(c) && DigitValue(c) == d
  {
    ('0' as int + d) as char
  }

  /** Drops leading whitespace; what is dropped is whitespace and what is kept does not start with it. */
  function TrimStart(s: string): (r: string)
    ensures |r| <= |s|
    ensures forall i :: 0 <= i < |s| - |r| ==> IsWhitespace(s[i])
    ensures r != [] ==> !IsWhitespace(r[0])
    ensures r == [] <==> AllWhitespace(s)
  {
    if s != [] && IsWhitespace(s[0]) then TrimStart(s[1..]) else s
  }

  /** What `TrimStart` keeps is a suffix of its input. */
  lemma {:induction false} TrimStartIsSuffix(s: string)
    ensures TrimStart(s) == s[|s| - |TrimStart(s)|..]
  {
    if s != [] && IsWhitespace(s[0]) {
      TrimStartIsSuffix(s[1..]);
      assert s[1..][|s[1..]| - |TrimStart(s[1..])|..] == s[|s| - |TrimStart(s)|..];
    }
  }

  /** Drops trailing whitespace; what is dropped is whitespace and what is kept does not end with it. */
  function TrimEnd(s: string): (r: string)
    ensures |r| <= |s| && r == s[..|r|]
    ensures forall i :: |r| <= i < |s| ==> IsWhitespace(s[i])
    ensures r != [] ==> !IsWhitespace(r[|r| - 1])
    ensures r == [] <==> AllWhitespace(s)
  {
    if s != [] && IsWhitespace(s[|s| - 1]) then TrimEnd(s[..|s| - 1]) else s
  }

  /** `s.trim()`. */
  function Trim(s: string): (r: string)
    ensures r != [] ==> !IsWhitespace(r[0]) && !IsWhitespace(r[|r| - 1])
    ensures r == [] <==> AllWhitespace(s)
  {
    TrimEnd(TrimStart(s))
  }

  lemma {:induction false} TrimStartAfterWhitespace(pre: string, rest: string)
    requires AllWhitespace(pre) && (rest == [] || !IsWhitespace(rest[0]))
    ensures TrimStart(pre + rest) == rest
  {
    if pre == [] {
      assert pre + rest == rest;
    } else {
      assert (pre + rest)[1..] == pre[1..] + rest;
      TrimStartAfterWhitespace(pre[1..], rest);
    }
  }

  lemma {:induction false} TrimEndBeforeWhitespace(rest: string, post: string)
    requires AllWhitespace(post) && (rest == [] || !IsWhitespace(rest[|rest| - 1]))
    ensures TrimEnd(rest + post) == rest
  {
    if post == [] {
      assert rest + post == rest;
    } else {
      var s := rest + post;
      assert s[..|s| - 1] == rest + post[..|post| - 1];
      TrimEndBeforeWhitespace(rest, post[..|post| - 1]);
    }
  }

  /** Whitespace around a text that neither starts nor ends with whitespace is exactly what `trim` removes. */
  lemma TrimPadded(pre: string, e: string, post: string)
    requires AllWhitespace(pre) && AllWhitespace(post)
    requires e != [] && !IsWhitespace(e[0]) && !IsWhitespace(e[|e| - 1])
    ensures Trim(pre + e + post) == e
  {
    assert pre + e + post == pre + (e + post);
    TrimStartAfterWhitespace(pre, e + post);
    TrimEndBeforeWhitespace(e, post);
  }

  /** Trimming twice is trimming once. */
  lemma TrimIdempotent(s: string)
    ensures Trim(Trim(s)) == Trim(s)
  {
    var t := Trim(s);
    if t != [] {
      assert TrimStart(t) == t;
      assert TrimEnd(t) == t;
    }
  }

  /** Length of the longest prefix of decimal digits. */
  function DigitPrefixLength(s: string): (n: nat)
    ensures n <= |s| && AllDigits(s[..n])
    ensures n < |s| ==> !IsDigit(s[n])
  {
    if s != [] && IsDigit(s[0]) then 1 + DigitPrefixLength(s[1..]) else 0
  }

  /** The value of a string of decimal digits, most significant first. */
  function DigitsValue(d: string): nat
    requires AllDigits(d)
  {
    if d == [] then 0 else DigitsValue(d[..|d| - 1]) * 10 + DigitValue(d[|d| - 1])
  }

  /** The digits after an optional sign, as `parseInt` reads them once whitespace is gone. */
  function ParseSigned(t: string): Option<int> {
    var negative := t != [] && t[0] == '-';
    var body := if t != [] && (t[0] == '-' || t[0] == '+') then t[1..] else t;
    var n := DigitPrefixLength(body);
    var magnitude: int := DigitsValue(body[..n]);
    if n == 0 then None else Some(if negative then -magnitude else magnitude)
  }

  /**
   * `parseInt(s, 10)`: skip leading whitespace, an optional sign, then the longest
   * run of digits; no digit at all is NaN, written None.
   */
  function ParseInt(s: string): Option<int> {
    ParseSigned(TrimStart(s))
  }

  /** `String(n)` for a non-negative integer: decimal, no leading zero. */
  function NatToString(n: nat): (s: string)
    ensures s != [] && AllDigits(s)
    ensures |s| == 1 <==> n < 10
    ensures (|s| == 2) <==> (10 <= n < 100)
    ensures s[0] == '0' ==> n == 0
  {
    if n < 10 then [DigitChar(n)] else NatToString(n / 10) + [DigitChar(n % 10)]
  }

  /** `n.toString()` for any integer. */
  function IntToString(n: int): (s: string)
    ensures s != [] && (s[0] == '-' <==> n < 0)
    ensures n < 0 ==> AllDigits(s[1..])
    ensures n >= 0 ==> AllDigits(s)
  {
    if n < 0 then "-" + NatToString(-n) else NatToString(n)
  }

  /** `s.padStart(2, "0")`. */
  function PadStart2(s: string): (r: string)
    ensures |r| == if |s| < 2 then 2 else |s|
    ensures r[|r| - |s|..] == s
    ensures forall i :: 0 <= i < |r| - |s| ==> r[i] == '0'
  {
    if |s| == 0 then "00" else if |s| == 1 then "0" + s else s
  }

  lemma {:induction false} DigitPrefixOfDigits(d: string)
    requires AllDigits(d)
    ensures DigitPrefixLength(d) == |d|
  {
    if d != [] {
      DigitPrefixOfDigits(d[1..]);
    }
  }

  lemma {:induction false} DigitsValueOfNatToString(n: nat)
    ensures DigitsValue(NatToString(n)) == n
  {
    if n >= 10 {
      var s := NatToString(n);
      assert s[..|s| - 1] == NatToString(n / 10);
      DigitsValueOfNatToString(n / 10);
    }
  }

  /** A non-empty run of digits parses as its value, with or without a minus sign. */
  lemma ParseSignedOfDigits(d: string)
    requires d != [] && AllDigits(d)
    ensures ParseSigned(d) == Some(DigitsValue(d))
    ensures ParseSigned("-" + d) == Some(-(DigitsValue(d) as int))
  {
    DigitPrefixOfDigits(d);
    assert d[..|d|] == d;
    assert ("-" + d)[1..] == d;
  }

  /** Reading back what `toString` wrote gives the same integer: the timer slot round-trips. */
  lemma ParseIntOfIntToString(n: int)
    ensures ParseInt(IntToString(n)) == Some(n)
  {
    var m: nat := if n < 0 then -n else n;
    var digits := NatToString(m);
    ParseSignedOfDigits(digits);
    DigitsValueOfNatToString(m);
    var s := IntToString(n);
    assert !IsWhitespace(s[0]);
    assert TrimStart(s) == s;
  }

  lemma LeadingZero(n: nat)
    requires n < 10
    ensures PadStart2(NatToString(n)) == ['0', DigitChar(n)]
    ensures DigitsValue(['0', DigitChar(n)]) == n
  {
    var s := ['0', DigitChar(n)];
    assert s[..1] == ['0'];
    assert ['0'][..0] == [];
  }

  /** A digit string with no leading whitespace parses as its value. */
  lemma ParseIntOfDigits(s: string)
    requires s != [] && AllDigits(s)
    ensures ParseInt(s) == Some(DigitsValue(s))
  {
    assert IsDigit(s[0]);
    assert !IsWhitespace(s[0]);
    assert TrimStart(s) == s;
    ParseSignedOfDigits(s);
  }

  /** A two-digit field padded with `padStart(2, "0")` still reads back as its number. */
  lemma ParseIntOfPadded(n: nat)
    requires n < 100
    ensures |PadStart2(NatToString(n))| == 2
    ensures ParseInt(PadStart2(NatToString(n))) == Some(n)
  {
    if n < 10 {
      LeadingZero(n);
      ParseIntOfDigits(['0', DigitChar(n)]);
    } else {
      DigitsValueOfNatToString(n);
      ParseIntOfDigits(NatToString(n));
    }
  }
}
