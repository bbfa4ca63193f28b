/**
 * The two JavaScript number conversions the client relies on: `parseInt(text)` (no radix),
 * which every numeric input handler applies to the field's text, and `String(n)` for an
 * integer, which template literals and JSX use to show counts and stock levels.
 * `NaN` is `None`; numbers are unbounded integers.
 */
module JsNumbers {
  import opened Wrappers

  /**
   * The white-space characters `parseInt` skips before the number: tab, vertical tab, form
   * feed, the byte-order mark, the line terminators, and every space separator of Unicode.
   */
  predicate IsSpace(c: char)
  {
    || c == '\t' || c == '\n' || c == '\U{B}' || c == '\U{C}' || c == '\r' || c == '\U{FEFF}'
    || c == '\U{2028}' || c == '\U{2029}'
    || c == ' ' || c == '\U{A0}' || c == '\U{1680}' || '\U{2000}' <= c <= '\U{200A}'
    || c == '\U{202F}' || c == '\U{205F}' || c == '\U{3000}'
  }

  /** `s` without its leading white space. */
  function TrimStart(s: string): (r: string)
    ensures |r| <= |s| && r == s[|s| - |r|..]
    ensures r == [] || !IsSpace(r[0])
  {
    if s != [] && IsSpace(s[0]) then TrimStart(s[1..]) else s
  }

  /** The value of `c` as a digit in any base up to 36; 36 for a character that is no digit. */
  function DigitValue(c: char): nat
  {
    if '0' <= c <= '9' then c as int - '0' as int
    else if 'a' <= c <= 'z' then c as int - 'a' as int + 10
    else if 'A' <= c <= 'Z' then c as int - 'A' as int + 10
    else 36
  }

  /** The longest prefix of `s` made of digits of base `radix`. */
  function DigitPrefix(s: string, radix: nat): (r: string)
    ensures r <= s
    ensures forall i :: 0 <= i < |r| ==> DigitValue(r[i]) < radix
    ensures |r| == |s| || DigitValue(s[|r|]) >= radix
  {
    if s != [] && DigitValue(s[0]) < radix then [s[0]] + DigitPrefix(s[1..], radix) else []
  }

  /** The number a digit string denotes, most significant digit first. */
  function DigitsValue(ds: string, radix: nat): nat
  {
    if ds == [] then 0 else DigitsValue(ds[..|ds| - 1], radix) * radix + DigitValue(ds[|ds| - 1])
  }

  /** The digits after the sign: base 16 after `0x`/`0X`, base 10 otherwise; `NaN` without digits. */
  function ParseUnsigned(u: string): Option<nat>
  {
    var hex := |u| >= 2 && u[0] == '0' && (u[1] == 'x' || u[1] == 'X');
    var radix := if hex then 16 else 10;
    var digits := DigitPrefix(if hex then u[2..] else u, radix);
    if digits == [] then None else Some(DigitsValue(digits, radix))
  }

  /**
   * `parseInt(s)`: skip leading white space, read an optional sign, then the digits as
   * `ParseUnsigned` reads them.
   */
  function ParseInt(s: string): (r: Option<int>)
    ensures TrimStart(s) == [] ==> r.None?
    ensures r.Some? ==> TrimStart(s) != [] && (DigitValue(TrimStart(s)[0]) < 10 || TrimStart(s)[0] == '-' || TrimStart(s)[0] == '+')
  {
    var t := TrimStart(s);
    var negative := t != [] && t[0] == '-';
    var unsigned := if t != [] && (t[0] == '-' || t[0] == '+') then t[1..] else t;
    match ParseUnsigned(unsigned)
    case None => None
    case Some(m) => Some(if negative then -(m as int) else m as int)
  }

  /** Decimal digits of `n`, without leading zeros. */
  function NatToString(n: nat): (s: string)
    ensures s != [] && forall i :: 0 <= i < |s| ==> DigitValue(s[i]) < 10
    decreases n
  {
    (if n < 10 then "" else NatToString(n / 10)) + [('0' as int + n % 10) as char]
  }

  /** `String(n)` for an integer `n`. */
  function IntToString(n: int): string
  {
    if n < 0 then "-" + NatToString(-n) else NatToString(n)
  }

  /** What may follow a number in a string without changing what `parseInt` reads. */
  predicate EndsNumber(rest: string)
  {
    rest == [] || (DigitValue(rest[0]) >= 10 && rest[0] != 'x' && rest[0] != 'X')
  }

  lemma {:induction false} NatToStringValue(n: nat)
    ensures DigitsValue(NatToString(n), 10) == n
    decreases n
  {
    var s := NatToString(n);
    var front := if n < 10 then "" else NatToString(n / 10);
    assert s[..|s| - 1] == front;
    if n >= 10 {
      NatToStringValue(n / 10);
    }
  }

  lemma {:induction false} DigitPrefixOfDigits(ds: string, rest: string, radix: nat)
    requires forall i :: 0 <= i < |ds| ==> DigitValue(ds[i]) < radix
    requires rest == [] || DigitValue(rest[0]) >= radix
    ensures DigitPrefix(ds + rest, radix) == ds
    decreases |ds|
  {
    if ds != [] {
      assert (ds + rest)[0] == ds[0];
      assert (ds + rest)[1..] == ds[1..] + rest;
      DigitPrefixOfDigits(ds[1..], rest, radix);
    }
  }

  /** Decimal digits followed by a tail that cannot continue them read as their value. */
  lemma ParseUnsignedDigits(ds: string, rest: string)
    requires ds != [] && forall i :: 0 <= i < |ds| ==> DigitValue(ds[i]) < 10
    requires EndsNumber(rest)
    ensures ParseUnsigned(ds + rest) == Some(DigitsValue(ds, 10))
  {
    var s := ds + rest;
    assert !(|s| >= 2 && (s[1] == 'x' || s[1] == 'X')) by {
      if |s| >= 2 && |ds| == 1 { assert s[1] == rest[0]; }
      if |s| >= 2 && |ds| >= 2 { assert s[1] == ds[1]; }
    }
    DigitPrefixOfDigits(ds, rest, 10);
  }

  /** A decimal numeral followed by a non-digit tail reads as its value. */
  lemma ParseUnsignedNumeral(n: nat, rest: string)
    requires EndsNumber(rest)
    ensures ParseUnsigned(NatToString(n) + rest) == Some(n)
  {
    NatToStringValue(n);
    ParseUnsignedDigits(NatToString(n), rest);
  }

  /** A string that starts with a digit or a sign has no white space to skip. */
  lemma TrimStartNoSpace(s: string)
    requires s != [] && (DigitValue(s[0]) < 10 || s[0] == '-' || s[0] == '+')
    ensures TrimStart(s) == s
  {
  }

  /** Once no white space and no sign is left, `parseInt` is `ParseUnsigned`. */
  lemma UnsignedStep(s: string, n: nat)
    requires s != [] && s[0] != '-' && s[0] != '+' && TrimStart(s) == s
    requires ParseUnsigned(s) == Some(n)
    ensures ParseInt(s) == Some(n)
  {
  }

  /** After a leading sign, `parseInt` is `ParseUnsigned` of the rest, negated for `-`. */
  lemma SignedStep(t: string, n: nat)
    requires t != [] && (t[0] == '-' || t[0] == '+') && TrimStart(t) == t
    requires ParseUnsigned(t[1..]) == Some(n)
    ensures ParseInt(t) == Some(if t[0] == '-' then -(n as int) else n)
  {
  }

  /** An unsigned decimal numeral followed by a non-digit tail parses to its value. */
  lemma ParseNumeral(n: nat, rest: string)
    requires EndsNumber(rest)
    ensures ParseInt(NatToString(n) + rest) == Some(n)
  {
    var ds := NatToString(n);
    var s := ds + rest;
    assert s[0] == ds[0] && DigitValue(ds[0]) < 10;
    TrimStartNoSpace(s);
    ParseUnsignedNumeral(n, rest);
    UnsignedStep(s, n);
  }

  /** Unsigned digits after a sign: `-` negates them, `+` keeps them. */
  lemma SignedDigits(sign: char, u: string, m: nat)
    requires sign == '-' || sign == '+'
    requires ParseUnsigned(u) == Some(m)
    ensures ParseInt([sign] + u) == Some(if sign == '-' then -(m as int) else m)
  {
    var t := [sign] + u;
    assert t[0] == sign && t[1..] == u;
    TrimStartNoSpace(t);
    SignedStep(t, m);
  }

  /** The same numeral after a minus sign parses to its negation. */
  lemma ParseNegativeNumeral(n: nat, rest: string)
    requires EndsNumber(rest)
    ensures ParseInt("-" + NatToString(n) + rest) == Some(-(n as int))
  {
    var u := NatToString(n) + rest;
    assert "-" + NatToString(n) + rest == ['-'] + u;
    ParseUnsignedNumeral(n, rest);
    SignedDigits('-', u, n);
  }

  /** The same numeral after a plus sign parses to its value. */
  lemma ParsePlusNumeral(n: nat, rest: string)
    requires EndsNumber(rest)
    ensures ParseInt("+" + NatToString(n) + rest) == Some(n)
  {
    var u := NatToString(n) + rest;
    assert "+" + NatToString(n) + rest == ['+'] + u;
    ParseUnsignedNumeral(n, rest);
    SignedDigits('+', u, n);
  }

  /** `parseInt(String(n) + rest) == n`: the text a number is shown as reads back as that number. */
  lemma ParseIntToString(n: int, rest: string)
    requires EndsNumber(rest)
    ensures ParseInt(IntToString(n) + rest) == Some(n)
  {
    if n < 0 {
      var m: nat := -n;
      var t := IntToString(n);
      assert t == "-" + NatToString(m);
      ParseNegativeNumeral(m, rest);
    } else {
      ParseNumeral(n, rest);
    }
  }

  /** `parseInt(String(n)) == n`. */
  lemma ParseIntRoundTrip(n: int)
    ensures ParseInt(IntToString(n)) == Some(n)
  {
    ParseIntToString(n, "");
    assert IntToString(n) + "" == IntToString(n);
  }

  /** An empty or blank field is `NaN`. */
  lemma {:induction false} BlankIsNaN(s: string)
    requires forall i :: 0 <= i < |s| ==> IsSpace(s[i])
    ensures ParseInt(s) == None
    decreases |s|
  {
    if s != [] {
      BlankIsNaN(s[1..]);
    }
  }

  /** `parseInt(text) || fallback`: `NaN` and `0` are falsy, so both give `fallback`. */
  function ParseIntOr(text: string, fallback: int): (n: int)
    ensures ParseInt(text).None? || ParseInt(text) == Some(0) ==> n == fallback
    ensures ParseInt(text).Some? && ParseInt(text).value != 0 ==> n == ParseInt(text).value
  {
    match ParseInt(text)
    case Some(m) => if m != 0 then m else fallback
    case None => fallback
  }

  /** A typed non-zero number is kept; `0` and an empty or blank field give the fallback. */
  lemma ParseIntOrTyped(n: int, blank: string, fallback: int)
    requires forall i :: 0 <= i < |blank| ==> IsSpace(blank[i])
    ensures n != 0 ==> ParseIntOr(IntToString(n), fallback) == n
    ensures ParseIntOr(IntToString(0), fallback) == fallback
    ensures ParseIntOr(blank, fallback) == fallback
  {
    ParseIntRoundTrip(n);
    ParseIntRoundTrip(0);
    BlankIsNaN(blank);
  }
}
