/**
 * The two JavaScript number conversions the page relies on: the global
 * parseInt called without a radix, and the text of an integer-valued Number
 * (String(n), `${n}` and n.toFixed(2)). A Number here is an integer or NaN,
 * and NaN is None.
 */
module Numbers {

  datatype Option<+T> = None | Some(value: T)

  /** White space and line terminators as ECMAScript defines them: TAB, VT,
      FF, ZWNBSP, every Zs space separator, LF, CR, LS and PS. */
  predicate IsJsSpace(c: char) {
    || c == '\t' || c == '\n' || c == '\U{B}' || c == '\U{C}' || c == '\r'
    || c == ' ' || c == '\U{A0}' || c == '\U{1680}' || ('\U{2000}' <= c <= '\U{200A}')
    || c == '\U{2028}' || c == '\U{2029}' || c == '\U{202F}' || c == '\U{205F}'
    || c == '\U{3000}' || c == '\U{FEFF}'
  }

  /** s without its leading white space. */
  function TrimStart(s: string): (r: string)
    ensures |r| <= |s| && r == s[|s| - |r|..]
    ensures r == [] || !IsJsSpace(r[0])
    ensures forall i :: 0 <= i < |s| - |r| ==> IsJsSpace(s[i])
  {
    if s != [] && IsJsSpace(s[0]) then TrimStart(s[1..]) else s
  }

  /** The value of c as a digit of radix 36 (0-9, then a-z or A-Z for 10-35),
      or 36 when c is no such digit. */
  function DigitValue(c: char): (d: nat)
    ensures d <= 36
    ensures d < 10 <==> '0' <= c <= '9'
    ensures '0' <= c <= '9' ==> d == c as int - '0' as int
    ensures 'a' <= c <= 'z' ==> d == c as int - 'a' as int + 10
    ensures 'A' <= c <= 'Z' ==> d == c as int - 'A' as int + 10
    ensures d == 36 <==> !('0' <= c <= '9' || 'a' <= c <= 'z' || 'A' <= c <= 'Z')
  {
    if '0' <= c <= '9' then c as int - '0' as int
    else if 'a' <= c <= 'z' then c as int - 'a' as int + 10
    else if 'A' <= c <= 'Z' then c as int - 'A' as int + 10
    else 36
  }

  predicate IsDigit(c: char, radix: nat) {
    DigitValue(c) < radix
  }

  /** The longest prefix of s that consists of digits of the radix. */
  function DigitRun(s: string, radix: nat): (r: string)
    ensures |r| <= |s| && r == s[..|r|]
    ensures forall i :: 0 <= i < |r| ==> IsDigit(r[i], radix)
    ensures |r| < |s| ==> !IsDigit(s[|r|], radix)
  {
    if s != [] && IsDigit(s[0], radix) then [s[0]] + DigitRun(s[1..], radix) else []
  }

  /** The value of a string of digits, most significant digit first. */
  function DigitsValue(ds: string, radix: nat): nat {
    if ds == [] then 0
    else DigitsValue(ds[..|ds| - 1], radix) * radix + DigitValue(ds[|ds| - 1])
  }

  /** The digits after an optional "0x" or "0X" prefix, read in radix 16
      after such a prefix and in radix 10 otherwise; None when there are none. */
  function ReadUnsigned(u: string): Option<int> {
    if |u| >= 2 && u[0] == '0' && (u[1] == 'x' || u[1] == 'X') then
      var ds := DigitRun(u[2..], 16);
      if ds == [] then None else Some(DigitsValue(ds, 16))
    else
      var ds := DigitRun(u, 10);
      if ds == [] then None else Some(DigitsValue(ds, 10))
  }

  /** The unary minus on a Number: NaN stays NaN. */
  function Negate(x: Option<int>): Option<int> {
    match x
    case Some(v) => Some(-v)
    case None => None
  }

  /** What parseInt reads once leading white space is gone: one optional sign,
      then the digits. */
  function ReadSigned(t: string): Option<int> {
    if t != [] && t[0] == '-' then Negate(ReadUnsigned(t[1..]))
    else if t != [] && t[0] == '+' then ReadUnsigned(t[1..])
    else ReadUnsigned(t)
  }

  /** parseInt(s) with no radix: skip leading white space, take one optional
      sign, switch to radix 16 after a "0x" or "0X" prefix, then read the
      longest run of digits. No digit at all gives NaN. */
  function ParseInt(s: string): Option<int> {
    ReadSigned(TrimStart(s))
  }

  function DigitChar(d: nat): (c: char)
    requires d < 10
    ensures DigitValue(c) == d
  {
    ('0' as int + d) as char
  }

  /** The decimal digits of n without leading zeros, "0" for zero. */
  function Decimal(n: nat): (r: string)
    ensures r != []
    ensures forall i :: 0 <= i < |r| ==> IsDigit(r[i], 10)
    ensures DigitsValue(r, 10) == n
  {
    if n < 10 then [DigitChar(n)]
    else
      var r := Decimal(n / 10) + [DigitChar(n % 10)];
      assert r[..|r| - 1] == Decimal(n / 10);
      r
  }

  /** String(n) for an integer n below 10^21 in magnitude. */
  function NumberText(n: int): string {
    if n < 0 then "-" + Decimal(-n) else Decimal(n)
  }

  /** String(x) for a Number x: its digits, or "NaN". */
  function NumText(x: Option<int>): string {
    match x
    case Some(n) => NumberText(n)
    case None => "NaN"
  }

  /** x.toFixed(2) for a Number x: the digits and ".00" when x is an integer,
      "NaN" otherwise. */
  function Fixed2(x: Option<int>): string {
    match x
    case Some(n) => NumberText(n) + ".00"
    case None => "NaN"
  }

  /** A run of digits followed by a non-digit reads as that run. */
  lemma {:induction false} DigitRunOfDigits(ds: string, rest: string, radix: nat)
    requires forall i :: 0 <= i < |ds| ==> IsDigit(ds[i], radix)
    requires rest == [] || !IsDigit(rest[0], radix)
    ensures DigitRun(ds + rest, radix) == ds
  {
    if ds != [] {
      assert (ds + rest)[1..] == ds[1..] + rest;
      DigitRunOfDigits(ds[1..], rest, radix);
    }
  }

  /** Leading white space does not change what parseInt reads. */
  lemma {:induction false} ParseIntSkipsSpace(ws: string, s: string)
    requires forall i :: 0 <= i < |ws| ==> IsJsSpace(ws[i])
    ensures ParseInt(ws + s) == ParseInt(s)
  {
    TrimStartSkipsSpace(ws, s);
  }

  lemma {:induction false} TrimStartSkipsSpace(ws: string, s: string)
    requires forall i :: 0 <= i < |ws| ==> IsJsSpace(ws[i])
    ensures TrimStart(ws + s) == TrimStart(s)
  {
    if ws != [] {
      var u := ws + s;
      assert u[0] == ws[0] && IsJsSpace(ws[0]);
      assert u[1..] == ws[1..] + s;
      TrimStartSkipsSpace(ws[1..], s);
    } else {
      assert ws + s == s;
    }
  }

  /** Text that does not start with white space is left as it is. */
  lemma TrimStartNoSpace(s: string)
    requires s == [] || !IsJsSpace(s[0])
    ensures TrimStart(s) == s
  {
  }

  /** What may follow a number's digits without being read into it: nothing,
      or a non-digit that is not an 'x' (which would turn a leading "0"
      into a hexadecimal prefix). */
  predicate EndsNumber(rest: string) {
    rest == [] || (!IsDigit(rest[0], 10) && rest[0] != 'x' && rest[0] != 'X')
  }

  /** A non-empty run of decimal digits, then what ends a number, reads as
      the run's value. */
  lemma ReadUnsignedDigits(ds: string, rest: string)
    requires ds != [] && forall i :: 0 <= i < |ds| ==> IsDigit(ds[i], 10)
    requires EndsNumber(rest)
    ensures ReadUnsigned(ds + rest) == Some(DigitsValue(ds, 10))
  {
    var u := ds + rest;
    assert |u| >= 2 ==> u[1] != 'x' && u[1] != 'X' by {
      if |ds| >= 2 {
        assert u[1] == ds[1] && IsDigit(ds[1], 10);
      } else if |u| >= 2 {
        assert u[1] == rest[0];
      }
    }
    DigitRunOfDigits(ds, rest, 10);
  }

  /** Text that starts with a digit has no sign for parseInt to take. */
  lemma ParseIntOfUnsigned(u: string)
    requires u != [] && IsDigit(u[0], 10)
    ensures ParseInt(u) == ReadUnsigned(u)
  {
    TrimStartNoSpace(u);
  }

  /** After a minus sign parseInt reads the unsigned number and negates it. */
  lemma ParseIntOfMinus(t: string)
    ensures ParseInt("-" + t) == Negate(ReadUnsigned(t))
  {
    var v := "-" + t;
    assert v[0] == '-' && v[1..] == t;
    TrimStartNoSpace(v);
  }

  /** parseInt reads such a run as its value. */
  lemma ParseIntOfDigits(ds: string, rest: string)
    requires ds != [] && forall i :: 0 <= i < |ds| ==> IsDigit(ds[i], 10)
    requires EndsNumber(rest)
    ensures ParseInt(ds + rest) == Some(DigitsValue(ds, 10))
  {
    var u := ds + rest;
    assert u[0] == ds[0];
    ParseIntOfUnsigned(u);
    ReadUnsignedDigits(ds, rest);
  }

  /** After a minus sign, parseInt reads such a run as its negated value. */
  lemma ParseIntOfMinusDigits(ds: string, rest: string)
    requires ds != [] && forall i :: 0 <= i < |ds| ==> IsDigit(ds[i], 10)
    requires EndsNumber(rest)
    ensures ParseInt("-" + ds + rest) == Negate(Some(DigitsValue(ds, 10)))
  {
    assert "-" + ds + rest == "-" + (ds + rest);
    ReadUnsignedDigits(ds, rest);
    ParseIntOfMinus(ds + rest);
  }

  /** parseInt reads back the decimal text of any integer when what follows
      it ends the number. */
  lemma ParseIntOfNumberText(n: int, rest: string)
    requires EndsNumber(rest)
    ensures ParseInt(NumberText(n) + rest) == Some(n)
  {
    if n < 0 {
      ParseIntOfMinusDigits(Decimal(-n), rest);
    } else {
      ParseIntOfDigits(Decimal(n), rest);
    }
  }

  /** Text whose first character is not white space, a sign or a decimal
      digit holds no digit for parseInt, so it parses to NaN. */
  lemma ParseIntOfNonNumeric(t: string)
    requires t != [] && !IsJsSpace(t[0]) && t[0] != '-' && t[0] != '+' && !IsDigit(t[0], 10)
    ensures ParseInt(t) == None
  {
    TrimStartNoSpace(t);
    assert DigitRun(t, 10) == [];
  }

  /** The text "NaN" holds no digit, so it parses back to NaN. */
  lemma ParseIntOfNaNText()
    ensures ParseInt("NaN") == None
  {
    ParseIntOfNonNumeric("NaN");
  }

  /** The text toFixed(2) writes parses back to the same Number, NaN included. */
  lemma Fixed2RoundTrip(x: Option<int>)
    ensures ParseInt(Fixed2(x)) == x
  {
    match x
    case Some(n) =>
      ParseIntOfNumberText(n, ".00");
    case None =>
      ParseIntOfNaNText();
  }

  /** String(x) also parses back to x. */
  lemma NumTextRoundTrip(x: Option<int>)
    ensures ParseInt(NumText(x)) == x
  {
    match x
    case Some(n) =>
      assert NumberText(n) + [] == NumberText(n);
      ParseIntOfNumberText(n, []);
    case None =>
      ParseIntOfNaNText();
  }
}
