/**
 * The two fmt verbs the core formats with: %d of an integer (Version.String,
 * SyntaxError.Error) and %q of a string (the GoString methods of the token
 * types). Characters above DEL are written as they are.
 */
module Text {
  import opened Wrappers

  predicate IsDigit(c: char) { '0' <= c <= '9' }

  function DigitChar(d: nat): (c: char)
    requires d < 10
    ensures IsDigit(c) && (c as int) - ('0' as int) == d
  {
    ('0' as int + d) as char
  }

  /** The decimal digits of n, most significant first, with no leading zero. */
  function Digits(n: nat): (s: string)
    ensures |s| >= 1
    ensures forall i :: 0 <= i < |s| ==> IsDigit(s[i])
    ensures s[0] == '0' ==> n == 0
    decreases n
  {
    if n < 10 then [DigitChar(n)] else Digits(n / 10) + [DigitChar(n % 10)]
  }

  /** fmt.Sprintf("%d", i). */
  function Decimal(i: int): (s: string)
    ensures |s| >= 1
    ensures i >= 0 <==> IsDigit(s[0])
  {
    if i < 0 then "-" + Digits(-i) else Digits(i)
  }

  /** The number a string of decimal digits denotes. */
  function DigitsValue(s: string): nat
    requires forall i :: 0 <= i < |s| ==> IsDigit(s[i])
  {
    if s == [] then 0
    else
      var last := s[|s| - 1];
      assert IsDigit(last);
      DigitsValue(s[..|s| - 1]) * 10 + ((last as int) - ('0' as int))
  }

  /** strconv.Atoi of what Decimal prints: reads an optional '-' and the digits. */
  function DecimalValue(s: string): Option<int>
  {
    if |s| >= 2 && s[0] == '-' && forall i :: 1 <= i < |s| ==> IsDigit(s[i]) then
      var magnitude: int := DigitsValue(s[1..]);
      Some(-magnitude)
    else if |s| >= 1 && forall i :: 0 <= i < |s| ==> IsDigit(s[i]) then
      Some(DigitsValue(s))
    else None
  }

  lemma {:induction false} DigitsRoundTrip(n: nat)
    ensures DigitsValue(Digits(n)) == n
    decreases n
  {
    if n >= 10 {
      DigitsRoundTrip(n / 10);
      var s := Digits(n);
      assert s[..|s| - 1] == Digits(n / 10);
    }
  }

  /** Decimal is read back by DecimalValue: %d loses nothing. */
  lemma DecimalRoundTrip(i: int)
    ensures DecimalValue(Decimal(i)) == Some(i)
  {
    if i < 0 {
      DigitsRoundTrip(-i);
      assert Decimal(i)[1..] == Digits(-i);
    } else {
      DigitsRoundTrip(i);
    }
  }

  /** The lower-case hexadecimal digit of d, as strconv writes it. */
  function HexDigit(d: nat): (c: char)
    requires d < 16
    ensures HexValue(c) == d
  {
    if d < 10 then ('0' as int + d) as char else ('a' as int + d - 10) as char
  }

  /** The value of a hexadecimal digit; 0 for any other character. */
  function HexValue(c: char): nat
  {
    if '0' <= c <= '9' then (c as int) - ('0' as int)
    else if 'a' <= c <= 'f' then (c as int) - ('a' as int) + 10
    else 0
  }

  /**
   * The letter strconv writes after a backslash for the seven control
   * characters with a named escape: \a \b \f \n \r \t \v.
   */
  function NamedEscape(c: char): Option<char>
  {
    match c as int
    case 7 => Some('a')
    case 8 => Some('b')
    case 12 => Some('f')
    case 10 => Some('n')
    case 13 => Some('r')
    case 9 => Some('t')
    case 11 => Some('v')
    case _ => None
  }

  /** The character a named escape letter stands for (the inverse of NamedEscape). */
  function NamedControl(l: char): Option<char>
  {
    match l
    case 'a' => Some(7 as char)
    case 'b' => Some(8 as char)
    case 'f' => Some(12 as char)
    case 'n' => Some(10 as char)
    case 'r' => Some(13 as char)
    case 't' => Some(9 as char)
    case 'v' => Some(11 as char)
    case _ => None
  }

  /** A control character strconv writes as a \x escape: below ' ', or DEL. */
  predicate IsControl(c: char) { c < ' ' || c as int == 0x7f }

  /**
   * How %q writes one character: '"' and '\' get a backslash, the seven
   * named controls their letter, any other control character \x and two
   * lower-case hex digits, and everything else itself.
   */
  function EscapeChar(c: char): (e: string)
    ensures |e| >= 1 && (|e| == 1 <==> !IsControl(c) && c != '"' && c != '\\')
    ensures |e| > 1 ==> e[0] == '\\'
  {
    if c == '"' || c == '\\' then ['\\', c]
    else if NamedEscape(c).Some? then ['\\', NamedEscape(c).value]
    else if IsControl(c) then ['\\', 'x', HexDigit(c as int / 16), HexDigit(c as int % 16)]
    else [c]
  }

  /** The body of a %q string: each character escaped as EscapeChar says. */
  function Escape(s: string): string
  {
    if s == [] then [] else EscapeChar(s[0]) + Escape(s[1..])
  }

  /** fmt.Sprintf("%q", s). */
  function Quote(s: string): (q: string)
    ensures |q| >= 2 && q[0] == '"' && q[|q| - 1] == '"'
  {
    "\"" + Escape(s) + "\""
  }

  /** strconv's reading of the escapes Escape writes. */
  function Unescape(e: string): string
  {
    if e == [] then []
    else if e[0] == '\\' && |e| >= 4 && e[1] == 'x' then
      [(HexValue(e[2]) * 16 + HexValue(e[3])) as char] + Unescape(e[4..])
    else if e[0] == '\\' && |e| >= 2 && NamedControl(e[1]).Some? then
      [NamedControl(e[1]).value] + Unescape(e[2..])
    else if e[0] == '\\' && |e| >= 2 then [e[1]] + Unescape(e[2..])
    else [e[0]] + Unescape(e[1..])
  }

  /** strconv.Unquote of what Quote prints. */
  function Unquote(q: string): Option<string>
  {
    if |q| >= 2 && q[0] == '"' && q[|q| - 1] == '"' then Some(Unescape(q[1..|q| - 1])) else None
  }

  /** One escaped character is read back before the rest. */
  lemma UnescapeChar(c: char, rest: string)
    ensures Unescape(EscapeChar(c) + rest) == [c] + Unescape(rest)
  {
    var e := EscapeChar(c) + rest;
    if c == '"' || c == '\\' {
      assert e[2..] == rest;
    } else if NamedEscape(c).Some? {
      assert e[2..] == rest;
    } else if IsControl(c) {
      assert e[4..] == rest;
      assert (HexValue(e[2]) * 16 + HexValue(e[3])) == c as int;
    } else {
      assert e[1..] == rest;
    }
  }

  lemma {:induction false} UnescapeEscape(s: string)
    ensures Unescape(Escape(s)) == s
  {
    if s != [] {
      UnescapeEscape(s[1..]);
      UnescapeChar(s[0], Escape(s[1..]));
      assert s == [s[0]] + s[1..];
    }
  }

  /** No control character survives %q: each is written as an escape. */
  lemma {:induction false} QuoteHasNoControl(s: string)
    ensures forall i :: 0 <= i < |Quote(s)| ==> !IsControl(Quote(s)[i])
  {
    EscapeHasNoControl(s);
  }

  lemma {:induction false} EscapeHasNoControl(s: string)
    ensures forall i :: 0 <= i < |Escape(s)| ==> !IsControl(Escape(s)[i])
  {
    if s != [] {
      EscapeHasNoControl(s[1..]);
      var e := EscapeChar(s[0]);
      assert forall i :: 0 <= i < |e| ==> !IsControl(e[i]);
      assert Escape(s) == e + Escape(s[1..]);
    }
  }

  /** %q loses nothing: Unquote reads back the quoted string. */
  lemma QuoteRoundTrip(s: string)
    ensures Unquote(Quote(s)) == Some(s)
  {
    UnescapeEscape(s);
    var q := Quote(s);
    assert q[1..|q| - 1] == Escape(s);
  }
}
