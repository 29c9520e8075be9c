/** The global `parseInt(string)` of JavaScript called without a radix, as
    section 19.2.5 of ECMA-262 defines it: skip leading white space, read an
    optional sign, switch to radix 16 after a "0x" or "0X" prefix, and take
    the longest run of digits that follows. None stands for NaN, the result
    when that run is empty. The value is an unbounded integer. */
module JsNumbers {
  import opened Shapes

  /** StrWhiteSpaceChar: the WhiteSpace and LineTerminator code points. */
  predicate IsStrWhiteSpace(c: char)
  {
    c == '\U{0009}' || c == '\U{000B}' || c == '\U{000C}' || c == '\U{FEFF}' ||
    c == '\U{0020}' || c == '\U{00A0}' || c == '\U{1680}' || ('\U{2000}' <= c <= '\U{200A}') ||
    c == '\U{202F}' || c == '\U{205F}' || c == '\U{3000}' ||
    c == '\U{000A}' || c == '\U{000D}' || c == '\U{2028}' || c == '\U{2029}'
  }

  /** Step 2: the input without its leading white space. */
  function TrimStart(s: string): (r: string)
    ensures |r| <= |s| && r == s[|s| - |r|..]
    ensures forall i :: 0 <= i < |s| - |r| ==> IsStrWhiteSpace(s[i])
    ensures r == [] || !IsStrWhiteSpace(r[0])
  {
    if s != [] && IsStrWhiteSpace(s[0]) then TrimStart(s[1..]) else s
  }

  /** The value of a digit in radix 16 or less: 0-9, then a-f or A-F. */
  function DigitValue(c: char): (r: Option<nat>)
    ensures r.Some? ==> r.value < 16
  {
    if '0' <= c <= '9' then Some(c as int - '0' as int)
    else if 'a' <= c <= 'f' then Some(c as int - 'a' as int + 10)
    else if 'A' <= c <= 'F' then Some(c as int - 'A' as int + 10)
    else None
  }

  predicate IsDigit(c: char, radix: nat)
  {
    DigitValue(c).Some? && DigitValue(c).value < radix
  }

  /** Step 11: the length of the longest prefix made of radix digits. */
  function DigitRun(s: string, radix: nat): (n: nat)
    ensures n <= |s|
    ensures forall i :: 0 <= i < n ==> IsDigit(s[i], radix)
    ensures n < |s| ==> !IsDigit(s[n], radix)
  {
    if s != [] && IsDigit(s[0], radix) then 1 + DigitRun(s[1..], radix) else 0
  }

  /** Step 14: the integer a run of digits denotes, most significant first.
      It is only applied to a digit run; a non-digit would weigh 0. */
  function DigitsValue(s: string, radix: nat): nat
  {
    if s == [] then 0
    else
      var weight := match DigitValue(s[|s| - 1]) case Some(v) => v case None => 0;
      DigitsValue(s[..|s| - 1], radix) * radix + weight
  }

  /** Steps 4-5: the text after an optional leading sign. */
  function Unsigned(s: string): string
  {
    if s != [] && (s[0] == '-' || s[0] == '+') then s[1..] else s
  }

  /** Step 10: a "0x" or "0X" prefix is dropped and selects radix 16;
      otherwise the radix is 10. */
  function RadixSplit(s: string): (string, nat)
  {
    if |s| >= 2 && s[0] == '0' && (s[1] == 'x' || s[1] == 'X') then (s[2..], 16) else (s, 10)
  }

  /** Steps 11-16: the signed value of the leading digits, or NaN when
      there are none. */
  function ParseDigits(digits: string, radix: nat, sign: int): Option<int>
  {
    var end := DigitRun(digits, radix);
    if end == 0 then None else Some(sign * DigitsValue(digits[..end], radix))
  }

  /** Steps 3-16 on text that starts with no white space. */
  function ParseTrimmed(s: string): Option<int>
  {
    var sign := if s != [] && s[0] == '-' then -1 else 1;
    var (digits, radix) := RadixSplit(Unsigned(s));
    ParseDigits(digits, radix, sign)
  }

  function ParseInt(text: string): Option<int>
  {
    ParseTrimmed(TrimStart(text))
  }

  /** The decimal numeral of a natural number, without leading zeros. */
  function DecimalDigits(n: nat): (r: string)
    ensures r != [] && forall i :: 0 <= i < |r| ==> IsDigit(r[i], 10)
    decreases n
  {
    var last := ['0' + (n % 10) as char];
    assert IsDigit(last[0], 10);
    if n < 10 then last else DecimalDigits(n / 10) + last
  }

  /** How an integer is written in a query string: an optional minus sign and
      its decimal numeral. */
  function Decimal(n: int): string
  {
    if n < 0 then "-" + DecimalDigits(-n) else DecimalDigits(n)
  }

  lemma {:induction false} DecimalDigitsValue(n: nat)
    ensures DigitsValue(DecimalDigits(n), 10) == n
    decreases n
  {
    var s := DecimalDigits(n);
    if n >= 10 {
      DecimalDigitsValue(n / 10);
      assert s[..|s| - 1] == DecimalDigits(n / 10);
    }
  }

  /** A numeral's second character is a digit, so it never opens a "0x". */
  lemma {:induction false} DecimalDigitsShape(n: nat)
    ensures var s := DecimalDigits(n);
            (n < 10 <==> |s| == 1) && (s[0] == '0' ==> n == 0)
    decreases n
  {
    if n >= 10 {
      DecimalDigitsShape(n / 10);
    }
  }

  /** The digit run of a run of digits followed by a non-digit stops at the
      non-digit. */
  lemma {:induction false} DigitRunStops(s: string, t: string, radix: nat)
    requires forall i :: 0 <= i < |s| ==> IsDigit(s[i], radix)
    requires t == [] || !IsDigit(t[0], radix)
    ensures DigitRun(s + t, radix) == |s|
    decreases |s|
  {
    if s != [] {
      assert (s + t)[1..] == s[1..] + t;
      DigitRunStops(s[1..], t, radix);
    }
  }

  /** The digit stage reads a run of digits up to the first non-digit. */
  lemma {:induction false} ParseDigitsStops(d: string, t: string, sign: int)
    requires d != [] && forall i :: 0 <= i < |d| ==> IsDigit(d[i], 10)
    requires t == [] || !IsDigit(t[0], 10)
    ensures ParseDigits(d + t, 10, sign) == Some(sign * DigitsValue(d, 10))
  {
    DigitRunStops(d, t, 10);
    assert (d + t)[..|d|] == d;
  }

  /** Before its digits are read, a written integer loses its minus sign to
      the sign step and keeps radix 10. */
  lemma {:induction false} DecimalReachesDigits(n: int, t: string)
    requires t == [] || (!IsDigit(t[0], 10) && t[0] != 'x' && t[0] != 'X')
    ensures ParseInt(Decimal(n) + t) ==
            ParseDigits(DecimalDigits(if n < 0 then -n else n) + t, 10, if n < 0 then -1 else 1)
  {
    var m: nat := if n < 0 then -n else n;
    var d := DecimalDigits(m);
    DecimalDigitsShape(m);
    var s := Decimal(n) + t;
    var sign := if n < 0 then -1 else 1;
    assert s == (if n < 0 then "-" + (d + t) else d + t);
    assert s[0] == '-' || IsDigit(s[0], 10);
    assert !IsStrWhiteSpace(s[0]);
    assert TrimStart(s) == s;
    assert Unsigned(s) == d + t;
    assert RadixSplit(d + t) == (d + t, 10) by {
      if |d + t| >= 2 && d[0] == '0' {
        assert |d| == 1 && (d + t)[1] == t[0];
      }
    }
    assert ParseInt(s) == ParseTrimmed(s);
    assert (s[0] == '-') == (n < 0);
  }

  /** A written integer followed by text that does not continue it parses
      back to that integer: "12px" is 12, and so is "12". */
  lemma {:induction false} ParseDecimalPrefix(n: int, t: string)
    requires t == [] || (!IsDigit(t[0], 10) && t[0] != 'x' && t[0] != 'X')
    ensures ParseInt(Decimal(n) + t) == Some(n)
  {
    var m: nat := if n < 0 then -n else n;
    DecimalReachesDigits(n, t);
    DecimalDigitsValue(m);
    ParseDigitsStops(DecimalDigits(m), t, if n < 0 then -1 else 1);
  }

  /** Every integer round-trips through its decimal form. */
  lemma {:induction false} ParseDecimal(n: int)
    ensures ParseInt(Decimal(n)) == Some(n)
  {
    ParseDecimalPrefix(n, []);
    assert Decimal(n) + [] == Decimal(n);
  }

  /** Leading white space is what TrimStart removes, however much there is. */
  lemma {:induction false} TrimStartSkips(w: string, s: string)
    requires forall i :: 0 <= i < |w| ==> IsStrWhiteSpace(w[i])
    ensures TrimStart(w + s) == TrimStart(s)
    decreases |w|
  {
    if w != [] {
      assert (w + s)[1..] == w[1..] + s;
      TrimStartSkips(w[1..], s);
    } else {
      assert w + s == s;
    }
  }

  /** Leading white space never changes the result. */
  lemma {:induction false} ParseSkipsLeadingSpace(w: string, s: string)
    requires forall i :: 0 <= i < |w| ==> IsStrWhiteSpace(w[i])
    ensures ParseInt(w + s) == ParseInt(s)
  {
    TrimStartSkips(w, s);
  }

  /** The result is NaN exactly when no digit follows the white space, the
      sign and the radix prefix. */
  lemma {:induction false} ParseNaN(text: string)
    ensures ParseInt(text).None? <==>
              (var (digits, radix) := RadixSplit(Unsigned(TrimStart(text)));
               digits == [] || !IsDigit(digits[0], radix))
  {
    var s := TrimStart(text);
    var sign := if s != [] && s[0] == '-' then -1 else 1;
    var (digits, radix) := RadixSplit(Unsigned(s));
    assert ParseInt(text) == ParseDigits(digits, radix, sign);
    assert DigitRun(digits, radix) == 0 <==> digits == [] || !IsDigit(digits[0], radix);
  }

  /** Text that starts with anything but white space, a sign or a decimal
      digit is NaN, and so is the empty string. */
  lemma {:induction false} ParseNaNOnOtherStart(text: string)
    requires text == [] ||
             (!IsStrWhiteSpace(text[0]) && text[0] != '-' && text[0] != '+' && !IsDigit(text[0], 10))
    ensures ParseInt(text) == None
  {
    ParseNaN(text);
    if text != [] {
      assert TrimStart(text) == text;
      assert Unsigned(text) == text;
      assert text[0] != '0' by { assert IsDigit('0', 10); }
      assert RadixSplit(text) == (text, 10);
    }
  }

  /** Text that starts with a decimal digit is a number, unless that digit
      opens a "0x" prefix: "0x" alone, or followed by no hex digit, is NaN. */
  lemma {:induction false} ParseNumberOnDigitStart(text: string)
    requires text != [] && IsDigit(text[0], 10)
    requires text[0] != '0' || |text| < 2 || (text[1] != 'x' && text[1] != 'X')
    ensures ParseInt(text).Some?
  {
    ParseNaN(text);
    assert !IsStrWhiteSpace(text[0]);
    assert TrimStart(text) == text;
    assert Unsigned(text) == text;
    assert RadixSplit(text) == (text, 10);
  }

  /** A word is NaN. */
  lemma {:induction false} ParseWord()
    ensures ParseInt("abc") == None
  {
    ParseNaNOnOtherStart("abc");
  }

  /** A sign with nothing after it is NaN. */
  lemma {:induction false} ParseBareSign()
    ensures ParseInt("-") == None
  {
    assert TrimStart("-") == "-";
    assert ParseTrimmed("-") == ParseDigits([], 10, -1) by {
      assert Unsigned("-") == [];
    }
  }

  /** A radix prefix with nothing after it is NaN. */
  lemma {:induction false} ParseBarePrefix()
    ensures ParseInt("0x") == None
  {
    var s := "0x";
    assert TrimStart(s) == s;
    assert RadixSplit(Unsigned(s)) == ([], 16) by {
      assert Unsigned(s) == s && s[2..] == [];
    }
    assert DigitRun([], 16) == 0;
  }

  /** "0" alone is the number 0, not a radix prefix. */
  lemma {:induction false} ParseZero()
    ensures ParseInt("0") == Some(0)
  {
    ParseDecimal(0);
    assert Decimal(0) == "0";
  }

  /** White space before a sign is skipped. */
  lemma {:induction false} ParseSpacedNegative()
    ensures ParseInt(" \t-7") == Some(-7)
  {
    ParseDecimal(-7);
    assert Decimal(-7) == "-7";
    ParseSkipsLeadingSpace(" \t", "-7");
    assert " \t" + "-7" == " \t-7";
  }

  /** Reading stops at the first non-digit: no exponent, no fraction. */
  lemma {:induction false} ParseStopsAtExponent()
    ensures ParseInt("1e3") == Some(1)
  {
    ParseDecimalPrefix(1, "e3");
    assert Decimal(1) + "e3" == "1e3";
  }

  /** After "0x" the digits are read in radix 16. */
  lemma {:induction false} ParseHex()
    ensures ParseInt("0x1A") == Some(26)
  {
    var hex := "1A";
    assert TrimStart("0x1A") == "0x1A";
    assert ParseTrimmed("0x1A") == ParseDigits(hex, 16, 1) by {
      assert RadixSplit("0x1A") == (hex, 16);
    }
    assert ParseDigits(hex, 16, 1) == Some(26) by {
      DigitRunStops(hex, [], 16);
      assert hex + [] == hex && hex[..2] == hex;
      assert DigitsValue(hex, 16) == 26 by {
        assert hex[..1] == "1";
      }
    }
  }
}
