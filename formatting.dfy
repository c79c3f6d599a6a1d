/**
 * The text formatting the graph report relies on: decimal numerals, numbers
 * with two decimals (`%.2f`), and right justification to a field width
 * (`%10s`, `%20i`). Every formatter is paired with a parser it round-trips
 * with, so that a field of the report can be read back.
 *
 * Numbers that the report prints with two decimals are modelled as fixed-point
 * values counted in hundredths.
 */
module Formatting {

  predicate IsDigit(c: char) {
    '0' <= c <= '9'
  }

  /** The character of the decimal digit `d`. */
  function DigitChar(d: nat): (c: char)
    requires d < 10
    ensures IsDigit(c) && (c as int) - ('0' as int) == d
  {
    (('0' as int) + d) as char
  }

  /** The value of a digit character; anything else reads as 0. */
  function DigitValue(c: char): nat {
    if IsDigit(c) then (c as int) - ('0' as int) else 0
  }

  /** `n` repetitions of the character `c` (Ruby's `c * n`). */
  function Repeat(c: char, n: nat): (s: string)
    ensures |s| == n
  {
    seq(n, _ => c)
  }

  lemma {:induction false} RepeatElements(c: char, n: nat)
    ensures forall i :: 0 <= i < n ==> Repeat(c, n)[i] == c
  {
  }

  function Spaces(n: nat): (s: string)
    ensures |s| == n
  {
    Repeat(' ', n)
  }

  lemma {:induction false} SpacesAreBlank(n: nat)
    ensures forall i :: 0 <= i < n ==> Spaces(n)[i] == ' '
  {
    RepeatElements(' ', n);
  }

  /**
   * The decimal numeral of `n`, most significant digit first and without
   * leading zeros (Ruby's `Integer#to_s` on a non-negative integer).
   */
  function NatToDigits(n: nat): (s: string)
    ensures |s| > 0
  {
    if n < 10 then [DigitChar(n)] else NatToDigits(n / 10) + [DigitChar(n % 10)]
  }

  /** The numeral is made of digits and has no leading zero. */
  lemma {:induction false} NatToDigitsShape(n: nat)
    ensures forall i :: 0 <= i < |NatToDigits(n)| ==> IsDigit(NatToDigits(n)[i])
    ensures |NatToDigits(n)| > 1 ==> NatToDigits(n)[0] != '0'
  {
    if n >= 10 {
      NatToDigitsShape(n / 10);
      var s := NatToDigits(n);
      assert s == NatToDigits(n / 10) + [DigitChar(n % 10)];
      if n / 10 >= 10 {
        assert s[0] == NatToDigits(n / 10)[0];
      } else {
        assert s[0] == DigitChar(n / 10);
      }
    }
  }

  /** The value of a string of digits, read most significant digit first. */
  function DigitsValue(s: string): nat {
    if s == [] then 0 else 10 * DigitsValue(s[..|s| - 1]) + DigitValue(s[|s| - 1])
  }

  lemma {:induction false} DigitsRoundTrip(n: nat)
    ensures DigitsValue(NatToDigits(n)) == n
  {
    if n >= 10 {
      var s := NatToDigits(n);
      assert s[..|s| - 1] == NatToDigits(n / 10);
      DigitsRoundTrip(n / 10);
    }
  }

  /** Ruby's `Integer#to_s`: an optional minus sign, then the digits. */
  function IntToString(i: int): (s: string)
    ensures |s| > 0
  {
    if i < 0 then "-" + NatToDigits(-i) else NatToDigits(i)
  }

  /** A numeral holds only digits and minus signs: no blank and no slash. */
  lemma {:induction false} IntToStringChars(i: int)
    ensures IntToString(i)[0] == '-' <==> i < 0
    ensures forall k :: 0 <= k < |IntToString(i)| ==> IntToString(i)[k] == '-' || IsDigit(IntToString(i)[k])
  {
    NatToDigitsShape(if i < 0 then -i else i);
  }

  /** Reads back what `IntToString` writes. */
  function ParseInt(s: string): int {
    if |s| > 0 && s[0] == '-' then -(DigitsValue(s[1..]) as int) else DigitsValue(s)
  }

  lemma {:induction false} IntRoundTrip(i: int)
    ensures ParseInt(IntToString(i)) == i
  {
    var s := IntToString(i);
    IntToStringChars(i);
    if i < 0 {
      assert s[1..] == NatToDigits(-i);
      DigitsRoundTrip(-i);
    } else {
      DigitsRoundTrip(i);
    }
  }

  /** A decimal with exactly two fractional digits: a sign and a count of hundredths. */
  datatype Fixed2 = Fixed2(negative: bool, hundredths: nat)

  /** The fixed-point value of a signed count of hundredths. */
  function FromHundredths(h: int): (f: Fixed2)
    ensures (if f.negative then -(f.hundredths as int) else f.hundredths) == h
  {
    Fixed2(h < 0, if h < 0 then -h else h)
  }

  /** The two fractional digits of a count of hundredths. */
  function Fraction(h: nat): (s: string)
    ensures |s| == 2 && IsDigit(s[0]) && IsDigit(s[1])
  {
    [DigitChar(h % 100 / 10), DigitChar(h % 10)]
  }

  lemma {:induction false} FractionValue(h: nat)
    ensures DigitsValue(Fraction(h)) == h % 100
  {
    var s := Fraction(h);
    var tens := DigitChar(h % 100 / 10);
    assert s[..1] == [tens] && [tens][..0] == [];
    assert DigitsValue([tens]) == DigitValue(tens);
    assert DigitsValue(s) == 10 * DigitValue(tens) + DigitValue(DigitChar(h % 10));
  }

  /**
   * `sprintf("%.2f", x)` for a value that is already a whole number of
   * hundredths: the sign, the integer part, a point and two digits.
   */
  function FormatFixed2(f: Fixed2): (s: string)
    ensures |s| >= 4
  {
    (if f.negative then "-" else "") + NatToDigits(f.hundredths / 100) + "." + Fraction(f.hundredths)
  }

  /** A two-decimal numeral holds only digits, a point and perhaps a minus sign. */
  lemma {:induction false} FormatFixed2Chars(f: Fixed2)
    ensures FormatFixed2(f)[0] == '-' <==> f.negative
    ensures FormatFixed2(f)[|FormatFixed2(f)| - 3] == '.'
    ensures forall k :: 0 <= k < |FormatFixed2(f)| ==>
      FormatFixed2(f)[k] == '-' || FormatFixed2(f)[k] == '.' || IsDigit(FormatFixed2(f)[k])
  {
    NatToDigitsShape(f.hundredths / 100);
  }

  /** Reads back what `FormatFixed2` writes. */
  function ParseFixed2(s: string): Fixed2 {
    var negative := |s| > 0 && s[0] == '-';
    var body := if negative then s[1..] else s;
    if |body| < 3 then Fixed2(negative, 0)
    else Fixed2(negative, DigitsValue(body[..|body| - 3]) * 100 + DigitsValue(body[|body| - 2..]))
  }

  /** Reading back a sign, an integer part, a point and a two-digit fraction. */
  lemma {:induction false} ParseSigned(negative: bool, whole: string, fraction: string)
    requires |fraction| == 2 && whole != [] && whole[0] != '-'
    ensures ParseFixed2((if negative then "-" else "") + whole + "." + fraction)
         == Fixed2(negative, DigitsValue(whole) * 100 + DigitsValue(fraction))
  {
    var body := whole + "." + fraction;
    assert body[..|body| - 3] == whole && body[|body| - 2..] == fraction;
    if negative {
      var s := "-" + whole + "." + fraction;
      assert s == "-" + body && s[0] == '-' && s[1..] == body;
    } else {
      assert ("" + whole + "." + fraction) == body && body[0] == whole[0];
    }
  }

  lemma {:induction false} Fixed2RoundTrip(f: Fixed2)
    ensures ParseFixed2(FormatFixed2(f)) == f
  {
    var whole := NatToDigits(f.hundredths / 100);
    NatToDigitsShape(f.hundredths / 100);
    assert IsDigit(whole[0]);
    ParseSigned(f.negative, whole, Fraction(f.hundredths));
    DigitsRoundTrip(f.hundredths / 100);
    FractionValue(f.hundredths);
  }

  /**
   * Right justification to `width` (the `%<width>s` conversion): the text is
   * padded with leading spaces to the width, and left as it is when it is
   * already that long or longer.
   */
  function RightJustify(s: string, width: nat): (r: string)
    ensures |r| == if |s| < width then width else |s|
    decreases width - |s|
  {
    if |s| < width then RightJustify([' '] + s, width) else s
  }

  /** The padding is `width - |s|` spaces in front of the text. */
  lemma {:induction false} RightJustifyPads(s: string, width: nat)
    ensures RightJustify(s, width) == Spaces(if |s| < width then width - |s| else 0) + s
    decreases width - |s|
  {
    if |s| < width {
      RightJustifyPads([' '] + s, width);
      var n := width - |s|;
      assert Spaces(n) == Spaces(n - 1) + [' '];
      assert Spaces(n - 1) + ([' '] + s) == Spaces(n) + s;
    } else {
      assert Spaces(0) + s == s;
    }
  }

  /** The text ends the field and only blanks come before it. */
  lemma {:induction false} RightJustifyShape(s: string, width: nat)
    ensures var r := RightJustify(s, width);
      r[|r| - |s|..] == s && forall i :: 0 <= i < |r| - |s| ==> r[i] == ' '
  {
    RightJustifyPads(s, width);
    SpacesAreBlank(if |s| < width then width - |s| else 0);
  }

  /** The three properties of `RightJustify` determine its result. */
  lemma {:induction false} RightJustifyUnique(s: string, width: nat, t: string)
    requires |t| == if |s| < width then width else |s|
    requires t[|t| - |s|..] == s
    requires forall i :: 0 <= i < |t| - |s| ==> t[i] == ' '
    ensures t == RightJustify(s, width)
  {
    var r := RightJustify(s, width);
    RightJustifyShape(s, width);
    assert |t| == |r|;
    forall i | 0 <= i < |t| ensures t[i] == r[i] {
      if i >= |t| - |s| {
        assert t[i] == t[|t| - |s|..][i - (|t| - |s|)];
        assert r[i] == r[|r| - |s|..][i - (|r| - |s|)];
      }
    }
  }

  function TrimLeadingSpaces(s: string): (r: string)
    ensures |r| <= |s| && r == s[|s| - |r|..]
    ensures r == [] || r[0] != ' '
  {
    if |s| > 0 && s[0] == ' ' then TrimLeadingSpaces(s[1..]) else s
  }

  lemma {:induction false} TrimPadding(n: nat, s: string)
    requires s == [] || s[0] != ' '
    ensures TrimLeadingSpaces(Spaces(n) + s) == s
  {
    if n > 0 {
      SpacesAreBlank(n);
      SpacesAreBlank(n - 1);
      assert (Spaces(n) + s)[1..] == Spaces(n - 1) + s;
      TrimPadding(n - 1, s);
    } else {
      assert Spaces(0) + s == s;
    }
  }

  /** Removing the padding of a right-justified field gives back its text. */
  lemma {:induction false} TrimRightJustify(s: string, width: nat)
    requires s == [] || s[0] != ' '
    ensures TrimLeadingSpaces(RightJustify(s, width)) == s
  {
    RightJustifyPads(s, width);
    TrimPadding(if |s| < width then width - |s| else 0, s);
  }

  /** The index of the first `c` in `s`, or `|s|` when there is none. */
  function IndexOf(s: string, c: char): (k: nat)
    ensures k <= |s|
    ensures k < |s| ==> s[k] == c
    ensures forall i :: 0 <= i < k ==> s[i] != c
  {
    if s == [] then 0 else if s[0] == c then 0 else 1 + IndexOf(s[1..], c)
  }
}
