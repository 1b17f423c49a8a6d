/** The month identifier a report row carries: the 'Y-m' rendering of a
    month (year padded to at least four digits, two-digit month), and the
    reading of such a label back into the month it names. */
module MonthLabel {
  import opened Wrappers
  import opened Calendar

  predicate IsDigit(c: char) {
    '0' <= c <= '9'
  }

  predicate AllDigits(s: seq<char>) {
    forall i :: 0 <= i < |s| ==> IsDigit(s[i])
  }

  function DigitChar(d: int): (c: char)
    requires 0 <= d <= 9
    ensures IsDigit(c)
  {
    (d + '0' as int) as char
  }

  function DigitValue(c: char): (d: int)
    requires IsDigit(c)
    ensures 0 <= d <= 9 && DigitChar(d) == c
  {
    c as int - '0' as int
  }

  /** Decimal digits of `n`, most significant first, no leading zeros. */
  function Digits(n: nat): (s: seq<char>)
    ensures |s| >= 1 && AllDigits(s)
  {
    if n < 10 then [DigitChar(n)] else Digits(n / 10) + [DigitChar(n % 10)]
  }

  /** Value of a string of decimal digits. */
  function DigitsValue(s: seq<char>): nat
    requires AllDigits(s)
  {
    if s == [] then 0 else DigitsValue(s[..|s| - 1]) * 10 + DigitValue(s[|s| - 1])
  }

  /** `s` with zeros put in front until it is `width` characters long. */
  function PadLeft(s: seq<char>, width: nat): (r: seq<char>)
    ensures |r| >= width && |r| >= |s|
    ensures AllDigits(s) ==> AllDigits(r)
    decreases width - |s|
  {
    if |s| >= width then s else PadLeft(['0'] + s, width)
  }

  lemma {:induction false} DigitsRoundTrip(n: nat)
    ensures DigitsValue(Digits(n)) == n
  {
    if n >= 10 {
      var s := Digits(n);
      assert s[..|s| - 1] == Digits(n / 10);
      DigitsRoundTrip(n / 10);
    }
  }

  lemma {:induction false} LeadingZero(s: seq<char>)
    requires AllDigits(s)
    ensures DigitsValue(['0'] + s) == DigitsValue(s)
    decreases |s|
  {
    if s != [] {
      var t := ['0'] + s;
      assert t[..|t| - 1] == ['0'] + s[..|s| - 1];
      LeadingZero(s[..|s| - 1]);
    } else {
      assert (['0'] + s)[..0] == [];
    }
  }

  lemma {:induction false} PadLeftValue(s: seq<char>, width: nat)
    requires AllDigits(s)
    ensures DigitsValue(PadLeft(s, width)) == DigitsValue(s)
    decreases width - |s|
  {
    if |s| < width {
      LeadingZero(s);
      PadLeftValue(['0'] + s, width);
    }
  }

  /** The 'Y' rendering of a year: at least four digits, '-' before a year BCE. */
  function YearText(y: int): string {
    if y < 0 then "-" + PadLeft(Digits(-y), 4) else PadLeft(Digits(y), 4)
  }

  /** The 'Y-m' label of a month, e.g. "2025-01". */
  function FormatMonth(ym: YearMonth): (r: string)
    ensures |r| >= 7 && r[|r| - 3] == '-' && IsDigit(r[|r| - 2]) && IsDigit(r[|r| - 1])
  {
    YearText(ym.year) + "-" + [DigitChar(ym.month / 10), DigitChar(ym.month % 10)]
  }

  function ParseYear(s: string): Option<int> {
    if |s| > 1 && s[0] == '-' && AllDigits(s[1..]) then
      var magnitude: int := DigitsValue(s[1..]);
      Some(-magnitude)
    else if |s| > 0 && AllDigits(s) then Some(DigitsValue(s))
    else None
  }

  /** Reads a 'Y-m' label back into the month it names; None when the text
      is not such a label or the month is not 01 to 12. */
  function ParseMonth(s: string): Option<YearMonth> {
    if |s| < 4 || s[|s| - 3] != '-' || !IsDigit(s[|s| - 2]) || !IsDigit(s[|s| - 1]) then None
    else
      var m := DigitValue(s[|s| - 2]) * 10 + DigitValue(s[|s| - 1]);
      match ParseYear(s[..|s| - 3])
      case None => None
      case Some(y) => if 1 <= m <= 12 then Some(YearMonth(y, m)) else None
  }

  lemma YearRoundTrip(y: int)
    ensures ParseYear(YearText(y)) == Some(y)
  {
    if y < 0 {
      var p := PadLeft(Digits(-y), 4);
      DigitsRoundTrip(-y);
      PadLeftValue(Digits(-y), 4);
      assert ("-" + p)[1..] == p;
    } else {
      DigitsRoundTrip(y);
      PadLeftValue(Digits(y), 4);
    }
  }

  /** Reading a label gives back the month it was made from. */
  lemma ParseFormat(ym: YearMonth)
    ensures ParseMonth(FormatMonth(ym)) == Some(ym)
  {
    var y := YearText(ym.year);
    var s := FormatMonth(ym);
    assert s[..|s| - 3] == y;
    YearRoundTrip(ym.year);
  }

  /** Distinct months have distinct labels. */
  lemma FormatInjective(a: YearMonth, b: YearMonth)
    ensures FormatMonth(a) == FormatMonth(b) <==> a == b
  {
    ParseFormat(a);
    ParseFormat(b);
  }
}
