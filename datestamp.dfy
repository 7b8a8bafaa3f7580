/** The date stamp of export file names, the two file names and the PDF
    export. The clock is read by the caller; here the date arrives as the
    three numbers `getFullYear()`, `getMonth() + 1` and `getDate()`
    produce. */
module DateStamp {

  predicate IsDigit(c: char) {
    '0' <= c <= '9'
  }

  predicate AllDigits(s: string) {
    forall i :: 0 <= i < |s| ==> IsDigit(s[i])
  }

  function DigitChar(d: nat): (c: char)
    requires d < 10
    ensures IsDigit(c) && c as int - '0' as int == d
  {
    ('0' as int + d) as char
  }

  /** The number a string of decimal digits denotes. */
  function DigitsValue(s: string): nat
    requires AllDigits(s)
  {
    if s == [] then 0 else DigitsValue(s[..|s| - 1]) * 10 + (s[|s| - 1] as int - '0' as int)
  }

  /** `String(n)` for a non-negative integer: its decimal digits, without
      leading zeros. */
  function DecimalString(n: nat): (s: string)
    ensures 1 <= |s| && AllDigits(s)
    ensures DigitsValue(s) == n
    ensures s[0] == '0' ==> n == 0
  {
    if n < 10 then [DigitChar(n)]
    else
      var s := DecimalString(n / 10) + [DigitChar(n % 10)];
      assert s[..|s| - 1] == DecimalString(n / 10);
      s
  }

  /** The number of digits `String(n)` has, for the magnitudes a date uses. */
  lemma {:induction false} DecimalLength(n: nat)
    ensures n < 10 ==> |DecimalString(n)| == 1
    ensures 10 <= n < 100 ==> |DecimalString(n)| == 2
    ensures 100 <= n < 1000 ==> |DecimalString(n)| == 3
    ensures 1000 <= n < 10000 ==> |DecimalString(n)| == 4
  {
    if n >= 10 {
      DecimalLength(n / 10);
    }
  }

  /** `s.padStart(width, fill)` with a one-character fill string: `s`
      itself when it is already `width` long, otherwise `s` preceded by as
      many copies of `fill` as make it `width` long. */
  function PadStart(s: string, width: nat, fill: char): (r: string)
    ensures |r| == if |s| >= width then |s| else width
    ensures r[|r| - |s|..] == s
    ensures forall i :: 0 <= i < |r| - |s| ==> r[i] == fill
  {
    if |s| >= width then s else seq(width - |s|, _ => fill) + s
  }

  /** A leading zero does not change the value of a digit string. */
  lemma {:induction false} LeadingZero(s: string)
    requires AllDigits(s)
    ensures AllDigits(['0'] + s) && DigitsValue(['0'] + s) == DigitsValue(s)
    decreases |s|
  {
    var z := ['0'] + s;
    if s != [] {
      assert z[..|z| - 1] == ['0'] + s[..|s| - 1];
      LeadingZero(s[..|s| - 1]);
    }
  }

  /** `k` zero characters. */
  function Zeros(k: nat): (z: string)
    ensures |z| == k && forall i :: 0 <= i < k ==> z[i] == '0'
  {
    if k == 0 then [] else ['0'] + Zeros(k - 1)
  }

  /** Any number of zeros in front of a digit string keep it a digit
      string of the same value. */
  lemma {:induction false} ZerosInFront(k: nat, s: string)
    requires AllDigits(s)
    ensures AllDigits(Zeros(k) + s) && DigitsValue(Zeros(k) + s) == DigitsValue(s)
  {
    if k > 0 {
      ZerosInFront(k - 1, s);
      LeadingZero(Zeros(k - 1) + s);
      assert Zeros(k) + s == ['0'] + (Zeros(k - 1) + s);
    } else {
      assert Zeros(k) + s == s;
    }
  }

  /** Zero padding keeps the string numeric and keeps its value. */
  lemma ZeroPadKeepsValue(s: string, width: nat)
    requires AllDigits(s)
    ensures AllDigits(PadStart(s, width, '0'))
    ensures DigitsValue(PadStart(s, width, '0')) == DigitsValue(s)
  {
    if |s| < width {
      ZerosInFront(width - |s|, s);
      assert PadStart(s, width, '0') == Zeros(width - |s|) + s;
    }
  }

  /** Reads `YYYYMMDD` back into year, month and day. */
  function ParseDate(s: string): (int, int, int)
    requires |s| == 8 && AllDigits(s)
  {
    (DigitsValue(s[..4]), DigitsValue(s[4..6]), DigitsValue(s[6..]))
  }

  /** A date the clock can produce, with a four-digit year. */
  predicate ValidDate(year: nat, month: nat, day: nat) {
    1000 <= year <= 9999 && 1 <= month <= 12 && 1 <= day <= 31
  }

  /** `getFormattedDate()`: the year as `String` gives it, then the month
      and the day each zero-padded to two characters. For a date the clock
      can produce, the stamp is eight digits, four of the year, two of the
      month and two of the day, and reading it back gives the date. */
  function FormattedDate(year: nat, month: nat, day: nat): (s: string)
    ensures ValidDate(year, month, day) ==>
      |s| == 8 && AllDigits(s) && ParseDate(s) == (year, month, day)
  {
    var y, m, d := DecimalString(year), PadStart(DecimalString(month), 2, '0'), PadStart(DecimalString(day), 2, '0');
    if ValidDate(year, month, day) then
      DecimalLength(year);
      TwoDigits(month);
      TwoDigits(day);
      StampParts(y, m, d);
      y + m + d
    else y + m + d
  }

  /** A number below 100, zero-padded to two places, is two digits
      denoting it. */
  lemma TwoDigits(n: nat)
    requires n < 100
    ensures |PadStart(DecimalString(n), 2, '0')| == 2
    ensures AllDigits(PadStart(DecimalString(n), 2, '0'))
    ensures DigitsValue(PadStart(DecimalString(n), 2, '0')) == n
  {
    DecimalLength(n);
    ZeroPadKeepsValue(DecimalString(n), 2);
  }

  /** Cutting `a + b + c` at the lengths of its parts gives back the parts. */
  lemma Parts(a: string, b: string, c: string)
    ensures (a + b + c)[..|a|] == a && (a + b + c)[|a|..|a| + |b|] == b && (a + b + c)[|a| + |b|..] == c
  {
  }

  /** Four, two and two digits joined are eight digits, and `ParseDate`
      reads each part back. */
  lemma StampParts(y: string, m: string, d: string)
    requires |y| == 4 && |m| == 2 && |d| == 2
    requires AllDigits(y) && AllDigits(m) && AllDigits(d)
    ensures |y + m + d| == 8 && AllDigits(y + m + d)
    ensures ParseDate(y + m + d) == (DigitsValue(y), DigitsValue(m), DigitsValue(d))
  {
    var s := y + m + d;
    forall i | 0 <= i < 8
      ensures IsDigit(s[i])
    {
      if i < 4 {
        assert s[i] == y[i];
      } else if i < 6 {
        assert s[i] == m[i - 4];
      } else {
        assert s[i] == d[i - 6];
      }
    }
    Parts(y, m, d);
  }

  /** Two different dates never share a stamp. */
  lemma FormattedDateInjective(y1: nat, m1: nat, d1: nat, y2: nat, m2: nat, d2: nat)
    requires ValidDate(y1, m1, d1) && ValidDate(y2, m2, d2)
    requires FormattedDate(y1, m1, d1) == FormattedDate(y2, m2, d2)
    ensures y1 == y2 && m1 == m2 && d1 == d2
  {
  }

  /** The year 2025 is written `"2025"`. */
  lemma Year2025()
    ensures DecimalString(2025) == "2025"
  {
    assert DecimalString(2) == "2";
    assert DecimalString(20) == DecimalString(2) + "0" == "20";
    assert DecimalString(202) == DecimalString(20) + "2" == "202";
    assert DecimalString(2025) == DecimalString(202) + "5";
  }

  /** 7 January 2025 is stamped `20250107`. */
  lemma SeventhOfJanuary2025()
    ensures FormattedDate(2025, 1, 7) == "20250107"
  {
    Year2025();
    var m, d := PadStart(DecimalString(1), 2, '0'), PadStart(DecimalString(7), 2, '0');
    assert m == "01" && d == "07";
    assert FormattedDate(2025, 1, 7) == "2025" + m + d;
  }

  /** The fixed beginning of both export file names. */
  const FilePrefix: string := "バランスホイール_"

  /** A name that is the prefix, the stamp of a valid date and `ext`:
      its pieces sit at fixed positions and the date reads back. */
  predicate NamedFor(name: string, year: nat, month: nat, day: nat, ext: string) {
    var n := |FilePrefix| + 8;
    |name| == n + |ext| && name[..|FilePrefix|] == FilePrefix && name[n..] == ext &&
    AllDigits(name[|FilePrefix|..n]) && ParseDate(name[|FilePrefix|..n]) == (year, month, day)
  }

  /** The prefix, the stamp and the extension, each at its position. */
  function DatedName(year: nat, month: nat, day: nat, ext: string): (name: string)
    ensures ValidDate(year, month, day) ==> NamedFor(name, year, month, day, ext)
  {
    var stamp := FormattedDate(year, month, day);
    Parts(FilePrefix, stamp, ext);
    FilePrefix + stamp + ext
  }

  /** Name of the PDF export, `バランスホイール_YYYYMMDD.pdf`. */
  function PdfFileName(year: nat, month: nat, day: nat): (name: string)
    ensures ValidDate(year, month, day) ==> NamedFor(name, year, month, day, ".pdf")
  {
    DatedName(year, month, day, ".pdf")
  }

  /** Name of the spreadsheet export, `バランスホイール_YYYYMMDD.xlsx`. */
  function XlsxFileName(year: nat, month: nat, day: nat): (name: string)
    ensures ValidDate(year, month, day) ==> NamedFor(name, year, month, day, ".xlsx")
  {
    DatedName(year, month, day, ".xlsx")
  }

  /** On one day both exports are named by the prefix and the same eight
      date digits, and differ only in their extension. */
  lemma FileNamesShareDateStamp(year: nat, month: nat, day: nat)
    requires ValidDate(year, month, day)
    ensures var n := |FilePrefix| + 8;
      |PdfFileName(year, month, day)| == n + 4 && |XlsxFileName(year, month, day)| == n + 5 &&
      PdfFileName(year, month, day)[..n] == XlsxFileName(year, month, day)[..n]
  {
    var n := |FilePrefix| + 8;
    var stamp := FormattedDate(year, month, day);
    var pdf, xlsx := PdfFileName(year, month, day), XlsxFileName(year, month, day);
    assert pdf == (FilePrefix + stamp) + ".pdf";
    assert xlsx == (FilePrefix + stamp) + ".xlsx";
    assert pdf[..n] == FilePrefix + stamp == xlsx[..n];
  }

  datatype Option<T> = None | Some(value: T)

  /** `savePDF()` up to rendering: nothing is saved unless the capture
      region is mounted; otherwise the file is named like the spreadsheet
      of the same day, up to the extension. */
  function SavePdf(mounted: bool, year: nat, month: nat, day: nat): (saved: Option<string>)
    ensures saved.Some? <==> mounted
    ensures mounted && ValidDate(year, month, day) ==>
      var n := |FilePrefix| + 8;
      |saved.value| == n + 4 && saved.value[..n] == XlsxFileName(year, month, day)[..n] &&
      saved.value[n..] == ".pdf"
  {
    if !mounted then None
    else if ValidDate(year, month, day) then
      FileNamesShareDateStamp(year, month, day);
      Some(PdfFileName(year, month, day))
    else Some(PdfFileName(year, month, day))
  }
}
