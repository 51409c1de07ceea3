/**
  UTC date-times as `DateTime<Utc>::to_rfc3339` prints them and `parse` reads
  them back: section 5.6 of RFC 3339, years 0 to 9999, offset zero.
 */
module Timestamps {
  import opened Wrappers
  import Text

  // ---------- Fixed-width decimal numbers ----------

  function Pow10(n: nat): nat {
    if n == 0 then 1 else 10 * Pow10(n - 1)
  }

  predicate IsDigit(c: char) {
    '0' <= c <= '9'
  }

  predicate AllDigits(s: string) {
    forall i :: 0 <= i < |s| ==> IsDigit(s[i])
  }

  /** `n` in exactly `width` digits, higher digits dropped. */
  function Digits(n: nat, width: nat): (s: string)
    ensures |s| == width && AllDigits(s)
  {
    if width == 0 then "" else Digits(n / 10, width - 1) + [('0' as int + n % 10) as char]
  }

  function Number(s: string): nat
    requires AllDigits(s)
  {
    if s == "" then 0 else 10 * Number(s[..|s| - 1]) + (s[|s| - 1] as int - '0' as int)
  }

  lemma {:induction false} NumberOfDigits(n: nat, width: nat)
    requires n < Pow10(width)
    ensures Number(Digits(n, width)) == n
  {
    if width > 0 {
      NumberOfDigits(n / 10, width - 1);
      var s := Digits(n, width);
      assert s[..width - 1] == Digits(n / 10, width - 1);
    }
  }

  // ---------- Date-times ----------

  datatype DateTime = DateTime(
    year: nat, month: nat, day: nat, hour: nat, minute: nat, second: nat, nanosecond: nat)

  predicate IsLeap(year: nat) {
    year % 4 == 0 && (year % 100 != 0 || year % 400 == 0)
  }

  function DaysIn(year: nat, month: nat): nat {
    if month == 2 then (if IsLeap(year) then 29 else 28)
    else if month in {4, 6, 9, 11} then 30
    else 31
  }

  /** The ranges of section 5.7 of RFC 3339; second 60 is a leap second. */
  predicate InRange(t: DateTime) {
    && t.year <= 9999 && 1 <= t.month <= 12 && 1 <= t.day <= DaysIn(t.year, t.month)
    && t.hour <= 23 && t.minute <= 59 && t.second <= 60 && t.nanosecond < 1_000_000_000
  }

  type Timestamp = t: DateTime | InRange(t) witness DateTime(1970, 1, 1, 0, 0, 0, 0)

  /** No fraction, or as few of 3, 6 and 9 digits as lose nothing. */
  function PrintFraction(nanosecond: nat): string {
    if nanosecond == 0 then ""
    else if nanosecond % 1_000_000 == 0 then "." + Digits(nanosecond / 1_000_000, 3)
    else if nanosecond % 1_000 == 0 then "." + Digits(nanosecond / 1_000, 6)
    else "." + Digits(nanosecond, 9)
  }

  function PrintSeconds(t: Timestamp): (s: string)
    ensures |s| == 19
  {
    Digits(t.year, 4) + "-" + Digits(t.month, 2) + "-" + Digits(t.day, 2) + "T"
    + Digits(t.hour, 2) + ":" + Digits(t.minute, 2) + ":" + Digits(t.second, 2)
  }

  const UTC_OFFSET := "+00:00"

  /** `to_rfc3339`. */
  function Print(t: Timestamp): string {
    PrintSeconds(t) + PrintFraction(t.nanosecond) + UTC_OFFSET
  }

  predicate SecondsShape(s: string) {
    && |s| == 19
    && s[4] == '-' && s[7] == '-' && s[10] == 'T' && s[13] == ':' && s[16] == ':'
    && AllDigits(s[0..4]) && AllDigits(s[5..7]) && AllDigits(s[8..10])
    && AllDigits(s[11..13]) && AllDigits(s[14..16]) && AllDigits(s[17..19])
  }

  predicate FractionShape(s: string) {
    s == "" || (2 <= |s| <= 10 && s[0] == '.' && AllDigits(s[1..]))
  }

  function FractionNanos(s: string): nat
    requires FractionShape(s)
  {
    if s == "" then 0 else Number(s[1..]) * Pow10(10 - |s|)
  }

  /** Parsing, on texts that write the zero offset as `+00:00`. */
  function Parse(s: string): Option<Timestamp> {
    var n := |s| - 6;
    if n < 19 || s[n..] != UTC_OFFSET || !SecondsShape(s[..19]) || !FractionShape(s[19..n]) then None
    else
      var p := s[..19];
      var t := DateTime(Number(p[0..4]), Number(p[5..7]), Number(p[8..10]),
                        Number(p[11..13]), Number(p[14..16]), Number(p[17..19]), FractionNanos(s[19..n]));
      if InRange(t) then Some(t) else None
  }

  lemma Powers()
    ensures Pow10(0) == 1 && Pow10(2) == 100 && Pow10(3) == 1_000 && Pow10(4) == 10_000
    ensures Pow10(6) == 1_000_000 && Pow10(9) == 1_000_000_000
  {
    assert Pow10(1) == 10 && Pow10(2) == 100;
    assert Pow10(5) == 10 * Pow10(4) && Pow10(7) == 10 * Pow10(6) && Pow10(8) == 10 * Pow10(7);
  }

  lemma FractionRoundTrip(nanosecond: nat)
    requires nanosecond < 1_000_000_000
    ensures FractionShape(PrintFraction(nanosecond))
    ensures FractionNanos(PrintFraction(nanosecond)) == nanosecond
  {
    assert Pow10(3) == 1_000 && Pow10(6) == 1_000_000 by { Powers(); }
    Powers();
    if nanosecond == 0 {
    } else if nanosecond % 1_000_000 == 0 {
      NumberOfDigits(nanosecond / 1_000_000, 3);
      assert PrintFraction(nanosecond)[1..] == Digits(nanosecond / 1_000_000, 3);
    } else if nanosecond % 1_000 == 0 {
      NumberOfDigits(nanosecond / 1_000, 6);
      assert PrintFraction(nanosecond)[1..] == Digits(nanosecond / 1_000, 6);
    } else {
      NumberOfDigits(nanosecond, 9);
      assert PrintFraction(nanosecond)[1..] == Digits(nanosecond, 9);
    }
  }

  lemma DateSlices(y: string, m: string, d: string, rest: string)
    requires |y| == 4 && |m| == 2 && |d| == 2
    ensures var s := y + "-" + m + "-" + d + rest;
            s[0..4] == y && s[4] == '-' && s[5..7] == m && s[7] == '-' && s[8..10] == d && s[10..] == rest
  {}

  lemma TimeSlices(date: string, h: string, m: string, s: string)
    requires |date| == 10 && |h| == 2 && |m| == 2 && |s| == 2
    ensures var t := date + "T" + h + ":" + m + ":" + s;
            t[10] == 'T' && t[11..13] == h && t[13] == ':' && t[14..16] == m && t[16] == ':' && t[17..19] == s
  {}

  lemma SecondsSlices(t: Timestamp)
    ensures var s := PrintSeconds(t);
            && s[4] == '-' && s[7] == '-' && s[10] == 'T' && s[13] == ':' && s[16] == ':'
            && s[0..4] == Digits(t.year, 4) && s[5..7] == Digits(t.month, 2) && s[8..10] == Digits(t.day, 2)
            && s[11..13] == Digits(t.hour, 2) && s[14..16] == Digits(t.minute, 2) && s[17..19] == Digits(t.second, 2)
  {
    var date := Digits(t.year, 4) + "-" + Digits(t.month, 2) + "-" + Digits(t.day, 2);
    var clock := "T" + Digits(t.hour, 2) + ":" + Digits(t.minute, 2) + ":" + Digits(t.second, 2);
    assert PrintSeconds(t) == date + clock;
    DateSlices(Digits(t.year, 4), Digits(t.month, 2), Digits(t.day, 2), clock);
    TimeSlices(date, Digits(t.hour, 2), Digits(t.minute, 2), Digits(t.second, 2));
  }

  lemma SliceNumber(slice: string, n: nat, width: nat)
    requires slice == Digits(n, width) && n < Pow10(width)
    ensures AllDigits(slice) && Number(slice) == n
  {
    NumberOfDigits(n, width);
  }

  lemma SecondsRoundTrip(t: Timestamp)
    ensures var s := PrintSeconds(t);
            && SecondsShape(s)
            && Number(s[0..4]) == t.year && Number(s[5..7]) == t.month && Number(s[8..10]) == t.day
            && Number(s[11..13]) == t.hour && Number(s[14..16]) == t.minute && Number(s[17..19]) == t.second
  {
    var s := PrintSeconds(t);
    SecondsSlices(t);
    Powers();
    SliceNumber(s[0..4], t.year, 4);
    SliceNumber(s[5..7], t.month, 2);
    SliceNumber(s[8..10], t.day, 2);
    SliceNumber(s[11..13], t.hour, 2);
    SliceNumber(s[14..16], t.minute, 2);
    SliceNumber(s[17..19], t.second, 2);
  }

  /** Every printed timestamp parses back to itself. */
  lemma PrintParseRoundTrip(t: Timestamp)
    ensures Parse(Print(t)) == Some(t)
  {
    var s := Print(t);
    var n := |s| - 6;
    SecondsRoundTrip(t);
    FractionRoundTrip(t.nanosecond);
    assert s[..19] == PrintSeconds(t);
    assert s[19..n] == PrintFraction(t.nanosecond);
    assert s[n..] == UTC_OFFSET;
  }

  lemma DigitsAreOneWord(n: nat, width: nat)
    ensures '\n' !in Digits(n, width)
    ensures width > 0 ==> !Text.IsSpace(Digits(n, width)[0])
  {
    assert forall i :: 0 <= i < width ==> IsDigit(Digits(n, width)[i]);
  }

  lemma SecondsAreOneWord(t: Timestamp)
    ensures '\n' !in PrintSeconds(t) && !Text.IsSpace(PrintSeconds(t)[0])
  {
    DigitsAreOneWord(t.year, 4);
    DigitsAreOneWord(t.month, 2);
    DigitsAreOneWord(t.day, 2);
    DigitsAreOneWord(t.hour, 2);
    DigitsAreOneWord(t.minute, 2);
    DigitsAreOneWord(t.second, 2);
    assert PrintSeconds(t)[0] == Digits(t.year, 4)[0];
  }

  lemma FractionIsOneWord(nanosecond: nat)
    ensures '\n' !in PrintFraction(nanosecond)
  {
    DigitsAreOneWord(nanosecond / 1_000_000, 3);
    DigitsAreOneWord(nanosecond / 1_000, 6);
    DigitsAreOneWord(nanosecond, 9);
  }

  /** A printed timestamp is one trimmed word on one line. */
  lemma PrintedIsOneWord(t: Timestamp)
    ensures Print(t) != "" && Text.IsTrimmed(Print(t)) && '\n' !in Print(t)
  {
    var s, seconds, fraction := Print(t), PrintSeconds(t), PrintFraction(t.nanosecond);
    SecondsAreOneWord(t);
    FractionIsOneWord(t.nanosecond);
    assert s[0] == seconds[0];
    assert s[|s| - 1] == '0';
    assert '\n' !in UTC_OFFSET;
    assert '\n' !in seconds + fraction;
  }

  // ---------- The calendar ----------

  /** The lengths of the twelve months. */
  lemma MonthTable(year: nat, month: nat)
    requires 1 <= month <= 12
    ensures DaysIn(year, month) ==
            [31, if IsLeap(year) then 29 else 28, 31, 30, 31, 30, 31, 31, 30, 31, 30, 31][month - 1]
  {}

  /** The ranges, with the month lengths written out. */
  lemma InRangeIff(t: DateTime)
    ensures InRange(t) <==>
            && t.year < 10_000 && t.month in {1, 2, 3, 4, 5, 6, 7, 8, 9, 10, 11, 12} && t.day != 0
            && t.day < [32, if IsLeap(t.year) then 30 else 29, 32, 31, 32, 31, 32, 32, 31, 32, 31, 32][t.month - 1]
            && t.hour < 24 && t.minute < 60 && t.second < 61 && t.nanosecond < 1_000_000_000
  {}

  function LeapsBefore(year: nat): nat {
    if year == 0 then 0 else LeapsBefore(year - 1) + (if IsLeap(year - 1) then 1 else 0)
  }

  lemma Fourths(n: nat)
    ensures (n + 4) / 4 == (n + 3) / 4 + (if n % 4 == 0 then 1 else 0)
  {}

  lemma Hundredths(n: nat)
    ensures (n + 100) / 100 == (n + 99) / 100 + (if n % 100 == 0 then 1 else 0)
  {
    var q, r := n / 100, n % 100;
    assert n == 100 * q + r;
    assert (n + 100) / 100 == q + 1;
    assert (n + 99) / 100 == if r == 0 then q else q + 1;
  }

  lemma FourHundredths(n: nat)
    ensures (n + 400) / 400 == (n + 399) / 400 + (if n % 400 == 0 then 1 else 0)
  {
    var q, r := n / 400, n % 400;
    assert n == 400 * q + r;
    assert (n + 400) / 400 == q + 1;
    assert (n + 399) / 400 == if r == 0 then q else q + 1;
  }

  lemma FourHundredthIsHundredth(n: nat)
    ensures n % 400 == 0 ==> n % 100 == 0
    ensures n % 100 == 0 ==> n % 4 == 0
  {
    if n % 400 == 0 {
      assert n == 100 * (4 * (n / 400));
    }
    if n % 100 == 0 {
      assert n == 4 * (25 * (n / 100));
    }
  }

  /** The Gregorian rule by counting: every fourth year, but not the hundredths, but the four hundredths. */
  lemma {:induction false} LeapCount(year: nat)
    ensures LeapsBefore(year) == (year + 3) / 4 - (year + 99) / 100 + (year + 399) / 400
  {
    if year > 0 {
      LeapCount(year - 1);
      Fourths(year - 1);
      Hundredths(year - 1);
      FourHundredths(year - 1);
      FourHundredthIsHundredth(year - 1);
    }
  }

  // ---------- The text of a timestamp ----------

  /** Where everything stands in a printed timestamp. */
  lemma PrintedLayout(t: Timestamp)
    ensures var s := Print(t);
            && |s| == 25 + (if t.nanosecond == 0 then 0 else if t.nanosecond % 1_000_000 == 0 then 4
                            else if t.nanosecond % 1_000 == 0 then 7 else 10)
            && s[4] == '-' && s[7] == '-' && s[10] == 'T' && s[13] == ':' && s[16] == ':'
            && (t.nanosecond != 0 ==> s[19] == '.')
            && s[|s| - 6..] == "+00:00"
            && AllDigits(s[0..4]) && AllDigits(s[5..7]) && AllDigits(s[8..10])
            && AllDigits(s[11..13]) && AllDigits(s[14..16]) && AllDigits(s[17..19])
            && Number(s[0..4]) == t.year && Number(s[5..7]) == t.month && Number(s[8..10]) == t.day
            && Number(s[11..13]) == t.hour && Number(s[14..16]) == t.minute && Number(s[17..19]) == t.second
  {
    var s, seconds := Print(t), PrintSeconds(t);
    SecondsRoundTrip(t);
    assert s[..19] == seconds;
    assert s[0..4] == seconds[0..4] && s[5..7] == seconds[5..7] && s[8..10] == seconds[8..10];
    assert s[11..13] == seconds[11..13] && s[14..16] == seconds[14..16] && s[17..19] == seconds[17..19];
  }

  lemma {:induction false} DigitsOfNumber(s: string)
    requires AllDigits(s)
    ensures Number(s) < Pow10(|s|) && Digits(Number(s), |s|) == s
  {
    if s != "" {
      var init := s[..|s| - 1];
      DigitsOfNumber(init);
      assert s == init + [s[|s| - 1]];
      assert Number(s) / 10 == Number(init) && Number(s) % 10 == s[|s| - 1] as int - '0' as int;
    }
  }

  lemma DateAgain(p: string, y: string, m: string, d: string, h: string, n: string, s: string)
    requires |p| == 19 && p[4] == '-' && p[7] == '-' && p[10] == 'T' && p[13] == ':' && p[16] == ':'
    requires y == p[0..4] && m == p[5..7] && d == p[8..10] && h == p[11..13] && n == p[14..16] && s == p[17..19]
    ensures p == y + "-" + m + "-" + d + "T" + h + ":" + n + ":" + s
  {}

  lemma SecondsAgain(p: string)
    requires SecondsShape(p)
    ensures p == Digits(Number(p[0..4]), 4) + "-" + Digits(Number(p[5..7]), 2) + "-" + Digits(Number(p[8..10]), 2) + "T"
                 + Digits(Number(p[11..13]), 2) + ":" + Digits(Number(p[14..16]), 2) + ":"
                 + Digits(Number(p[17..19]), 2)
  {
    DigitsOfNumber(p[0..4]);
    DigitsOfNumber(p[5..7]);
    DigitsOfNumber(p[8..10]);
    DigitsOfNumber(p[11..13]);
    DigitsOfNumber(p[14..16]);
    DigitsOfNumber(p[17..19]);
    DateAgain(p, p[0..4], p[5..7], p[8..10], p[11..13], p[14..16], p[17..19]);
  }

  lemma CutInThree(s: string, i: nat, j: nat)
    requires i <= j <= |s|
    ensures s == s[..i] + s[i..j] + s[j..]
  {}

  /** What parses is what would be printed, but for how many digits the fraction takes. */
  lemma ParsedIsPrinted(s: string)
    requires Parse(s).Some?
    ensures var t, n := Parse(s).value, |s| - 6;
            && 19 <= n && s == PrintSeconds(t) + s[19..n] + UTC_OFFSET
            && FractionShape(s[19..n]) && FractionNanos(s[19..n]) == t.nanosecond
  {
    SecondsAgain(s[..19]);
    CutInThree(s, 19, |s| - 6);
  }

  /** Every such text is read, and nothing else is. */
  lemma ParseIff(s: string, t: Timestamp)
    ensures Parse(s) == Some(t) <==>
            exists f :: FractionShape(f) && FractionNanos(f) == t.nanosecond && s == PrintSeconds(t) + f + "+00:00"
  {
    if Parse(s) == Some(t) {
      ParsedIsPrinted(s);
    }
    if f :| FractionShape(f) && FractionNanos(f) == t.nanosecond && s == PrintSeconds(t) + f + "+00:00" {
      SecondsRoundTrip(t);
      assert s[..19] == PrintSeconds(t) && s[19..|s| - 6] == f && s[|s| - 6..] == UTC_OFFSET;
    }
  }
}
