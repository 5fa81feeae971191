/**
 * Date/time strings: the 14-character `yyyymmddhhmiss` stamp built from the
 * fields of a `Date`, and the three converters that slice such stamps into
 * `yyyy-mm-dd`, `hh:mi:ss` and `yyyy-mm-dd hh:mi:ss`.
 *
 * The shared utility holds all four definitions. The order routes keep private
 * copies of all four, and the user routes a private copy of the stamp builder
 * only; each is defined once here. The clock itself is not modelled: "now" is a
 * `DateFields` value that the caller supplies.
 */
module Datetime {
  import opened JsText

  /** What `getFullYear`, `getMonth` (0-based), `getDate`, `getHours`,
      `getMinutes` and `getSeconds` return for one instant in local time. */
  datatype DateFields = DateFields(year: int, month0: int, date: int, hours: int, minutes: int, seconds: int)

  /** The ranges a `Date` getter keeps to, for a year written with four digits. */
  predicate ValidFields(f: DateFields) {
    1000 <= f.year <= 9999 && 0 <= f.month0 <= 11 && 1 <= f.date <= 31 &&
    0 <= f.hours <= 23 && 0 <= f.minutes <= 59 && 0 <= f.seconds <= 59
  }

  /** `("0" + n).slice(-2)`. */
  function Pad2(n: int): string {
    SliceFrom("0" + IntToString(n), -2)
  }

  /** A two-digit field has exactly two digits, reads back as `n`, and starts with
      '0' exactly when `n` is a single digit. */
  lemma Pad2Digits(n: int)
    requires 0 <= n <= 99
    ensures |Pad2(n)| == 2 && AllDigits(Pad2(n))
    ensures DecimalValue(Pad2(n)) == n
    ensures Pad2(n)[0] == '0' <==> n < 10
  {
    SliceFromTail("0" + IntToString(n), 2);
    if n < 10 {
      assert Pad2(n) == [DigitChar(0), DigitChar(n)];
      TwoDigits(0, n);
    } else {
      NatToStringTwoDigits(n);
      assert Pad2(n) == [DigitChar(n / 10), DigitChar(n % 10)];
      TwoDigits(n / 10, n % 10);
    }
  }

  /** Two digit characters read back as the two-digit number they spell. */
  lemma TwoDigits(a: nat, b: nat)
    requires a < 10 && b < 10
    ensures AllDigits([DigitChar(a), DigitChar(b)])
    ensures DecimalValue([DigitChar(a), DigitChar(b)]) == 10 * a + b
  {
    var p := [DigitChar(a), DigitChar(b)];
    assert p[..1] == [DigitChar(a)] && p[..1][..0] == [];
    assert DecimalValue(p[..1]) == a;
    assert DecimalValue(p) == 10 * DecimalValue(p[..1]) + DigitValue(p[1]);
  }

  /** `getDttm`: year, then month (0-based month plus one), day, hours, minutes and
      seconds as two-digit fields. */
  function GetDttm(f: DateFields): string {
    IntToString(f.year) + Pad2(f.month0 + 1) + Pad2(f.date) + Pad2(f.hours) + Pad2(f.minutes) + Pad2(f.seconds)
  }

  /** For a four-digit year the stamp has 14 digits laid out as yyyy mm dd hh mi ss,
      and every field reads back from its place. */
  lemma GetDttmLayout(f: DateFields)
    requires ValidFields(f)
    ensures var s := GetDttm(f);
      |s| == 14 && AllDigits(s) &&
      DecimalValue(s[..4]) == f.year && DecimalValue(s[4..6]) == f.month0 + 1 &&
      DecimalValue(s[6..8]) == f.date && DecimalValue(s[8..10]) == f.hours &&
      DecimalValue(s[10..12]) == f.minutes && DecimalValue(s[12..14]) == f.seconds
  {
    NatToStringFourDigits(f.year);
    NatToStringValue(f.year);
    Pad2Digits(f.month0 + 1);
    Pad2Digits(f.date);
    Pad2Digits(f.hours);
    Pad2Digits(f.minutes);
    Pad2Digits(f.seconds);
    StampPieces(IntToString(f.year), Pad2(f.month0 + 1), Pad2(f.date), Pad2(f.hours), Pad2(f.minutes), Pad2(f.seconds));
  }

  /** Where the six pieces of a stamp sit in it. */
  lemma StampPieces(y: string, mo: string, d: string, h: string, mi: string, se: string)
    requires |y| == 4 && |mo| == 2 && |d| == 2 && |h| == 2 && |mi| == 2 && |se| == 2
    requires AllDigits(y) && AllDigits(mo) && AllDigits(d) && AllDigits(h) && AllDigits(mi) && AllDigits(se)
    ensures var s := y + mo + d + h + mi + se;
      |s| == 14 && AllDigits(s) &&
      s[..4] == y && s[4..6] == mo && s[6..8] == d && s[8..10] == h && s[10..12] == mi && s[12..] == se
  {
  }

  /** `convertDateFromat`: `${date.slice(0, 4)}-${date.slice(4, 6)}-${date.slice(6, 8)}`. */
  function ConvertDateFormat(date: string): string {
    Slice(date, 0, 4) + "-" + Slice(date, 4, 6) + "-" + Slice(date, 6, 8)
  }

  /** `convertTimeFormat`: `${time.slice(0, 2)}:${time.slice(2, 4)}:${time.slice(4, 6)}`. */
  function ConvertTimeFormat(time: string): string {
    Slice(time, 0, 2) + ":" + Slice(time, 2, 4) + ":" + Slice(time, 4, 6)
  }

  /** `convertDatetimeFormat`: the date from the first 8 characters, the time from the last 6. */
  function ConvertDatetimeFormat(dttm: string): string {
    ConvertDateFormat(Slice(dttm, 0, 8)) + " " + ConvertTimeFormat(SliceFrom(dttm, -6))
  }

  /** A date never fails to format, whatever its length: the result is the first
      `c = min(|date|, 8)` characters with a '-' put after the 4th and the 6th of
      them (both clamped to the input), so deleting the two dashes gives the input's
      first `c` characters back. An 8-character date gives 10 characters with '-'
      at indices 4 and 7; a date of at most 4 characters just gains "--". */
  lemma DateFormatRoundTrip(date: string)
    ensures var r := ConvertDateFormat(date);
      var a := Min(|date|, 4); var b := Min(|date|, 6); var c := Min(|date|, 8);
      |r| == c + 2 && r[a] == '-' && r[b + 1] == '-' &&
      r[..a] + r[a + 1..b + 1] + r[b + 2..] == date[..c]
    ensures |date| == 8 ==>
      (|ConvertDateFormat(date)| == 10 && ConvertDateFormat(date)[4] == '-' && ConvertDateFormat(date)[7] == '-')
    ensures |date| <= 4 ==> ConvertDateFormat(date) == date + "--"
  {
    var r := ConvertDateFormat(date);
    var a := Min(|date|, 4);
    var b := Min(|date|, 6);
    var c := Min(|date|, 8);
    assert Slice(date, 0, 4) == date[..a];
    assert Slice(date, 4, 6) == date[a..b];
    assert Slice(date, 6, 8) == date[b..c];
    assert r == date[..a] + "-" + date[a..b] + "-" + date[b..c];
    assert r[..a] == date[..a];
    assert r[a + 1..b + 1] == date[a..b];
    assert r[b + 2..] == date[b..c];
    assert date[..a] + date[a..b] == date[..b];
    assert date[..b] + date[b..c] == date[..c];
  }

  /** The same for times: the first `min(|time|, 6)` characters with ':' after the 2nd
      and the 4th; a 6-character time gives 8 characters with ':' at indices 2 and 5. */
  lemma TimeFormatRoundTrip(time: string)
    ensures var r := ConvertTimeFormat(time);
      var a := Min(|time|, 2); var b := Min(|time|, 4); var c := Min(|time|, 6);
      |r| == c + 2 && r[a] == ':' && r[b + 1] == ':' &&
      r[..a] + r[a + 1..b + 1] + r[b + 2..] == time[..c]
    ensures |time| == 6 ==>
      (|ConvertTimeFormat(time)| == 8 && ConvertTimeFormat(time)[2] == ':' && ConvertTimeFormat(time)[5] == ':')
  {
    var r := ConvertTimeFormat(time);
    var a := Min(|time|, 2);
    var b := Min(|time|, 4);
    var c := Min(|time|, 6);
    assert Slice(time, 0, 2) == time[..a];
    assert Slice(time, 2, 4) == time[a..b];
    assert Slice(time, 4, 6) == time[b..c];
    assert r == time[..a] + ":" + time[a..b] + ":" + time[b..c];
    assert r[..a] == time[..a];
    assert r[a + 1..b + 1] == time[a..b];
    assert r[b + 2..] == time[b..c];
    assert time[..a] + time[a..b] == time[..b];
    assert time[..b] + time[b..c] == time[..c];
  }

  /** The date part always comes from the head of the stamp and the time part from
      its tail (so on short stamps the two overlap); a 14-character stamp becomes
      "yyyy-mm-dd hh:mi:ss", 19 characters. */
  lemma DatetimeFormatParts(dttm: string)
    ensures ConvertDatetimeFormat(dttm) ==
      ConvertDateFormat(dttm[..Min(|dttm|, 8)]) + " " + ConvertTimeFormat(dttm[|dttm| - Min(|dttm|, 6)..])
    ensures |dttm| == 14 ==>
      (ConvertDatetimeFormat(dttm) ==
       dttm[..4] + "-" + dttm[4..6] + "-" + dttm[6..8] + " " + dttm[8..10] + ":" + dttm[10..12] + ":" + dttm[12..])
    ensures |dttm| == 14 ==> |ConvertDatetimeFormat(dttm)| == 19
  {
    SlicePrefix(dttm, 8);
    SliceFromTail(dttm, 6);
    if |dttm| == 14 {
      var d := dttm[..8];
      var t := dttm[8..];
      assert Slice(d, 0, 4) == dttm[..4];
      assert Slice(d, 4, 6) == dttm[4..6];
      assert Slice(d, 6, 8) == dttm[6..8];
      assert Slice(t, 0, 2) == dttm[8..10];
      assert Slice(t, 2, 4) == dttm[10..12];
      assert Slice(t, 4, 6) == dttm[12..];
    }
  }

  /** Formatting the stamp of some fields gives "yyyy-mm-dd hh:mi:ss" built from the
      same fields. */
  lemma {:induction false} FormatOfStamp(f: DateFields)
    requires ValidFields(f)
    ensures ConvertDatetimeFormat(GetDttm(f)) ==
      IntToString(f.year) + "-" + Pad2(f.month0 + 1) + "-" + Pad2(f.date) + " " +
      Pad2(f.hours) + ":" + Pad2(f.minutes) + ":" + Pad2(f.seconds)
  {
    NatToStringFourDigits(f.year);
    Pad2Digits(f.month0 + 1);
    Pad2Digits(f.date);
    Pad2Digits(f.hours);
    Pad2Digits(f.minutes);
    Pad2Digits(f.seconds);
    StampPieces(IntToString(f.year), Pad2(f.month0 + 1), Pad2(f.date), Pad2(f.hours), Pad2(f.minutes), Pad2(f.seconds));
    DatetimeFormatParts(GetDttm(f));
  }
}
