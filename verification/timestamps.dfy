/**
 The timestamp text exchanged between publisher and subscriber.

 The publisher formats the current time with the pattern "%Y-%m-%d %H:%M:%S";
 the subscriber parses it back with the same pattern. For a valid date-time in
 the years 1000 to 9999 that pattern yields the 19-character, zero-padded form
 YYYY-MM-DD HH:MM:SS, and that is the form this module formats and parses
 (writing every year with four digits).
 */
module Timestamps {
  import opened Wrappers

  /** A calendar date and a wall-clock time of day, to the second. */
  datatype DateTime = DateTime(year: nat, month: nat, day: nat, hour: nat, minute: nat, second: nat)

  /** Leap years of the proleptic Gregorian calendar. */
  predicate IsLeapYear(year: nat) {
    year % 4 == 0 && (year % 100 != 0 || year % 400 == 0)
  }

  function DaysInMonth(year: nat, month: nat): (n: nat)
    requires 1 <= month <= 12
    ensures 28 <= n <= 31
    ensures n == 29 <==> month == 2 && IsLeapYear(year)
  {
    if month == 2 then (if IsLeapYear(year) then 29 else 28)
    else if month == 4 || month == 6 || month == 9 || month == 11 then 30
    else 31
  }

  /** The date-times a datetime object can hold: years 1 to 9999, seconds 0 to 59. */
  predicate Valid(d: DateTime) {
    && 1 <= d.year <= 9999
    && 1 <= d.month <= 12
    && 1 <= d.day <= DaysInMonth(d.year, d.month)
    && d.hour < 24
    && d.minute < 60
    && d.second < 60
  }

  // ---------------------------------------------------------------------------
  // Fixed-width decimal fields

  function Pow10(k: nat): (p: nat)
    ensures p >= 1
  {
    if k == 0 then 1 else 10 * Pow10(k - 1)
  }

  predicate IsDigit(c: char) {
    '0' <= c <= '9'
  }

  predicate AllDigits(s: string) {
    forall i :: 0 <= i < |s| ==> IsDigit(s[i])
  }

  function DigitValue(c: char): nat
    requires IsDigit(c)
  {
    (c - '0') as nat
  }

  function DigitChar(n: nat): (c: char)
    requires n < 10
    ensures IsDigit(c) && DigitValue(c) == n
  {
    ('0' as int + n) as char
  }

  /** The number written by a run of decimal digits, most significant first. */
  function ReadDigits(s: string): (n: nat)
    requires AllDigits(s)
    ensures n < Pow10(|s|)
  {
    if |s| == 0 then 0
    else ReadDigits(s[..|s| - 1]) * 10 + DigitValue(s[|s| - 1])
  }

  /** The last `width` decimal digits of n, zero-padded on the left. */
  function WriteDigits(n: nat, width: nat): (s: string)
    ensures |s| == width && AllDigits(s)
  {
    if width == 0 then ""
    else WriteDigits(n / 10, width - 1) + [DigitChar(n % 10)]
  }

  /** Writing a number that fits and reading it back gives the number. */
  lemma {:induction false} ReadWriteDigits(n: nat, width: nat)
    requires n < Pow10(width)
    ensures ReadDigits(WriteDigits(n, width)) == n
  {
    if width > 0 {
      var s := WriteDigits(n, width);
      assert s[..|s| - 1] == WriteDigits(n / 10, width - 1);
      ReadWriteDigits(n / 10, width - 1);
    }
  }

  /** Reading a run of digits and writing it back at the same width gives the run. */
  lemma {:induction false} WriteReadDigits(s: string)
    requires AllDigits(s)
    ensures WriteDigits(ReadDigits(s), |s|) == s
  {
    if |s| > 0 {
      var init := s[..|s| - 1];
      var n := ReadDigits(s);
      assert n / 10 == ReadDigits(init);
      assert n % 10 == DigitValue(s[|s| - 1]);
      WriteReadDigits(init);
      assert s == init + [s[|s| - 1]];
    }
  }

  // ---------------------------------------------------------------------------
  // The "%Y-%m-%d %H:%M:%S" text form

  const TextLength: nat := 19

  /** The text "%Y-%m-%d %H:%M:%S" produces for a valid date-time. */
  function Format(d: DateTime): (s: string)
    requires Valid(d)
    ensures |s| == TextLength
  {
    WriteDigits(d.year, 4) + "-" + WriteDigits(d.month, 2) + "-" + WriteDigits(d.day, 2)
    + " " + WriteDigits(d.hour, 2) + ":" + WriteDigits(d.minute, 2) + ":" + WriteDigits(d.second, 2)
  }

  /** The separators sit at offsets 4, 7, 10, 13 and 16 and digits everywhere else. */
  predicate WellShaped(s: string) {
    && |s| == TextLength
    && s[4] == '-' && s[7] == '-' && s[10] == ' ' && s[13] == ':' && s[16] == ':'
    && AllDigits(s[0..4]) && AllDigits(s[5..7]) && AllDigits(s[8..10])
    && AllDigits(s[11..13]) && AllDigits(s[14..16]) && AllDigits(s[17..19])
  }

  /** The six fields a well-shaped text spells out, valid or not. */
  function Fields(s: string): DateTime
    requires WellShaped(s)
  {
    DateTime(ReadDigits(s[0..4]), ReadDigits(s[5..7]), ReadDigits(s[8..10]),
             ReadDigits(s[11..13]), ReadDigits(s[14..16]), ReadDigits(s[17..19]))
  }

  /**
   Parses the zero-padded form, failing on a text of the wrong shape and on
   fields out of range (month 13, 30 February, second 60).
   */
  function Parse(s: string): (r: Option<DateTime>)
    ensures r.Some? ==> Valid(r.value) && Format(r.value) == s
  {
    if WellShaped(s) && Valid(Fields(s)) then
      FieldsFormatBack(s);
      Some(Fields(s))
    else
      None
  }

  /** A well-shaped text whose fields are valid is the formatting of those fields. */
  lemma FieldsFormatBack(s: string)
    requires WellShaped(s) && Valid(Fields(s))
    ensures Format(Fields(s)) == s
  {
    WriteReadDigits(s[0..4]);
    WriteReadDigits(s[5..7]);
    WriteReadDigits(s[8..10]);
    WriteReadDigits(s[11..13]);
    WriteReadDigits(s[14..16]);
    WriteReadDigits(s[17..19]);
    Reassemble(s);
  }

  /** A 19-character text is the concatenation of its six fields and five separators. */
  lemma Reassemble(s: string)
    requires |s| == TextLength
    ensures s == s[0..4] + [s[4]] + s[5..7] + [s[7]] + s[8..10] + [s[10]]
                 + s[11..13] + [s[13]] + s[14..16] + [s[16]] + s[17..19]
  {
  }

  /** Parsing what the publisher formats returns exactly the fields formatted. */
  lemma ParseFormat(d: DateTime)
    requires Valid(d)
    ensures Parse(Format(d)) == Some(d)
  {
    var y, mo, dd := WriteDigits(d.year, 4), WriteDigits(d.month, 2), WriteDigits(d.day, 2);
    var h, mi, se := WriteDigits(d.hour, 2), WriteDigits(d.minute, 2), WriteDigits(d.second, 2);
    var s := Format(d);
    assert s == y + "-" + mo + "-" + dd + " " + h + ":" + mi + ":" + se;
    assert s[0..4] == y;
    assert s[5..7] == mo;
    assert s[8..10] == dd;
    assert s[11..13] == h;
    assert s[14..16] == mi;
    assert s[17..19] == se;
    assert WellShaped(s);
    ReadWriteDigits(d.year, 4);
    ReadWriteDigits(d.month, 2);
    ReadWriteDigits(d.day, 2);
    ReadWriteDigits(d.hour, 2);
    ReadWriteDigits(d.minute, 2);
    ReadWriteDigits(d.second, 2);
    assert Fields(s) == d;
  }

  /** Parse accepts exactly the texts Format produces, and inverts it. */
  lemma ParseIffFormat(s: string, d: DateTime)
    ensures Parse(s) == Some(d) <==> Valid(d) && Format(d) == s
  {
    if Valid(d) && Format(d) == s {
      ParseFormat(d);
    }
  }
}
