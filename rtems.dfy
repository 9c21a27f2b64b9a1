/**
 * The RTEMS wire timestamp: fourteen decimal digits in the `SimpleDateFormat`
 * pattern `yyyyMMddHHmmss`, read into civil-time fields and formatted back.
 */
module Rtems {

  /** Civil (wall-clock) time fields, as the pattern's six fields carry them. */
  datatype CivilTime = CivilTime(year: nat, month: nat, day: nat, hour: nat, minute: nat, second: nat)

  /**
   * What `new Timestamp(parseRTEMSTimestamp(s))` holds: the instant 0 (the
   * sentinel for a `ParseException`) or the civil time that was read.
   */
  datatype Instant = Epoch | At(civil: CivilTime)

  /** Length of `yyyyMMddHHmmss`. */
  const TimestampLength := 14

  predicate IsDigit(c: char) { '0' <= c <= '9' }

  predicate AllDigits(s: string) { forall i :: 0 <= i < |s| ==> IsDigit(s[i]) }

  /** A string the pattern reads as six abutting numeric fields. */
  predicate WellFormed(s: string) { |s| == TimestampLength && AllDigits(s) }

  function DigitValue(c: char): nat
    requires IsDigit(c)
  {
    c as int - '0' as int
  }

  function DigitChar(d: nat): (c: char)
    requires d < 10
  {
    ('0' as int + d) as char
  }

  /** The number a string of decimal digits denotes. */
  function Value(s: string): nat
    requires AllDigits(s)
    decreases |s|
  {
    if s == [] then 0 else Value(s[..|s| - 1]) * 10 + DigitValue(s[|s| - 1])
  }

  /** Decimal digits of `n`, left-padded with zeros to at least `width` characters. */
  function Decimal(n: nat, width: nat): string
    decreases n + width
  {
    if n == 0 && width == 0 then ""
    else Decimal(n / 10, if width > 0 then width - 1 else 0) + [DigitChar(n % 10)]
  }

  function Pow10(k: nat): nat
  {
    if k == 0 then 1 else 10 * Pow10(k - 1)
  }

  /** The six fields of a well-formed timestamp, with no range check. */
  function Fields(s: string): CivilTime
    requires WellFormed(s)
  {
    CivilTime(Value(s[0..4]), Value(s[4..6]), Value(s[6..8]),
              Value(s[8..10]), Value(s[10..12]), Value(s[12..14]))
  }

  /** `parseRTEMSTimestamp`: the fields read, or the epoch sentinel when parsing fails. */
  function ParseRtemsTimestamp(s: string): (r: Instant)
    ensures r.At? <==> WellFormed(s)
    ensures !WellFormed(s) ==> r == Epoch
  {
    if WellFormed(s) then At(Fields(s)) else Epoch
  }

  /**
   * `toRTEMSTimestamp`: the fields written back with the same pattern. Every
   * field is zero-padded to its width, so the text is digits only and is
   * exactly fourteen characters when no field overflows its width.
   */
  function ToRtemsTimestamp(t: CivilTime): (r: string)
    ensures AllDigits(r) && |r| >= TimestampLength
    ensures |r| == TimestampLength <==>
      t.year < 10000 && t.month < 100 && t.day < 100 && t.hour < 100 && t.minute < 100 && t.second < 100
  {
    DecimalShape(t.year, 4);
    DecimalShape(t.month, 2);
    DecimalShape(t.day, 2);
    DecimalShape(t.hour, 2);
    DecimalShape(t.minute, 2);
    DecimalShape(t.second, 2);
    assert Pow10(2) == 100 && Pow10(4) == 10000;
    Decimal(t.year, 4) + Decimal(t.month, 2) + Decimal(t.day, 2)
      + Decimal(t.hour, 2) + Decimal(t.minute, 2) + Decimal(t.second, 2)
  }

  predicate IsLeapYear(y: nat)
  {
    (y % 4 == 0 && y % 100 != 0) || y % 400 == 0
  }

  function DaysInMonth(y: nat, m: nat): nat
    requires 1 <= m <= 12
  {
    if m == 2 then (if IsLeapYear(y) then 29 else 28)
    else if m == 4 || m == 6 || m == 9 || m == 11 then 30
    else 31
  }

  /** A calendar time the pattern writes in fourteen digits and reads back unchanged. */
  predicate ValidCivil(t: CivilTime)
  {
    && 1 <= t.year <= 9999
    && 1 <= t.month <= 12
    && 1 <= t.day <= DaysInMonth(t.year, t.month)
    && t.hour < 24 && t.minute < 60 && t.second < 60
  }

  // ---- digit-level lemmas ----

  /** Decimal digits only, at least `width` of them, and exactly `width` when `n` fits. */
  lemma {:induction false} DecimalShape(n: nat, width: nat)
    ensures AllDigits(Decimal(n, width)) && |Decimal(n, width)| >= width
    ensures |Decimal(n, width)| == width <==> n < Pow10(width)
    decreases n + width
  {
    if n != 0 || width != 0 {
      var w := if width > 0 then width - 1 else 0;
      DecimalShape(n / 10, w);
      var d := Decimal(n, width);
      assert d == Decimal(n / 10, w) + [DigitChar(n % 10)];
      assert forall i :: 0 <= i < |d| - 1 ==> d[i] == Decimal(n / 10, w)[i];
      if width > 0 {
        assert n < Pow10(width) <==> n / 10 < Pow10(width - 1);
      }
    }
  }

  lemma {:induction false} DecimalFits(n: nat, width: nat)
    requires n < Pow10(width)
    ensures |Decimal(n, width)| == width
    ensures AllDigits(Decimal(n, width))
    ensures Value(Decimal(n, width)) == n
    decreases width
  {
    if width == 0 {
      assert n == 0;
    } else {
      assert n / 10 < Pow10(width - 1);
      DecimalFits(n / 10, width - 1);
      var d := Decimal(n, width);
      assert d[..|d| - 1] == Decimal(n / 10, width - 1);
      assert DigitValue(d[|d| - 1]) == n % 10;
    }
  }

  lemma {:induction false} DecimalOfValue(s: string)
    requires AllDigits(s)
    ensures Value(s) < Pow10(|s|)
    ensures Decimal(Value(s), |s|) == s
    decreases |s|
  {
    if s != [] {
      var init, d := s[..|s| - 1], DigitValue(s[|s| - 1]);
      DecimalOfValue(init);
      var n := Value(s);
      assert n == Value(init) * 10 + d;
      assert n / 10 == Value(init) && n % 10 == d;
      assert DigitChar(d) == s[|s| - 1];
      assert s == init + [s[|s| - 1]];
    }
  }

  // ---- the round trips ----

  /** Formatting an in-range civil time gives a well-formed timestamp that reads back as the same time. */
  lemma ParseFormatRoundTrip(t: CivilTime)
    requires ValidCivil(t)
    ensures WellFormed(ToRtemsTimestamp(t))
    ensures ParseRtemsTimestamp(ToRtemsTimestamp(t)) == At(t)
  {
    assert Pow10(2) == 100;
    assert Pow10(4) == 10000;
    DecimalFits(t.year, 4);
    DecimalFits(t.month, 2);
    DecimalFits(t.day, 2);
    DecimalFits(t.hour, 2);
    DecimalFits(t.minute, 2);
    DecimalFits(t.second, 2);
    var s := ToRtemsTimestamp(t);
    JoinFields(Decimal(t.year, 4), Decimal(t.month, 2), Decimal(t.day, 2),
               Decimal(t.hour, 2), Decimal(t.minute, 2), Decimal(t.second, 2));
    assert Fields(s) == t;
  }

  /** Six digit fields of the pattern's widths, joined, form a well-formed timestamp whose slices are those fields. */
  lemma JoinFields(y: string, mo: string, d: string, h: string, mi: string, se: string)
    requires |y| == 4 && |mo| == 2 && |d| == 2 && |h| == 2 && |mi| == 2 && |se| == 2
    requires AllDigits(y) && AllDigits(mo) && AllDigits(d) && AllDigits(h) && AllDigits(mi) && AllDigits(se)
    ensures var s := y + mo + d + h + mi + se;
      && WellFormed(s)
      && s[0..4] == y && s[4..6] == mo && s[6..8] == d
      && s[8..10] == h && s[10..12] == mi && s[12..14] == se
  {
    var s := y + mo + d + h + mi + se;
    assert forall i :: 0 <= i < |s| ==> s[i] in y || s[i] in mo || s[i] in d || s[i] in h || s[i] in mi || s[i] in se;
  }

  /** A well-formed timestamp holding an in-range calendar time is reproduced by formatting what it parses to. */
  lemma FormatParseRoundTrip(s: string)
    requires WellFormed(s) && ValidCivil(Fields(s))
    ensures ParseRtemsTimestamp(s) == At(Fields(s))
    ensures ToRtemsTimestamp(ParseRtemsTimestamp(s).civil) == s
  {
    var t := Fields(s);
    FieldText(s, 0, 4);
    FieldText(s, 4, 6);
    FieldText(s, 6, 8);
    FieldText(s, 8, 10);
    FieldText(s, 10, 12);
    FieldText(s, 12, 14);
    var y, mo, d := Decimal(t.year, 4), Decimal(t.month, 2), Decimal(t.day, 2);
    var h, mi, se := Decimal(t.hour, 2), Decimal(t.minute, 2), Decimal(t.second, 2);
    assert y == s[0..4] && mo == s[4..6] && d == s[6..8];
    assert h == s[8..10] && mi == s[10..12] && se == s[12..14];
    SplitAt(s);
  }

  lemma FieldText(s: string, i: nat, j: nat)
    requires i <= j <= |s| && AllDigits(s)
    ensures AllDigits(s[i..j]) && Decimal(Value(s[i..j]), j - i) == s[i..j]
  {
    DecimalOfValue(s[i..j]);
  }

  lemma SplitAt(s: string)
    requires |s| == TimestampLength
    ensures s[0..4] + s[4..6] + s[6..8] + s[8..10] + s[10..12] + s[12..14] == s
  {
    assert s[0..4] + s[4..6] == s[0..6];
    assert s[0..6] + s[6..8] == s[0..8];
    assert s[0..8] + s[8..10] == s[0..10];
    assert s[0..10] + s[10..12] == s[0..12];
    assert s[0..12] + s[12..14] == s;
  }
}
