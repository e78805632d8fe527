/**
 * Instants of the page-view iterator as milliseconds since the Unix epoch,
 * with the calendar fields Joda's DateTime reports for them.  The JVM's
 * default time zone is taken to be UTC and the chronology proleptic
 * Gregorian (Joda's ISO chronology for the years the dumps cover).
 */
module DumpCalendar {

  const MillisPerHour: int := 3_600_000
  const MillisPerDay: int := 86_400_000

  /** new DateTime(2007, 12, 9, 18, 0): the first hour with page-view dumps. */
  const FirstDumpMillis: int := 1_197_223_200_000

  /** The fields of a DateTime the dump file names are built from. */
  datatype CivilTime = CivilTime(year: int, month: int, day: int, hour: int)

  /** Fields in the ranges a calendar gives them (a day of at most 31). */
  predicate ValidCivil(c: CivilTime)
  {
    1 <= c.month <= 12 && 1 <= c.day <= 31 && 0 <= c.hour <= 23
  }

  /**
   * The Gregorian date of a day number (days since 1970-01-01).  Days are
   * counted from 0000-03-01, so that a leap day ends its year, and split into
   * 400-year eras of 146097 days, centuries of 36524 days (the last one day
   * longer), four-year spans of 1461 days (the last of a century one day
   * shorter) and years of 365 days (the last of a span one day longer).
   */
  function CivilFromDays(z: int): (r: (int, int, int))
    ensures 1 <= r.1 <= 12 && 1 <= r.2 <= 31
  {
    var z' := z + 719468;
    var era := z' / 146097;
    var doe := z' % 146097;
    var c := if doe / 36524 == 4 then 3 else doe / 36524;
    var doc := doe - 36524 * c;
    var b := doc / 1461;
    var dob := doc - 1461 * b;
    var a := if dob / 365 == 4 then 3 else dob / 365;
    var doy := dob - 365 * a;
    assert 0 <= doy <= 365;
    var yoe := 100 * c + 4 * b + a;
    var mp := (5 * doy + 2) / 153;
    var d := doy - (153 * mp + 2) / 5 + 1;
    var m := if mp < 10 then mp + 3 else mp - 9;
    var y := era * 400 + yoe;
    (if m <= 2 then y + 1 else y, m, d)
  }

  /** DateTime's year, month, day and hour fields of an instant. */
  function CivilOf(millis: int): (c: CivilTime)
    ensures ValidCivil(c)
  {
    var date := CivilFromDays(millis / MillisPerDay);
    CivilTime(date.0, date.1, date.2, millis % MillisPerDay / MillisPerHour)
  }

  /** The constant is the instant of 2007-12-09 18:00. */
  lemma FirstDumpIsDecemberNinth2007()
    ensures CivilOf(FirstDumpMillis) == CivilTime(2007, 12, 9, 18)
  {
  }
}
