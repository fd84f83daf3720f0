/**
 A post's date, taken as already parsed from the ISO text of its `date`
 front-matter entry, and the three luxon formats the writer uses:
 `yyyy` (year), `LL` (month) and `yyyy-LL-dd` (the date stamp).
 */
module Dates {
  import opened Options
  import Strings
  import Decimal

  datatype Date = Date(year: nat, month: nat, day: nat)

  /** A date as an ISO parse produces it for years 0 through 9999. */
  predicate Calendar(d: Date) {
    d.year <= 9999 && 1 <= d.month <= 12 && 1 <= d.day <= 31
  }

  /** Chronological order of dates. */
  predicate Before(d1: Date, d2: Date) {
    d1.year < d2.year
    || (d1.year == d2.year && d1.month < d2.month)
    || (d1.year == d2.year && d1.month == d2.month && d1.day < d2.day)
  }

  /** The `yyyy` token: the year, at least four digits. */
  function YearText(d: Date): string {
    Decimal.Pad(d.year, 4)
  }

  /** The `LL` token: the month, at least two digits. */
  function MonthText(d: Date): string {
    Decimal.Pad(d.month, 2)
  }

  /** The `dd` token: the day of the month, at least two digits. */
  function DayText(d: Date): string {
    Decimal.Pad(d.day, 2)
  }

  /** Each token reads back as its number, and a calendar date's tokens have
      exactly four, two and two digits. */
  lemma TokensReadBack(d: Date)
    ensures Decimal.AllDigits(YearText(d)) && Decimal.Value(YearText(d)) == d.year
    ensures Decimal.AllDigits(MonthText(d)) && Decimal.Value(MonthText(d)) == d.month
    ensures Decimal.AllDigits(DayText(d)) && Decimal.Value(DayText(d)) == d.day
    ensures Calendar(d) ==> |YearText(d)| == 4 && |MonthText(d)| == 2 && |DayText(d)| == 2
  {
    Decimal.PadFacts(d.year, 4);
    Decimal.PadFacts(d.month, 2);
    Decimal.PadFacts(d.day, 2);
  }

  /** The `yyyy-LL-dd` format used to prefix folder and file names. */
  function Stamp(d: Date): string {
    YearText(d) + "-" + MonthText(d) + "-" + DayText(d)
  }

  /** Reads a ten-character `yyyy-LL-dd` stamp back into a date. */
  function ParseStamp(s: string): Option<Date> {
    if |s| == 10 && s[4] == '-' && s[7] == '-'
       && Decimal.AllDigits(s[..4]) && Decimal.AllDigits(s[5..7]) && Decimal.AllDigits(s[8..])
    then Some(Date(Decimal.Value(s[..4]), Decimal.Value(s[5..7]), Decimal.Value(s[8..])))
    else None
  }

  /** The stamp of a calendar date is ten characters with `-` at positions 4
      and 7, and reads back as that date. */
  lemma StampRoundTrip(d: Date)
    requires Calendar(d)
    ensures |Stamp(d)| == 10 && Stamp(d)[4] == '-' && Stamp(d)[7] == '-'
    ensures ParseStamp(Stamp(d)) == Some(d)
  {
    TokensReadBack(d);
    var s := Stamp(d);
    assert s[..4] == YearText(d);
    assert s[5..7] == MonthText(d);
    assert s[8..] == DayText(d);
  }

  /** Stamps of calendar dates compare as strings exactly as the dates compare
      in time, so date-prefixed names sort chronologically. */
  lemma StampOrder(d1: Date, d2: Date)
    requires Calendar(d1) && Calendar(d2)
    ensures Strings.Less(Stamp(d1), Stamp(d2)) <==> Before(d1, d2)
  {
    var y1, y2 := YearText(d1), YearText(d2);
    var m1, m2 := MonthText(d1), MonthText(d2);
    var t1, t2 := DayText(d1), DayText(d2);
    TokensReadBack(d1);
    TokensReadBack(d2);
    Decimal.PadOrder(d1.year, d2.year, 4);
    Decimal.PadOrder(d1.month, d2.month, 2);
    Decimal.PadOrder(d1.day, d2.day, 2);
    assert Stamp(d1) == y1 + ("-" + m1 + "-" + t1);
    assert Stamp(d2) == y2 + ("-" + m2 + "-" + t2);
    Strings.LessAppend(y1, "-" + m1 + "-" + t1, y2, "-" + m2 + "-" + t2);
    assert "-" + m1 + "-" + t1 == "-" + (m1 + ("-" + t1));
    assert "-" + m2 + "-" + t2 == "-" + (m2 + ("-" + t2));
    Strings.LessAppend("-", m1 + ("-" + t1), "-", m2 + ("-" + t2));
    Strings.LessAppend(m1, "-" + t1, m2, "-" + t2);
    Strings.LessAppend("-", t1, "-", t2);
    assert !Strings.Less("-", "-") by {
      assert "-"[1..] == [];
    }
    if y1 == y2 { Decimal.PadInjective(d1.year, d2.year, 4); }
    if m1 == m2 { Decimal.PadInjective(d1.month, d2.month, 2); }
  }

  /** Beyond year 9999 the stamp has five year digits and the order breaks:
      the stamp of 1 January 10000 sorts before that of 31 December 9999. */
  lemma StampOrderEndsAtYear9999()
    ensures Strings.Less(Stamp(Date(10000, 1, 1)), Stamp(Date(9999, 12, 31)))
    ensures !Before(Date(10000, 1, 1), Date(9999, 12, 31))
  {
  }
}
