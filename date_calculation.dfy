/**
 * app/DateCalculation.tsx: the date-difference screen. It checks that all
 * six text fields are filled, builds two `YYYY-MM-DD` strings and stores
 * the difference `calculateDateDifference` reports.
 */
module DateCalculation {
  import opened Wrappers
  import opened JsStrings
  import DD = DateDifference

  /** The `{ year, month, day }` text-field state of one date. */
  datatype DateFields = DateFields(year: string, month: string, day: string)

  /** One of the three fields is the empty (falsy) string. */
  predicate AnyEmpty(d: DateFields) {
    d.year == "" || d.month == "" || d.day == ""
  }

  /** `${year}-${month.padStart(2, '0')}-${day.padStart(2, '0')}`. */
  function FormatDate(d: DateFields): string {
    d.year + "-" + PadStart2(d.month) + "-" + PadStart2(d.day)
  }

  /** `padStart(2, '0')` puts one "0" before a one-character field and leaves a longer field alone. */
  lemma PadFieldCases(s: string)
    ensures |s| == 1 ==> PadStart2(s) == "0" + s
    ensures |s| >= 2 ==> PadStart2(s) == s
  {
  }

  /** The year is copied as typed, never padded, and followed by a dash. */
  lemma YearNotPadded(d: DateFields)
    ensures FormatDate(d)[..|d.year|] == d.year
    ensures FormatDate(d)[|d.year|] == '-'
  {
    assert FormatDate(d) == d.year + ("-" + PadStart2(d.month) + "-" + PadStart2(d.day));
  }

  /**
   * A four-character year with a one- or two-character month and day gives
   * the ten-character ISO layout: dashes at positions 4 and 7, two
   * characters each for the month and the day.
   */
  lemma IsoLayout(d: DateFields)
    requires |d.year| == 4 && 1 <= |d.month| <= 2 && 1 <= |d.day| <= 2
    ensures |FormatDate(d)| == 10
    ensures FormatDate(d)[4] == '-' && FormatDate(d)[7] == '-'
    ensures FormatDate(d)[..4] == d.year
    ensures FormatDate(d)[5..7] == PadStart2(d.month) && FormatDate(d)[8..] == PadStart2(d.day)
  {
    DashedLayout(d.year, PadStart2(d.month), PadStart2(d.day));
  }

  /** Where the pieces of `y-m-d` sit when the year has four characters and the others two. */
  lemma DashedLayout(y: string, m: string, dd: string)
    requires |y| == 4 && |m| == 2 && |dd| == 2
    ensures var f := y + "-" + m + "-" + dd;
      |f| == 10 && f[4] == '-' && f[7] == '-' && f[..4] == y && f[5..7] == m && f[8..] == dd
  {
    var f := y + "-" + m + "-" + dd;
    assert f == y + ("-" + (m + ("-" + dd)));
  }

  /** `s.split('-')`. */
  function Split(s: string): (r: seq<string>)
    ensures |r| >= 1
  {
    if s == [] then [""]
    else
      var rest := Split(s[1..]);
      if s[0] == '-' then [""] + rest else [[s[0]] + rest[0]] + rest[1..]
  }

  lemma {:induction false} SplitWithoutDash(x: string)
    requires '-' !in x
    ensures Split(x) == [x]
  {
    if x != [] {
      SplitWithoutDash(x[1..]);
      assert [x[0]] + x[1..] == x;
    }
  }

  lemma {:induction false} SplitAtFirstDash(x: string, rest: string)
    requires '-' !in x
    ensures Split(x + "-" + rest) == [x] + Split(rest)
  {
    if x == [] {
      assert x + "-" + rest == ['-'] + rest;
      assert (['-'] + rest)[1..] == rest;
    } else {
      var s := x + "-" + rest;
      assert s[0] == x[0];
      assert s[1..] == x[1..] + "-" + rest;
      SplitAtFirstDash(x[1..], rest);
      assert [x[0]] + x[1..] == x;
    }
  }

  lemma PadKeepsDashFree(s: string)
    requires '-' !in s
    ensures '-' !in PadStart2(s)
  {
  }

  /**
   * Splitting a formatted date at its dashes gives back the year and the
   * padded month and day, as long as no field contains a dash itself.
   */
  lemma FormatDateSplits(d: DateFields)
    requires '-' !in d.year && '-' !in d.month && '-' !in d.day
    ensures Split(FormatDate(d)) == [d.year, PadStart2(d.month), PadStart2(d.day)]
  {
    PadKeepsDashFree(d.month);
    PadKeepsDashFree(d.day);
    assert FormatDate(d) == d.year + "-" + (PadStart2(d.month) + "-" + PadStart2(d.day));
    SplitAtFirstDash(d.year, PadStart2(d.month) + "-" + PadStart2(d.day));
    SplitAtFirstDash(PadStart2(d.month), PadStart2(d.day));
    SplitWithoutDash(PadStart2(d.day));
  }

  /**
   * Past the empty-field guard, the formatted date splits into three
   * non-empty parts, and the month and day parts have at least two characters.
   */
  lemma GuardedDateHasThreeParts(d: DateFields)
    requires !AnyEmpty(d) && '-' !in d.year && '-' !in d.month && '-' !in d.day
    ensures var parts := Split(FormatDate(d));
      |parts| == 3 && |parts[0]| >= 1 && |parts[1]| >= 2 && |parts[2]| >= 2
  {
    FormatDateSplits(d);
  }

  /** Digit fields keep their numbers through the formatting: each part parses back. */
  lemma FormatDateParses(year: nat, month: nat, day: nat)
    requires month < 100 && day < 100
    ensures Split(FormatDate(DateFields(DecimalString(year), DecimalString(month), DecimalString(day)))) ==
      [DecimalString(year), PadStart2(DecimalString(month)), PadStart2(DecimalString(day))]
    ensures ParseInt(DecimalString(year)) == Some(year)
    ensures ParseInt(PadStart2(DecimalString(month))) == Some(month)
    ensures ParseInt(PadStart2(DecimalString(day))) == Some(day)
  {
    var d := DateFields(DecimalString(year), DecimalString(month), DecimalString(day));
    DigitsAreDashFree(d.year);
    DigitsAreDashFree(d.month);
    DigitsAreDashFree(d.day);
    FormatDateSplits(d);
    ParseDecimalString(year);
    ParsePaddedDecimal(month);
    ParsePaddedDecimal(day);
  }

  lemma DigitsAreDashFree(s: string)
    requires AllDigits(s)
    ensures '-' !in s
  {
  }

  class Screen {
    var startDate: DateFields
    var endDate: DateFields
    var targetTime: Option<DD.DateDifference>

    /** The initial `useState` values: empty fields, no result. */
    constructor ()
      ensures startDate == DateFields("", "", "") && endDate == DateFields("", "", "")
      ensures targetTime == None
    {
      startDate := DateFields("", "", "");
      endDate := DateFields("", "", "");
      targetTime := None;
    }

    /**
     * `handleSubmit`: an empty field raises the "Please fill all fields."
     * alert and leaves the result alone; otherwise the result is the
     * difference of the two formatted dates.
     */
    method HandleSubmit(luxon: DD.Luxon) returns (alerted: bool)
      modifies this
      ensures startDate == old(startDate) && endDate == old(endDate)
      ensures alerted <==> AnyEmpty(startDate) || AnyEmpty(endDate)
      ensures alerted ==> targetTime == old(targetTime)
      ensures !alerted ==>
        targetTime == Some(DD.CalculateDateDifference(luxon, FormatDate(startDate), FormatDate(endDate)))
    {
      if AnyEmpty(startDate) || AnyEmpty(endDate) {
        return true;
      }
      var formattedStartDate := FormatDate(startDate);
      var formattedEndDate := FormatDate(endDate);
      targetTime := Some(DD.CalculateDateDifference(luxon, formattedStartDate, formattedEndDate));
      alerted := false;
    }
  }
}
