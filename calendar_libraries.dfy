/**
 * The third-party calendar code that the conversion glue calls:
 * jalaali-js, hijri-date, jewish-date, date-chinese and the JavaScript
 * `Date` constructor. Their algorithms are not part of this model; each
 * call is a field of `Libraries`, a total function that returns a value,
 * returns nothing (`None`, a falsy result) or throws (`Threw`).
 */
module CalendarLibraries {
  import opened Wrappers

  /** A JavaScript `Date` as the glue reads it: getFullYear(), getMonth() (0-based) and getDate(). */
  datatype Date = Date(fullYear: int, monthIndex: int, monthDay: int)

  /**
   * A year/month/day triple as a library returns it: jalaali-js's {gy, gm, gd}
   * and {jy, jm, jd} and date-chinese's toGregorian() count months from 1;
   * hijri-date's getMonth() counts them from 0.
   */
  datatype Ymd = Ymd(year: int, month: int, day: int)

  /** jewish-date's {year, monthName, day}. */
  datatype JewishDate = JewishDate(year: int, monthName: string, day: int)

  /** date-chinese's numeric date [cycle, year, month, leap, day]; `month` is 1..13. */
  datatype ChineseTuple = ChineseTuple(cycle: int, year: int, month: int, leap: int, day: int)

  datatype Libraries = Libraries(
    /** `new Date(year, monthIndex, day)`, local time; its normalisation is JavaScript's. */
    newDate: (int, int, int) -> Date,
    /** `jalaali.toGregorian(jy, jm, jd)`. */
    jalaaliToGregorian: (int, int, int) -> Call<Ymd>,
    /** `jalaali.toJalaali(gy, gm, gd)`. */
    jalaaliToJalaali: (int, int, int) -> Call<Ymd>,
    /** `new HijriDate(year, monthIndex, day).toGregorian()`. */
    hijriToGregorian: (int, int, int) -> Call<Date>,
    /** `new HijriDate(date)` read through getFullYear(), getMonth() (0-based), getDate(). */
    hijriFromDate: Date -> Call<Ymd>,
    /** `toGregorianDate({year, monthName, day})`. */
    jewishToGregorian: (int, string, int) -> Call<Option<Date>>,
    /** `toJewishDate(date)`. */
    jewishFromDate: Date -> Call<Option<JewishDate>>,
    /** `Object.values(JewishMonth)`. */
    jewishMonthValues: set<string>,
    /** `new CalendarChinese(cycle, year, month, leap, day).toGregorian()`. */
    chineseToGregorian: ChineseTuple -> Call<Option<Ymd>>,
    /** `cal.fromGregorian(year, month, day)` followed by `cal.get()`, months from 1. */
    chineseFromGregorian: (int, int, int) -> Call<ChineseTuple>
  )

  // The predicates below are ASSUMPTIONS about the libraries, never proved:
  // lemmas take them as hypotheses to show that the glue keeps a round trip
  // that the library itself keeps.

  predicate IsLeapYear(y: int) {
    y % 4 == 0 && (y % 100 != 0 || y % 400 == 0)
  }

  /** The length of a proleptic Gregorian month, `monthIndex` counted from 0. */
  function DaysInMonth(y: int, monthIndex: int): int
    requires 0 <= monthIndex < 12
  {
    if monthIndex == 1 then (if IsLeapYear(y) then 29 else 28)
    else if monthIndex in {3, 5, 8, 10} then 30
    else 31
  }

  /**
   * A Date that `new Date(y, m0, d)` can rebuild from its own getters: its
   * month and day are in range, so JavaScript does not roll them over, and
   * its year is outside 0..99, which the multi-argument constructor reads
   * as 1900..1999.
   */
  predicate Rebuildable(d: Date) {
    && !(0 <= d.fullYear <= 99)
    && 0 <= d.monthIndex < 12
    && 1 <= d.monthDay <= DaysInMonth(d.fullYear, d.monthIndex)
  }

  /** Rebuilding a Rebuildable Date from its own getters gives the same Date. */
  ghost predicate DatesRebuild(lib: Libraries) {
    forall d: Date :: Rebuildable(d) ==> lib.newDate(d.fullYear, d.monthIndex, d.monthDay) == d
  }

  /** toJalaali followed by toGregorian gives back the Gregorian triple. */
  ghost predicate JalaaliRoundTrip(lib: Libraries) {
    forall y, m, d ::
      lib.jalaaliToJalaali(y, m, d).Returned? ==>
        var j := lib.jalaaliToJalaali(y, m, d).value;
        lib.jalaaliToGregorian(j.year, j.month, j.day) == Returned(Ymd(y, m, d))
  }

  /** A HijriDate built from a Date, rebuilt from its own getters, converts back to that Date. */
  ghost predicate HijriRoundTrip(lib: Libraries) {
    forall g: Date ::
      lib.hijriFromDate(g).Returned? ==>
        var h := lib.hijriFromDate(g).value;
        lib.hijriToGregorian(h.year, h.month, h.day) == Returned(g)
  }

  /** toJewishDate followed by toGregorianDate gives back the Date. */
  ghost predicate JewishRoundTrip(lib: Libraries) {
    forall g: Date ::
      lib.jewishFromDate(g).Returned? && lib.jewishFromDate(g).value.Some? ==>
        var j := lib.jewishFromDate(g).value.value;
        lib.jewishToGregorian(j.year, j.monthName, j.day) == Returned(Some(g))
  }

  /**
   * fromGregorian reports a month in 1..13 and a leap number 0 or 1, and
   * toGregorian of what it reports gives back the Gregorian triple.
   */
  ghost predicate ChineseRoundTrip(lib: Libraries) {
    forall y, m, d ::
      lib.chineseFromGregorian(y, m, d).Returned? ==>
        var t := lib.chineseFromGregorian(y, m, d).value;
        && 1 <= t.month <= 13
        && (t.leap == 0 || t.leap == 1)
        && lib.chineseToGregorian(t) == Returned(Some(Ymd(y, m, d)))
  }
}
