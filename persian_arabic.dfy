/**
 * utils/persianArabicFunction.ts: direct Persian <-> Arabic converters over
 * jalaali-js and hijri-date. They have no try/catch and no null path: they
 * return a record, or the library's exception propagates to the caller.
 */
module PersianArabicFunction {
  import opened Wrappers
  import opened CalendarTypes
  import opened CalendarLibraries
  import CC = CalendarConverters

  /**
   * `convertPersianToArabic`: jalaali.toGregorian, `new Date(gy, gm - 1, gd)`,
   * `new HijriDate(date)` with its 0-based month made 1-based.
   */
  function ConvertPersianToArabic(lib: Libraries, p: PersianDate): (r: Call<ArabicDate>)
    ensures r.Threw? <==>
              lib.jalaaliToGregorian(p.year, p.month, p.day).Threw?
              || var g := lib.jalaaliToGregorian(p.year, p.month, p.day).value;
                 lib.hijriFromDate(lib.newDate(g.year, g.month - 1, g.day)).Threw?
  {
    match lib.jalaaliToGregorian(p.year, p.month, p.day)
    case Threw => Threw
    case Returned(g) =>
      match lib.hijriFromDate(lib.newDate(g.year, g.month - 1, g.day))
      case Threw => Threw
      case Returned(h) => Returned(ArabicDate(h.year, h.month + 1, h.day))
  }

  /**
   * `convertArabicToPersian`: `new HijriDate(year, month - 1, day).toGregorian()`,
   * then jalaali.toJalaali of the Date's 1-based fields.
   */
  function ConvertArabicToPersian(lib: Libraries, a: ArabicDate): (r: Call<PersianDate>)
    ensures r.Threw? <==>
              lib.hijriToGregorian(a.year, a.month - 1, a.day).Threw?
              || var g := lib.hijriToGregorian(a.year, a.month - 1, a.day).value;
                 lib.jalaaliToJalaali(g.fullYear, g.monthIndex + 1, g.monthDay).Threw?
  {
    match lib.hijriToGregorian(a.year, a.month - 1, a.day)
    case Threw => Threw
    case Returned(g) =>
      match lib.jalaaliToJalaali(g.fullYear, g.monthIndex + 1, g.monthDay)
      case Threw => Threw
      case Returned(j) => Returned(PersianDate(j.year, j.month, j.day))
  }

  /**
   * Persian -> Arabic agrees with `convert(Persian, Arabic, ·)` when the
   * libraries return; where the dispatcher answers null, the direct
   * converter throws.
   */
  lemma PersianToArabicMatchesDispatcher(lib: Libraries, p: PersianDate)
    ensures CC.Convert(lib, CC.Persian, CC.Arabic, CC.PersianValue(p)) ==
              match ConvertPersianToArabic(lib, p)
              case Threw => None
              case Returned(a) => Some(CC.ArabicValue(a))
  {
  }

  /** Arabic -> Persian agrees with `convert(Arabic, Persian, ·)` in the same way. */
  lemma ArabicToPersianMatchesDispatcher(lib: Libraries, a: ArabicDate)
    ensures CC.Convert(lib, CC.Arabic, CC.Persian, CC.ArabicValue(a)) ==
              match ConvertArabicToPersian(lib, a)
              case Threw => None
              case Returned(p) => Some(CC.PersianValue(p))
  {
  }

  /**
   * The month offsets cancel: with libraries that keep their own round
   * trips, Persian -> Arabic -> Persian gives back the Persian date.
   */
  lemma PersianArabicRoundTrip(lib: Libraries, p: PersianDate)
    requires HijriRoundTrip(lib)
    requires ConvertPersianToArabic(lib, p).Returned?
    requires var g := lib.jalaaliToGregorian(p.year, p.month, p.day).value;
             lib.jalaaliToJalaali(g.year, g.month, g.day) == Returned(Ymd(p.year, p.month, p.day))
    requires var g := lib.jalaaliToGregorian(p.year, p.month, p.day).value;
             var d := lib.newDate(g.year, g.month - 1, g.day);
             d.fullYear == g.year && d.monthIndex == g.month - 1 && d.monthDay == g.day
    ensures ConvertArabicToPersian(lib, ConvertPersianToArabic(lib, p).value) == Returned(p)
  {
  }
}
