/**
 * utils/persianHebrewFunction.ts: direct Persian <-> Hebrew converters over
 * jalaali-js and jewish-date. Unlike `CalendarConverter`, Persian -> Hebrew
 * does not check that the library's month name is a `JewishMonth` value.
 */
module PersianHebrewFunction {
  import opened Wrappers
  import opened CalendarTypes
  import opened CalendarLibraries
  import CC = CalendarConverters

  /**
   * `convertPersianToHebrew`: jalaali.toGregorian, `new Date(gy, gm - 1, gd)`,
   * toJewishDate; a falsy result or a throw gives null. The month name is cast, not checked.
   */
  function ConvertPersianToHebrew(lib: Libraries, p: PersianDate): (r: Option<HebrewDate>)
    ensures lib.jalaaliToGregorian(p.year, p.month, p.day).Threw? ==> r.None?
    ensures r.Some? ==>
              var g := lib.jalaaliToGregorian(p.year, p.month, p.day).value;
              lib.jewishFromDate(lib.newDate(g.year, g.month - 1, g.day))
              == Returned(Some(JewishDate(r.value.year, r.value.month, r.value.day)))
  {
    match lib.jalaaliToGregorian(p.year, p.month, p.day)
    case Threw => None
    case Returned(g) =>
      match lib.jewishFromDate(lib.newDate(g.year, g.month - 1, g.day))
      case Threw => None
      case Returned(None) => None
      case Returned(Some(j)) => Some(HebrewDate(j.year, j.monthName, j.day))
  }

  /**
   * `convertHebrewToPersian`: toGregorianDate (a falsy result throws), then
   * jalaali.toJalaali of the Date's 1-based fields; any throw gives null.
   */
  function ConvertHebrewToPersian(lib: Libraries, h: HebrewDate): (r: Option<PersianDate>)
    ensures r.Some? <==>
              && lib.jewishToGregorian(h.year, h.month, h.day).Returned?
              && lib.jewishToGregorian(h.year, h.month, h.day).value.Some?
              && var g := lib.jewishToGregorian(h.year, h.month, h.day).value.value;
                 lib.jalaaliToJalaali(g.fullYear, g.monthIndex + 1, g.monthDay).Returned?
    ensures r.Some? ==>
              var g := lib.jewishToGregorian(h.year, h.month, h.day).value.value;
              var j := lib.jalaaliToJalaali(g.fullYear, g.monthIndex + 1, g.monthDay).value;
              r.value == PersianDate(j.year, j.month, j.day)
  {
    match lib.jewishToGregorian(h.year, h.month, h.day)
    case Threw => None
    case Returned(None) => None
    case Returned(Some(g)) =>
      match lib.jalaaliToJalaali(g.fullYear, g.monthIndex + 1, g.monthDay)
      case Threw => None
      case Returned(j) => Some(PersianDate(j.year, j.month, j.day))
  }

  /**
   * Persian -> Hebrew agrees with `convert(Persian, Hebrew, ·)` except where
   * the library's month name is not a `JewishMonth` value: the dispatcher
   * fails there, the direct converter passes the name through.
   */
  lemma PersianToHebrewVersusDispatcher(lib: Libraries, p: PersianDate)
    ensures CC.Convert(lib, CC.Persian, CC.Hebrew, CC.PersianValue(p)) ==
              match ConvertPersianToHebrew(lib, p)
              case None => None
              case Some(h) => if h.month in lib.jewishMonthValues then Some(CC.HebrewValue(h)) else None
  {
  }

  /** Both agree whenever the month name is a `JewishMonth` value. */
  lemma PersianToHebrewMatchesOnKnownMonths(lib: Libraries, p: PersianDate)
    requires ConvertPersianToHebrew(lib, p).Some? ==> ConvertPersianToHebrew(lib, p).value.month in lib.jewishMonthValues
    ensures CC.Convert(lib, CC.Persian, CC.Hebrew, CC.PersianValue(p)) ==
              match ConvertPersianToHebrew(lib, p)
              case None => None
              case Some(h) => Some(CC.HebrewValue(h))
  {
    PersianToHebrewVersusDispatcher(lib, p);
  }

  /** Libraries whose jewish-date reports a month name outside its own enumeration. */
  function ForeignMonthName(): Libraries {
    Libraries(
      (y, m, d) => Date(y, m, d),
      (y, m, d) => Returned(Ymd(y, m, d)),
      (y, m, d) => Returned(Ymd(y, m, d)),
      (y, m, d) => Returned(Date(y, m, d)),
      (g: Date) => Returned(Ymd(g.fullYear, g.monthIndex, g.monthDay)),
      (y, n, d) => Returned(Some(Date(y, 0, d))),
      (g: Date) => Returned(Some(JewishDate(g.fullYear, "Adar", g.monthDay))),
      {"AdarI", "AdarII"},
      (t: ChineseTuple) => Returned(Some(Ymd(t.year, t.month, t.day))),
      (y, m, d) => Returned(ChineseTuple(78, y, m, 0, d)))
  }

  /** The missing check is visible: a month name the dispatcher rejects comes back from the direct converter. */
  lemma PersianToHebrewSkipsMonthCheck()
    ensures exists lib: Libraries, p: PersianDate ::
              && ConvertPersianToHebrew(lib, p).Some?
              && ConvertPersianToHebrew(lib, p).value.month !in lib.jewishMonthValues
              && CC.Convert(lib, CC.Persian, CC.Hebrew, CC.PersianValue(p)).None?
  {
    var lib := ForeignMonthName();
    var p := PersianDate(1403, 12, 1);
    assert ConvertPersianToHebrew(lib, p) == Some(HebrewDate(1403, "Adar", 1));
    PersianToHebrewVersusDispatcher(lib, p);
  }

  /** Hebrew -> Persian gives exactly what `convert(Hebrew, Persian, ·)` gives. */
  lemma HebrewToPersianMatchesDispatcher(lib: Libraries, h: HebrewDate)
    ensures CC.Convert(lib, CC.Hebrew, CC.Persian, CC.HebrewValue(h)) ==
              match ConvertHebrewToPersian(lib, h)
              case None => None
              case Some(p) => Some(CC.PersianValue(p))
  {
  }
}
