/**
 * utils/HebrewChineseFunction.ts: direct Hebrew <-> Chinese converters that
 * compose the jewish-date and date-chinese calls by hand instead of going
 * through `CalendarConverter`. Chinese -> Hebrew always asks date-chinese
 * about cycle 78, whatever cycle the date carries.
 */
module HebrewChineseFunction {
  import opened Wrappers
  import opened CalendarTypes
  import opened CalendarLibraries
  import CC = CalendarConverters

  /** The cycle the Chinese -> Hebrew converter always uses. */
  const ChineseCycle: int := 78

  /** The file's own copy of the number-to-month table: 1..13, anything else 一月. */
  function MapNumberToChineseMonth(monthNumber: int): (m: ChineseMonth)
    ensures 1 <= monthNumber <= 13 ==> m == ChineseMonths[monthNumber - 1]
    ensures !(1 <= monthNumber <= 13) ==> m == YiYue
  {
    match monthNumber
    case 1 => YiYue
    case 2 => ErYue
    case 3 => SanYue
    case 4 => SiYue
    case 5 => WuYue
    case 6 => LiuYue
    case 7 => QiYue
    case 8 => BaYue
    case 9 => JiuYue
    case 10 => ShiYue
    case 11 => ShiYiYue
    case 12 => ShiErYue
    case 13 => RunShiErYue
    case _ => YiYue
  }

  /** The file's own copy of the month-to-number table. */
  function MapChineseMonthToNumber(month: ChineseMonth): (n: int)
    ensures 1 <= n <= 13 && ChineseMonths[n - 1] == month
  {
    match month
    case YiYue => 1
    case ErYue => 2
    case SanYue => 3
    case SiYue => 4
    case WuYue => 5
    case LiuYue => 6
    case QiYue => 7
    case BaYue => 8
    case JiuYue => 9
    case ShiYue => 10
    case ShiYiYue => 11
    case ShiErYue => 12
    case RunShiErYue => 13
  }

  /**
   * `convertHebrewToChinese`: toGregorianDate (a falsy result gives null),
   * then date-chinese's fromGregorian of the Date's 1-based fields.
   */
  function ConvertHebrewToChinese(lib: Libraries, h: HebrewDate): (r: Option<ChineseDate>)
    ensures r.Some? ==> lib.jewishToGregorian(h.year, h.month, h.day).Returned?
                        && lib.jewishToGregorian(h.year, h.month, h.day).value.Some?
  {
    match lib.jewishToGregorian(h.year, h.month, h.day)
    case Threw => None
    case Returned(None) => None
    case Returned(Some(g)) =>
      match lib.chineseFromGregorian(g.fullYear, g.monthIndex + 1, g.monthDay)
      case Threw => None
      case Returned(t) => Some(ChineseDate(t.cycle, t.year, MapNumberToChineseMonth(t.month), t.day, t.leap == 1))
  }

  /** The numeric date that `convertChineseToHebrew` hands to date-chinese: cycle 78, leap 1 or 0. */
  function TupleAt78(c: ChineseDate): (t: ChineseTuple)
    ensures t.cycle == ChineseCycle && t.year == c.year && t.day == c.day
    ensures MapNumberToChineseMonth(t.month) == c.month && (t.leap == 1 <==> c.leap) && (t.leap == 0 <==> !c.leap)
  {
    ChineseTuple(ChineseCycle, c.year, MapChineseMonthToNumber(c.month), if c.leap then 1 else 0, c.day)
  }

  /**
   * `convertChineseToHebrew`: date-chinese's toGregorian at cycle 78 (a falsy
   * result gives null), `new Date(year, month - 1, day)`, toJewishDate (a
   * falsy result gives null) and the month-name check.
   */
  function ConvertChineseToHebrew(lib: Libraries, c: ChineseDate): (r: Option<HebrewDate>)
    ensures r.Some? ==> r.value.month in lib.jewishMonthValues
    ensures r.Some? ==> lib.chineseToGregorian(TupleAt78(c)).Returned? && lib.chineseToGregorian(TupleAt78(c)).value.Some?
  {
    match lib.chineseToGregorian(TupleAt78(c))
    case Threw => None
    case Returned(None) => None
    case Returned(Some(g)) =>
      match lib.jewishFromDate(lib.newDate(g.year, g.month - 1, g.day))
      case Threw => None
      case Returned(None) => None
      case Returned(Some(j)) =>
        if j.monthName in lib.jewishMonthValues then Some(HebrewDate(j.year, j.monthName, j.day)) else None
  }

  /** The file's month tables are the same as `CalendarConverter`'s. */
  lemma LocalMonthTablesAgree(n: int, m: ChineseMonth)
    ensures MapNumberToChineseMonth(n) == CC.MapNumberToChineseMonth(n)
    ensures MapChineseMonthToNumber(m) == CC.MapChineseMonthToNumber(m)
  {
  }

  /** Hebrew -> Chinese gives exactly what `convert(Hebrew, Chinese, ·)` gives. */
  lemma HebrewToChineseMatchesDispatcher(lib: Libraries, h: HebrewDate)
    ensures CC.Convert(lib, CC.Hebrew, CC.Chinese, CC.HebrewValue(h)) ==
              match ConvertHebrewToChinese(lib, h)
              case None => None
              case Some(c) => Some(CC.ChineseValue(c))
  {
  }

  /** Chinese -> Hebrew ignores the date's cycle. */
  lemma ChineseToHebrewIgnoresCycle(lib: Libraries, c: ChineseDate, cycle: int)
    ensures ConvertChineseToHebrew(lib, c.(cycle := cycle)) == ConvertChineseToHebrew(lib, c)
  {
  }

  /** On cycle 78 Chinese -> Hebrew gives exactly what `convert(Chinese, Hebrew, ·)` gives. */
  lemma ChineseToHebrewMatchesDispatcherAt78(lib: Libraries, c: ChineseDate)
    requires c.cycle == ChineseCycle
    ensures CC.Convert(lib, CC.Chinese, CC.Hebrew, CC.ChineseValue(c)) ==
              match ConvertChineseToHebrew(lib, c)
              case None => None
              case Some(h) => Some(CC.HebrewValue(h))
  {
  }

  /** Libraries whose date-chinese knows only cycle 78 and whose jewish-date accepts everything. */
  function OnlyCycle78(): Libraries {
    Libraries(
      (y, m, d) => Date(y, m, d),
      (y, m, d) => Returned(Ymd(y, m, d)),
      (y, m, d) => Returned(Ymd(y, m, d)),
      (y, m, d) => Returned(Date(y, m, d)),
      (g: Date) => Returned(Ymd(g.fullYear, g.monthIndex, g.monthDay)),
      (y, n, d) => Returned(Some(Date(y, 0, d))),
      (g: Date) => Returned(Some(JewishDate(g.fullYear, "Nisan", g.monthDay))),
      {"Nisan"},
      (t: ChineseTuple) => if t.cycle == 78 then Returned(Some(Ymd(t.year, 1, t.day))) else Returned(None),
      (y, m, d) => Returned(ChineseTuple(78, y, m, 0, d)))
  }

  /** Off cycle 78 the direct converter and the dispatcher can disagree. */
  lemma ChineseToHebrewDeviatesOffCycle78()
    ensures exists lib: Libraries, c: ChineseDate ::
              ConvertChineseToHebrew(lib, c).Some? && CC.Convert(lib, CC.Chinese, CC.Hebrew, CC.ChineseValue(c)).None?
  {
    var lib := OnlyCycle78();
    var c := ChineseDate(77, 1, YiYue, 1, false);
    assert ConvertChineseToHebrew(lib, c).Some?;
    assert CC.Convert(lib, CC.Chinese, CC.Hebrew, CC.ChineseValue(c)).None?;
  }
}
