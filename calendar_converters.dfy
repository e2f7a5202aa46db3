/**
 * `CalendarConverter` of utils/calendar-converters.ts: a two-hop converter
 * that takes a date of the source calendar to a Gregorian `Date` and that
 * `Date` to the target calendar, failing with `None` (the source's `null`)
 * whenever a hop fails. The class has no fields, so its methods are
 * functions of the library calls `lib` they make.
 */
module CalendarConverters {
  import opened Wrappers
  import opened CalendarTypes
  import opened CalendarLibraries

  /**
   * The `CalendarType` string enumeration. A TypeScript enum is a string at
   * run time; `Unsupported` stands for any string outside the enumeration.
   */
  datatype CalendarType = Gregorian | Persian | Arabic | Hebrew | Chinese | Unsupported(name: string) {
    predicate Supported() {
      !Unsupported?
    }
  }

  /** `CalendarDate`: a `Date` or one of the four calendar records. */
  datatype CalendarDate =
    | GregorianValue(date: Date)
    | PersianValue(persian: PersianDate)
    | ArabicValue(arabic: ArabicDate)
    | HebrewValue(hebrew: HebrewDate)
    | ChineseValue(chinese: ChineseDate)

  /** `d` is a date of calendar `t`. */
  predicate OfCalendar(d: CalendarDate, t: CalendarType) {
    match t
    case Gregorian => d.GregorianValue?
    case Persian => d.PersianValue?
    case Arabic => d.ArabicValue?
    case Hebrew => d.HebrewValue?
    case Chinese => d.ChineseValue?
    case Unsupported(_) => false
  }

  /** `mapNumberToChineseMonth`: 1..13 in enumeration order, anything else silently 一月. */
  function MapNumberToChineseMonth(monthNumber: int): (m: ChineseMonth)
    ensures 1 <= monthNumber <= 13 ==> m == ChineseMonths[monthNumber - 1]
    ensures !(1 <= monthNumber <= 13) ==> m == YiYue
  {
    match monthNumber
    case 1 => YiYue
    case 2 => ErYue
    case 3 => SanYue
    case 4 => SiYue
    case 5 => WuYue
    case 6 => LiuYue
    case 7 => QiYue
    case 8 => BaYue
    case 9 => JiuYue
    case 10 => ShiYue
    case 11 => ShiYiYue
    case 12 => ShiErYue
    case 13 => RunShiErYue
    case _ => YiYue
  }

  /** `mapChineseMonthToNumber`: a month's 1-based position in the enumeration. */
  function MapChineseMonthToNumber(month: ChineseMonth): (n: int)
    ensures 1 <= n <= 13 && ChineseMonths[n - 1] == month
  {
    match month
    case YiYue => 1
    case ErYue => 2
    case SanYue => 3
    case SiYue => 4
    case WuYue => 5
    case LiuYue => 6
    case QiYue => 7
    case BaYue => 8
    case JiuYue => 9
    case ShiYue => 10
    case ShiYiYue => 11
    case ShiErYue => 12
    case RunShiErYue => 13
  }

  // ---- the eight bridges; each catches what its library throws and returns None ----

  /** `persianToGregorian`: jalaali.toGregorian, then `new Date(gy, gm - 1, gd)`. */
  function PersianToGregorian(lib: Libraries, p: PersianDate): (r: Option<Date>)
    ensures r.None? <==> lib.jalaaliToGregorian(p.year, p.month, p.day).Threw?
  {
    match lib.jalaaliToGregorian(p.year, p.month, p.day)
    case Threw => None
    case Returned(g) => Some(lib.newDate(g.year, g.month - 1, g.day))
  }

  /** `gregorianToPersian`: jalaali.toJalaali of the Date's 1-based fields. */
  function GregorianToPersian(lib: Libraries, g: Date): (r: Option<PersianDate>)
    ensures r.None? <==> lib.jalaaliToJalaali(g.fullYear, g.monthIndex + 1, g.monthDay).Threw?
  {
    match lib.jalaaliToJalaali(g.fullYear, g.monthIndex + 1, g.monthDay)
    case Threw => None
    case Returned(j) => Some(PersianDate(j.year, j.month, j.day))
  }

  /** `arabicToGregorian`: `new HijriDate(year, month - 1, day).toGregorian()`. */
  function ArabicToGregorian(lib: Libraries, a: ArabicDate): (r: Option<Date>)
    ensures r.None? <==> lib.hijriToGregorian(a.year, a.month - 1, a.day).Threw?
  {
    match lib.hijriToGregorian(a.year, a.month - 1, a.day)
    case Threw => None
    case Returned(g) => Some(g)
  }

  /** `gregorianToArabic`: `new HijriDate(date)`, with its 0-based month made 1-based. */
  function GregorianToArabic(lib: Libraries, g: Date): (r: Option<ArabicDate>)
    ensures r.None? <==> lib.hijriFromDate(g).Threw?
  {
    match lib.hijriFromDate(g)
    case Threw => None
    case Returned(h) => Some(ArabicDate(h.year, h.month + 1, h.day))
  }

  /** `hebrewToGregorian`: toGregorianDate keyed by the month name; a falsy result is null. */
  function HebrewToGregorian(lib: Libraries, h: HebrewDate): (r: Option<Date>)
    ensures r.Some? <==> lib.jewishToGregorian(h.year, h.month, h.day).Returned?
                         && lib.jewishToGregorian(h.year, h.month, h.day).value.Some?
  {
    match lib.jewishToGregorian(h.year, h.month, h.day)
    case Threw => None
    case Returned(d) => d
  }

  /**
   * `gregorianToHebrew`: toJewishDate, then a check that the month name is a
   * `JewishMonth` value; a falsy result, a foreign name or a throw gives None.
   */
  function GregorianToHebrew(lib: Libraries, g: Date): (r: Option<HebrewDate>)
    ensures r.Some? ==> r.value.month in lib.jewishMonthValues
    ensures r.Some? <==> lib.jewishFromDate(g).Returned? && lib.jewishFromDate(g).value.Some?
                         && lib.jewishFromDate(g).value.value.monthName in lib.jewishMonthValues
  {
    match lib.jewishFromDate(g)
    case Threw => None
    case Returned(None) => None
    case Returned(Some(j)) =>
      if j.monthName in lib.jewishMonthValues then Some(HebrewDate(j.year, j.monthName, j.day)) else None
  }

  /** The numeric date that `chineseToGregorian` hands to date-chinese: month number, leap 1 or 0. */
  function ChineseTupleOf(c: ChineseDate, cycle: int): (t: ChineseTuple)
    ensures t.cycle == cycle && t.year == c.year && t.day == c.day
    ensures 1 <= t.month <= 13 && ChineseMonths[t.month - 1] == c.month
    ensures (t.leap == 1 <==> c.leap) && (t.leap == 0 <==> !c.leap)
  {
    ChineseTuple(cycle, c.year, MapChineseMonthToNumber(c.month), if c.leap then 1 else 0, c.day)
  }

  /** The Chinese date that `gregorianToChinese` reads off date-chinese's `get()`. */
  function ChineseDateOf(t: ChineseTuple): (c: ChineseDate)
    ensures c.cycle == t.cycle && c.year == t.year && c.day == t.day
    ensures c.leap <==> t.leap == 1
    ensures 1 <= t.month <= 13 ==> MapChineseMonthToNumber(c.month) == t.month
  {
    ChineseDate(t.cycle, t.year, MapNumberToChineseMonth(t.month), t.day, t.leap == 1)
  }

  /** `chineseToGregorian`: date-chinese's toGregorian, then `new Date(year, month - 1, day)`. */
  function ChineseToGregorian(lib: Libraries, c: ChineseDate): (r: Option<Date>)
    ensures r.Some? <==> lib.chineseToGregorian(ChineseTupleOf(c, c.cycle)).Returned?
                         && lib.chineseToGregorian(ChineseTupleOf(c, c.cycle)).value.Some?
  {
    match lib.chineseToGregorian(ChineseTupleOf(c, c.cycle))
    case Returned(Some(g)) => Some(lib.newDate(g.year, g.month - 1, g.day))
    case _ => None
  }

  /** `gregorianToChinese`: date-chinese's fromGregorian of the Date's 1-based fields. */
  function GregorianToChinese(lib: Libraries, g: Date): (r: Option<ChineseDate>)
    ensures r.None? <==> lib.chineseFromGregorian(g.fullYear, g.monthIndex + 1, g.monthDay).Threw?
  {
    match lib.chineseFromGregorian(g.fullYear, g.monthIndex + 1, g.monthDay)
    case Threw => None
    case Returned(t) => Some(ChineseDateOf(t))
  }

  // ---- dispatch ----

  /**
   * `convertToGregorian`: a Gregorian source must already be a Date; each
   * other calendar goes through its bridge; an unsupported calendar is null.
   * A record of another calendar than the source's is taken as a failure.
   */
  function ConvertToGregorian(lib: Libraries, source: CalendarType, date: CalendarDate): (r: Option<Date>)
    ensures r.Some? ==> source.Supported() && OfCalendar(date, source)
    ensures source == Gregorian ==> r == if date.GregorianValue? then Some(date.date) else None
  {
    match source
    case Gregorian => if date.GregorianValue? then Some(date.date) else None
    case Persian => if date.PersianValue? then PersianToGregorian(lib, date.persian) else None
    case Arabic => if date.ArabicValue? then ArabicToGregorian(lib, date.arabic) else None
    case Hebrew => if date.HebrewValue? then HebrewToGregorian(lib, date.hebrew) else None
    case Chinese => if date.ChineseValue? then ChineseToGregorian(lib, date.chinese) else None
    case Unsupported(_) => None
  }

  /** `convertFromGregorian`: a Gregorian target is the Date itself; an unsupported one is null. */
  function ConvertFromGregorian(lib: Libraries, target: CalendarType, g: Date): (r: Option<CalendarDate>)
    ensures r.Some? ==> target.Supported() && OfCalendar(r.value, target)
    ensures target == Gregorian ==> r == Some(GregorianValue(g))
  {
    match target
    case Gregorian => Some(GregorianValue(g))
    case Persian =>
      (match GregorianToPersian(lib, g) case None => None case Some(p) => Some(PersianValue(p)))
    case Arabic =>
      (match GregorianToArabic(lib, g) case None => None case Some(a) => Some(ArabicValue(a)))
    case Hebrew =>
      (match GregorianToHebrew(lib, g) case None => None case Some(h) => Some(HebrewValue(h)))
    case Chinese =>
      (match GregorianToChinese(lib, g) case None => None case Some(c) => Some(ChineseValue(c)))
    case Unsupported(_) => None
  }

  /**
   * `convert`: source to Gregorian, then Gregorian to target. The result is
   * a date of the target calendar or None, never a date of another calendar.
   */
  function Convert(lib: Libraries, source: CalendarType, target: CalendarType, date: CalendarDate): (r: Option<CalendarDate>)
    ensures ConvertToGregorian(lib, source, date).None? ==> r.None?
    ensures r.Some? ==> source.Supported() && OfCalendar(date, source)
    ensures r.Some? ==> target.Supported() && OfCalendar(r.value, target)
  {
    match ConvertToGregorian(lib, source, date)
    case None => None
    case Some(g) => ConvertFromGregorian(lib, target, g)
  }

  // ---- properties ----

  /** Every conversion is the Gregorian-source conversion of the first hop's Date. */
  lemma ConvertViaGregorian(lib: Libraries, source: CalendarType, target: CalendarType, date: CalendarDate)
    ensures Convert(lib, source, target, date) ==
              match ConvertToGregorian(lib, source, date)
              case None => None
              case Some(g) => Convert(lib, Gregorian, target, GregorianValue(g))
  {
  }

  /** A Date converted from Gregorian to Gregorian is itself; a non-Date Gregorian source is null. */
  lemma ConvertGregorianIdentity(lib: Libraries, date: CalendarDate)
    ensures date.GregorianValue? ==> Convert(lib, Gregorian, Gregorian, date) == Some(date)
    ensures !date.GregorianValue? ==> forall t :: Convert(lib, Gregorian, t, date) == None
  {
  }

  /** A calendar outside the enumeration fails in either position. */
  lemma ConvertUnsupported(lib: Libraries, source: CalendarType, target: CalendarType, date: CalendarDate)
    requires !source.Supported() || !target.Supported()
    ensures Convert(lib, source, target, date) == None
  {
  }

  /** The two month tables are mutually inverse on 1..13 and on the enumeration. */
  lemma ChineseMonthTablesInverse(n: int, m: ChineseMonth)
    ensures 1 <= n <= 13 ==> MapChineseMonthToNumber(MapNumberToChineseMonth(n)) == n
    ensures MapNumberToChineseMonth(MapChineseMonthToNumber(m)) == m
  {
  }

  /** `mapChineseMonthToNumber` is injective. */
  lemma ChineseMonthToNumberInjective(a: ChineseMonth, b: ChineseMonth)
    ensures MapChineseMonthToNumber(a) == MapChineseMonthToNumber(b) ==> a == b
  {
  }

  /** Outside 1..13 the number-to-month table silently answers 一月, which reads back as 1. */
  lemma ChineseMonthSilentDefault(n: int)
    requires !(1 <= n <= 13)
    ensures MapNumberToChineseMonth(n) == YiYue
    ensures MapChineseMonthToNumber(MapNumberToChineseMonth(n)) == 1 != n
  {
  }

  /** Entry i of `chineseMonthItems` is the month numbered i + 1. */
  lemma ChineseMonthItemsNumbered(i: nat)
    requires i < |ChineseMonthItems|
    ensures MapChineseMonthToNumber(ChineseMonthItems[i].value) == i + 1
  {
    ChineseMonthItemsInEnumOrder();
    ChineseMonthValuesDistinct();
    var n := MapChineseMonthToNumber(ChineseMonthItems[i].value);
    assert ChineseMonths[n - 1] == ChineseMonths[i];
  }

  /** Persian bridges: the 1-based month into toJalaali and the `gm - 1` into Date cancel. */
  lemma PersianBridgeRoundTrip(lib: Libraries, g: Date)
    requires JalaaliRoundTrip(lib) && DatesRebuild(lib) && Rebuildable(g)
    ensures GregorianToPersian(lib, g).Some? ==> PersianToGregorian(lib, GregorianToPersian(lib, g).value) == Some(g)
  {
  }

  /** Arabic bridges: the `getMonth() + 1` out and the `month - 1` in cancel. */
  lemma ArabicBridgeRoundTrip(lib: Libraries, g: Date)
    requires HijriRoundTrip(lib)
    ensures GregorianToArabic(lib, g).Some? ==> ArabicToGregorian(lib, GregorianToArabic(lib, g).value) == Some(g)
  {
  }

  /** Hebrew bridges: a date that passes the month-name check converts back. */
  lemma HebrewBridgeRoundTrip(lib: Libraries, g: Date)
    requires JewishRoundTrip(lib)
    ensures GregorianToHebrew(lib, g).Some? ==> HebrewToGregorian(lib, GregorianToHebrew(lib, g).value) == Some(g)
  {
  }

  /** Chinese bridges: the month tables and the leap coding (true/1, false/0) lose nothing. */
  lemma ChineseBridgeRoundTrip(lib: Libraries, g: Date)
    requires ChineseRoundTrip(lib) && DatesRebuild(lib) && Rebuildable(g)
    ensures GregorianToChinese(lib, g).Some? ==> ChineseToGregorian(lib, GregorianToChinese(lib, g).value) == Some(g)
  {
    var call := lib.chineseFromGregorian(g.fullYear, g.monthIndex + 1, g.monthDay);
    if call.Returned? {
      var t := call.value;
      var c := ChineseDateOf(t);
      assert ChineseTupleOf(c, c.cycle) == t;
    }
  }

  /**
   * Round-trip law of the dispatcher: whatever a Date converts to, it
   * converts back to that Date, provided the libraries keep their round trips.
   */
  lemma ConvertRoundTrip(lib: Libraries, target: CalendarType, g: Date)
    requires DatesRebuild(lib) && JalaaliRoundTrip(lib) && HijriRoundTrip(lib)
    requires JewishRoundTrip(lib) && ChineseRoundTrip(lib)
    requires target == Persian || target == Chinese ==> Rebuildable(g)
    ensures Convert(lib, Gregorian, target, GregorianValue(g)).Some? ==>
              Convert(lib, target, Gregorian, Convert(lib, Gregorian, target, GregorianValue(g)).value)
              == Some(GregorianValue(g))
  {
    match target
    case Gregorian =>
    case Persian => PersianBridgeRoundTrip(lib, g);
    case Arabic => ArabicBridgeRoundTrip(lib, g);
    case Hebrew => HebrewBridgeRoundTrip(lib, g);
    case Chinese => ChineseBridgeRoundTrip(lib, g);
    case Unsupported(_) =>
  }
}
