/**
 * The calendar records, the Chinese month enumeration and the month picker
 * tables of utils/calender-types.ts.
 */
module CalendarTypes {
  import opened Wrappers
  import opened JsStrings

  /** The `ChineseMonth` string enumeration, in declaration order. */
  datatype ChineseMonth =
    | YiYue | ErYue | SanYue | SiYue | WuYue | LiuYue | QiYue
    | BaYue | JiuYue | ShiYue | ShiYiYue | ShiErYue
    | RunShiErYue  // the leap twelfth month
  {
    /** The string the enumeration member stands for at run time. */
    function Value(): string {
      match this
      case YiYue => "一月"
      case ErYue => "二月"
      case SanYue => "三月"
      case SiYue => "四月"
      case WuYue => "五月"
      case LiuYue => "六月"
      case QiYue => "七月"
      case BaYue => "八月"
      case JiuYue => "九月"
      case ShiYue => "十月"
      case ShiYiYue => "十一月"
      case ShiErYue => "十二月"
      case RunShiErYue => "闰十二月"
    }
  }

  /** The members of `ChineseMonth` in declaration order. */
  const ChineseMonths: seq<ChineseMonth> :=
    [YiYue, ErYue, SanYue, SiYue, WuYue, LiuYue, QiYue, BaYue, JiuYue, ShiYue, ShiYiYue, ShiErYue, RunShiErYue]

  /**
   * The members of jewish-date's `JewishMonth` enumeration that the repository
   * names. Each member's run-time string is taken to be its own name.
   */
  datatype JewishMonth =
    | Nisan | Iyyar | Sivan | Tammuz | Av | Elul | Tishri
    | Cheshvan | Kislev | Tevet | Shevat | AdarI | AdarII
  {
    function Value(): string {
      match this
      case Nisan => "Nisan"
      case Iyyar => "Iyyar"
      case Sivan => "Sivan"
      case Tammuz => "Tammuz"
      case Av => "Av"
      case Elul => "Elul"
      case Tishri => "Tishri"
      case Cheshvan => "Cheshvan"
      case Kislev => "Kislev"
      case Tevet => "Tevet"
      case Shevat => "Shevat"
      case AdarI => "AdarI"
      case AdarII => "AdarII"
    }
  }

  /**
   * A Hebrew date. `month` is the run-time string: TypeScript types it as a
   * `JewishMonth` value, but a cast can put any library month name there.
   */
  datatype HebrewDate = HebrewDate(year: int, month: string, day: int)

  /** A Chinese lunar date: sexagenary cycle, year in the cycle, month, day and leap-month flag. */
  datatype ChineseDate = ChineseDate(cycle: int, year: int, month: ChineseMonth, day: int, leap: bool)

  /** A Persian (Jalaali) date, month 1-12. */
  datatype PersianDate = PersianDate(year: int, month: int, day: int)

  /** An Arabic (Hijri) date, month 1-12. */
  datatype ArabicDate = ArabicDate(year: int, month: int, day: int)

  /** An entry of a month picker (`{label, value}`). */
  datatype Item<V> = Item(labelText: string, value: V)

  /** The values of a picker's entries, in order. */
  function Values<V>(items: seq<Item<V>>): (r: seq<V>)
    ensures |r| == |items| && forall i :: 0 <= i < |items| ==> r[i] == items[i].value
  {
    seq(|items|, i requires 0 <= i < |items| => items[i].value)
  }

  const GregorianMonthItems: seq<Item<string>> := [
    Item("January", "01"), Item("February", "02"), Item("March", "03"), Item("April", "04"),
    Item("May", "05"), Item("June", "06"), Item("July", "07"), Item("August", "08"),
    Item("September", "09"), Item("October", "10"), Item("November", "11"), Item("December", "12")
  ]

  const HebrewMonthItems: seq<Item<JewishMonth>> := [
    Item("Nisan", Nisan), Item("Iyar", Iyyar), Item("Sivan", Sivan), Item("Tammuz", Tammuz),
    Item("Av", Av), Item("Elul", Elul), Item("Tishrei", Tishri), Item("Cheshvan", Cheshvan),
    Item("Kislev", Kislev), Item("Tevet", Tevet), Item("Shevat", Shevat),
    Item("Adar I", AdarI), Item("Adar II", AdarII)
  ]

  const PersianMonthItems: seq<Item<string>> := [
    Item("Farvardin", "01"), Item("Ordibehesht", "02"), Item("Khordad", "03"), Item("Tir", "04"),
    Item("Mordad", "05"), Item("Shahrivar", "06"), Item("Mehr", "07"), Item("Aban", "08"),
    Item("Azar", "09"), Item("Dey", "10"), Item("Bahman", "11"), Item("Esfand", "12")
  ]

  const ArabicMonthItems: seq<Item<string>> := [
    Item("محرم", "01"), Item("صفر", "02"), Item("ربيع الأول", "03"), Item("ربيع الثاني", "04"),
    Item("جمادى الأولى", "05"), Item("جمادى الآخرة", "06"), Item("رجب", "07"), Item("شعبان", "08"),
    Item("رمضان", "09"), Item("شوال", "10"), Item("ذو القعدة", "11"), Item("ذو الحجة", "12")
  ]

  const ChineseMonthItems: seq<Item<ChineseMonth>> := [
    Item("一月", YiYue), Item("二月", ErYue), Item("三月", SanYue), Item("四月", SiYue),
    Item("五月", WuYue), Item("六月", LiuYue), Item("七月", QiYue), Item("八月", BaYue),
    Item("九月", JiuYue), Item("十月", ShiYue), Item("十一月", ShiYiYue), Item("十二月", ShiErYue),
    Item("闰十二月", RunShiErYue)
  ]

  /** `ChineseMonth` has thirteen members with pairwise distinct strings. */
  lemma ChineseMonthValuesDistinct()
    ensures |ChineseMonths| == 13
    ensures forall m: ChineseMonth :: m in ChineseMonths
    ensures forall i, j :: 0 <= i < j < 13 ==> ChineseMonths[i].Value() != ChineseMonths[j].Value()
  {
    forall m: ChineseMonth ensures m in ChineseMonths {
      match m {
        case YiYue => case ErYue => case SanYue => case SiYue => case WuYue => case LiuYue =>
        case QiYue => case BaYue => case JiuYue => case ShiYue => case ShiYiYue => case ShiErYue =>
        case RunShiErYue =>
      }
    }
  }

  /** `chineseMonthItems` lists every member once, in declaration order, labelled with its own string. */
  lemma ChineseMonthItemsInEnumOrder()
    ensures |ChineseMonthItems| == |ChineseMonths|
    ensures forall i :: 0 <= i < |ChineseMonthItems| ==>
              ChineseMonthItems[i].value == ChineseMonths[i] && ChineseMonthItems[i].labelText == ChineseMonths[i].Value()
  {
  }

  /** `hebrewMonthItems`: thirteen entries, one per member, Nisan first. */
  lemma HebrewMonthItemsDistinct()
    ensures |HebrewMonthItems| == 13 && HebrewMonthItems[0].value == Nisan
    ensures forall i, j :: 0 <= i < j < 13 ==> HebrewMonthItems[i].value.Value() != HebrewMonthItems[j].value.Value()
    ensures forall m: JewishMonth :: m in Values(HebrewMonthItems)
  {
    var vs := Values(HebrewMonthItems);
    assert vs == [Nisan, Iyyar, Sivan, Tammuz, Av, Elul, Tishri, Cheshvan, Kislev, Tevet, Shevat, AdarI, AdarII];
    forall m: JewishMonth ensures m in vs {
      match m {
        case Nisan => case Iyyar => case Sivan => case Tammuz => case Av => case Elul => case Tishri =>
        case Cheshvan => case Kislev => case Tevet => case Shevat => case AdarI => case AdarII =>
      }
    }
  }

  /** "01" to "12": `String(n).padStart(2, '0')` for n = 1..12. */
  const TwoDigitMonths: seq<string> :=
    ["01", "02", "03", "04", "05", "06", "07", "08", "09", "10", "11", "12"]

  lemma TwoDigitMonthsArePadded()
    ensures |TwoDigitMonths| == 12
    ensures forall i :: 0 <= i < 12 ==> TwoDigitMonths[i] == PadStart2(DecimalString(i + 1))
  {
    forall i | 0 <= i < 12 ensures TwoDigitMonths[i] == PadStart2(DecimalString(i + 1)) {
      TwoDigitMonthPadded(i);
    }
  }

  lemma TwoDigitMonthPadded(i: nat)
    requires i < 12
    ensures TwoDigitMonths[i] == PadStart2(DecimalString(i + 1))
  {
    if i + 1 < 10 {
      assert DecimalString(i + 1) == [DigitChar(i + 1)];
      assert PadStart2(DecimalString(i + 1)) == ['0', DigitChar(i + 1)];
    } else {
      assert DecimalString(1) == "1";
      assert DecimalString(i + 1) == ['1', DigitChar(i + 1 - 10)];
    }
  }

  /** The Gregorian, Persian and Arabic pickers number their months "01" to "12" in order. */
  lemma NumberedMonthItems()
    ensures Values(GregorianMonthItems) == TwoDigitMonths
    ensures Values(PersianMonthItems) == TwoDigitMonths
    ensures Values(ArabicMonthItems) == TwoDigitMonths
  {
  }

  /** Reading a picker value back with `parseInt` gives its month number. */
  lemma MonthItemValuesParse(i: nat)
    requires i < 12
    ensures ParseInt(TwoDigitMonths[i]) == Some(i + 1)
  {
    TwoDigitMonthsArePadded();
    ParsePaddedDecimal(i + 1);
  }
}
