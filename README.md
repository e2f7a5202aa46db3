# Time-Zoner core in Dafny

Time-Zoner is a React Native app. It converts dates between the Gregorian,
Persian (Jalaali), Arabic (Hijri), Hebrew and Chinese calendars. It computes
the difference between two dates. It converts a wall-clock time from one IANA
time zone to another. It keeps the user's list of time zones and the 12/24-hour
preference in a zustand store.

This project models the logic around the calendar libraries, not the calendar
arithmetic itself:

- `CalendarConverter` dispatches every conversion through Gregorian. Each
  bridge shifts months between 0-based and 1-based, maps the leap flag between
  boolean and 0/1, translates the Chinese month tables, and checks Hebrew month
  names.
- The three hand-written pairwise converter files, and how each one compares
  with the dispatcher.
- `calculateDateDifference`: ordering the two dates, and splitting days into
  weeks and days with JavaScript's `Math.floor` and `%`.
- The store: loading and saving the hour format, loading time zones, adding
  them without duplicates, and deleting them.
- The three screens:
  - the time-zone converter: the picker tables, the 12-hour to 24-hour
    normalisation, `handleConvert` and the result text;
  - the date-difference form: the empty-field guard and the `YYYY-MM-DD`
    string;
  - the add-time-zone form: find-or-first zone selection and the trimmed label.
- The constant month tables.

## How the model is built

- The calendar libraries are parameters, so that no library behaviour is
  assumed silently. The record `CalendarLibraries.Libraries` holds one function value
  per library entry point:
  - `jalaali.toGregorian` and `toJalaali`;
  - `new HijriDate(...)`, with `toGregorian` and the getters;
  - `toGregorianDate` and `toJewishDate`;
  - `CalendarChinese`'s `toGregorian` and `fromGregorian`/`get`;
  - JavaScript's `new Date(y, m0, d)`;
  - `Object.values(JewishMonth)`.
- A call that can throw returns `Call<T>`, which is `Returned(v)` or `Threw`.
  A value that can be falsy is an `Option`.
- What the libraries are assumed to guarantee is not proved anywhere. It
  appears only as hypotheses of lemmas: the predicates `DatesRebuild`,
  `JalaaliRoundTrip`, `HijriRoundTrip`, `JewishRoundTrip` and
  `ChineseRoundTrip` in `calendar_libraries.dfy`.
- Luxon is a parameter in the same way:
  - in `calculateDateDifference`: `fromISO` and `diff`;
  - in `handleConvert`: `fromObject`, `setZone` and `toFormat`.
- AsyncStorage reads are inputs of the store's methods. Its writes are returned
  as the string or list that would be saved.
- `JSON.parse` is a parameter.
- The state a screen updates in place is a class whose fields are the screen's
  `useState` variables. The same holds for the zustand store.
- Integers are unbounded `int`. JavaScript's sign-keeping `%` is written out
  (`DateDifference.RemainderJs7`).
- `parseInt(s, 10)` is `JsStrings.ParseInt`, which returns `None` for NaN.
  `String(n).padStart(2, '0')` is `PadStart2(DecimalString(n))`. `trim()` is
  `Trim`, over the ECMAScript white-space and line-terminator code points.

### Where the pairwise converters differ from the dispatcher

- **Persian→Arabic, Arabic→Persian** (`utils/persianArabicFunction.ts`): these
  have no `try`, so a library exception escapes. The dispatcher returns null in
  the same cases. The results agree exactly when no call throws; see
  `PersianToArabicMatchesDispatcher`.
- **Persian→Hebrew** (`utils/persianHebrewFunction.ts`): this converter casts
  the month name instead of checking it against `JewishMonth`. It returns a
  date in cases where the dispatcher returns null; see
  `PersianToHebrewVersusDispatcher` and `PersianToHebrewSkipsMonthCheck`.
- **Chinese→Hebrew** (`utils/HebrewChineseFunction.ts`): this converter always
  uses sexagenary cycle 78 and ignores the date's own `cycle`; see "Findings".
- **Hebrew→Persian, Hebrew→Chinese**: these are equal to the dispatcher on
  every input.

## Model

| member | source | states |
|---|---|---|
| CalendarConverters.Convert | utils/calendar-converters.ts:53-83 | a result exists only for supported calendars, and the input and the output are each of their calendar's kind; a failed first hop gives null |
| CalendarConverters.ConvertViaGregorian | utils/calendar-converters.ts:53-83 | every conversion is the source's Gregorian date converted from Gregorian; null when the first hop fails |
| CalendarConverters.ConvertGregorianIdentity | utils/calendar-converters.ts:98-99 | Gregorian to Gregorian returns the same date; a non-`Date` value given as Gregorian gives null for every target |
| CalendarConverters.ConvertUnsupported | utils/calendar-converters.ts:113-115 | a calendar outside the enumeration, as source or as target, gives null |
| CalendarConverters.ConvertToGregorian | utils/calendar-converters.ts:91-117 | a result exists only for a supported source and a date of that calendar; a Gregorian source passes a `Date` through and nothing else |
| CalendarConverters.ConvertFromGregorian | utils/calendar-converters.ts:125-151 | a result is of the target's calendar; a Gregorian target returns the date itself |
| CalendarConverters.PersianToGregorian | utils/calendar-converters.ts:158-169 | null exactly when `jalaali.toGregorian` throws |
| CalendarConverters.GregorianToPersian | utils/calendar-converters.ts:176-191 | null exactly when `toJalaali` of (year, month+1, day) throws |
| CalendarConverters.ArabicToGregorian | utils/calendar-converters.ts:198-209 | null exactly when the Hijri library throws on (year, month−1, day) |
| CalendarConverters.GregorianToArabic | utils/calendar-converters.ts:216-231 | null exactly when the Hijri library throws on the date |
| CalendarConverters.HebrewToGregorian | utils/calendar-converters.ts:238-253 | a date exactly when `toGregorianDate` returns one without throwing |
| CalendarConverters.GregorianToHebrew | utils/calendar-converters.ts:260-286 | a date exactly when `toJewishDate` returns one whose month name is a `JewishMonth` value; the result's month is always one |
| CalendarConverters.ChineseTupleOf | utils/calendar-converters.ts:296-306 | the library tuple keeps cycle, year and day; its month number m is in 1..13 and entry m−1 of the enum order is the record's month; leap is 1 exactly when the flag is true and 0 otherwise |
| CalendarConverters.ChineseDateOf | utils/calendar-converters.ts:338-348 | the record keeps cycle, year and day, the flag is `leapNumber === 1`, and a month in 1..13 maps back to its number |
| CalendarConverters.ChineseToGregorian | utils/calendar-converters.ts:292-320 | a date exactly when the library's `toGregorian` returns one without throwing |
| CalendarConverters.GregorianToChinese | utils/calendar-converters.ts:327-354 | null exactly when `fromGregorian` throws |
| CalendarConverters.MapNumberToChineseMonth | utils/calendar-converters.ts:361-380 | 1..13 select the thirteen months in order; any other number falls back to YiYue |
| CalendarConverters.MapChineseMonthToNumber | utils/calendar-converters.ts:387-406 | every month gets a number in 1..13, and that number names it in the enum order |
| CalendarConverters.ChineseMonthTablesInverse | utils/calendar-converters.ts:361-406 | the two Chinese month tables are mutually inverse on 1..13 and on the enum |
| CalendarConverters.ChineseMonthToNumberInjective | utils/calendar-converters.ts:387-406 | no two months share a number |
| CalendarConverters.ChineseMonthSilentDefault | utils/calendar-converters.ts:379 | a number outside 1..13 becomes YiYue, which reads back as 1, not as the original number |
| CalendarConverters.ChineseMonthItemsNumbered | utils/calender-types.ts:123-137 | picker entry i of `chineseMonthItems` is month number i+1 |
| CalendarConverters.PersianBridgeRoundTrip | utils/calendar-converters.ts:158-191 | assuming jalaali round-trips and `new Date` rebuilds a date with a year outside 0..99 and in-range fields, Gregorian→Persian→Gregorian returns such a date |
| CalendarConverters.ArabicBridgeRoundTrip | utils/calendar-converters.ts:198-231 | assuming the Hijri round trip, the −1/+1 month shifts cancel and Gregorian→Arabic→Gregorian returns the date |
| CalendarConverters.HebrewBridgeRoundTrip | utils/calendar-converters.ts:238-286 | assuming the jewish-date round trip, Gregorian→Hebrew→Gregorian returns the date |
| CalendarConverters.ChineseBridgeRoundTrip | utils/calendar-converters.ts:292-354 | assuming the date-chinese round trip and that `new Date` rebuilds the date, the month table and the leap bool↔0/1 mapping cancel and Gregorian→Chinese→Gregorian returns a date with a year outside 0..99 and in-range fields |
| CalendarConverters.ConvertRoundTrip | utils/calendar-converters.ts:53-151 | under the library assumptions, converting a Gregorian date to any calendar and back gives the date; for Persian and Chinese the date's year lies outside 0..99 and its fields are in range |
| CalendarTypes.ChineseMonthValuesDistinct | utils/calender-types.ts:59-74 | `ChineseMonth` has thirteen members with pairwise distinct strings |
| CalendarTypes.ChineseMonthItemsInEnumOrder | utils/calender-types.ts:123-137 | `chineseMonthItems` lists the members in enum order, each labelled with its own string |
| CalendarTypes.HebrewMonthItemsDistinct | utils/calender-types.ts:76-90 | `hebrewMonthItems` has thirteen distinct entries, Nisan first, covering every member |
| CalendarTypes.TwoDigitMonthsArePadded | utils/calender-types.ts:35-48 | "01".."12" are `String(n).padStart(2,'0')` for n = 1..12 |
| CalendarTypes.NumberedMonthItems | utils/calender-types.ts:35-121 | the Gregorian, Persian and Arabic pickers all number their months "01".."12" in order |
| CalendarTypes.MonthItemValuesParse | utils/calender-types.ts:35-48 | each numbered picker value parses back to its month number |
| HebrewChineseFunction.MapNumberToChineseMonth | utils/HebrewChineseFunction.ts:17-36 | 1..13 name the months in order, anything else gives YiYue |
| HebrewChineseFunction.MapChineseMonthToNumber | utils/HebrewChineseFunction.ts:43-62 | every month gets its number in 1..13 |
| HebrewChineseFunction.LocalMonthTablesAgree | utils/HebrewChineseFunction.ts:17-62 | this file's copies of the month tables agree with the dispatcher's |
| HebrewChineseFunction.ConvertHebrewToChinese | utils/HebrewChineseFunction.ts:69-115 | a result requires `toGregorianDate` to have returned a date |
| HebrewChineseFunction.HebrewToChineseMatchesDispatcher | utils/HebrewChineseFunction.ts:69-115 | equal to `convert(Hebrew, Chinese, ...)` on every input |
| HebrewChineseFunction.TupleAt78 | utils/HebrewChineseFunction.ts:127-140 | the library tuple has cycle 78, the date's year and day, its month number and leap 0/1 |
| HebrewChineseFunction.ConvertChineseToHebrew | utils/HebrewChineseFunction.ts:122-186 | a result carries a valid `JewishMonth` name and requires the cycle-78 lookup to succeed |
| HebrewChineseFunction.ChineseToHebrewIgnoresCycle | utils/HebrewChineseFunction.ts:127 | the result does not depend on the date's `cycle` |
| HebrewChineseFunction.ChineseToHebrewMatchesDispatcherAt78 | utils/HebrewChineseFunction.ts:122-186 | for dates in cycle 78 it equals `convert(Chinese, Hebrew, ...)` |
| HebrewChineseFunction.ChineseToHebrewDeviatesOffCycle78 | utils/HebrewChineseFunction.ts:127 | for some library and a date outside cycle 78, it returns a date where the dispatcher returns null |
| PersianHebrewFunction.ConvertPersianToHebrew | utils/persianHebrewFunction.ts:27-54 | a jalaali throw gives null; a result is the record `toJewishDate` returned for the rebuilt `Date` |
| PersianHebrewFunction.ConvertHebrewToPersian | utils/persianHebrewFunction.ts:61-96 | a result exactly when both hops succeed, and it is the jalaali triple |
| PersianHebrewFunction.PersianToHebrewVersusDispatcher | utils/persianHebrewFunction.ts:27-54 | the dispatcher agrees except that it also turns a month name outside `JewishMonth` into null |
| PersianHebrewFunction.PersianToHebrewMatchesOnKnownMonths | utils/persianHebrewFunction.ts:27-54 | when the month name is a `JewishMonth` value the two agree |
| PersianHebrewFunction.PersianToHebrewSkipsMonthCheck | utils/persianHebrewFunction.ts:43-47 | for some library output the converter returns a month the enum lacks, where the dispatcher returns null |
| PersianHebrewFunction.HebrewToPersianMatchesDispatcher | utils/persianHebrewFunction.ts:61-96 | equal to `convert(Hebrew, Persian, ...)` on every input |
| PersianArabicFunction.ConvertPersianToArabic | utils/persianArabicFunction.ts:12-25 | it throws exactly when one of the two library calls throws |
| PersianArabicFunction.ConvertArabicToPersian | utils/persianArabicFunction.ts:33-46 | it throws exactly when one of the two library calls throws |
| PersianArabicFunction.PersianToArabicMatchesDispatcher | utils/persianArabicFunction.ts:12-25 | the dispatcher gives null where this throws and the same date otherwise |
| PersianArabicFunction.ArabicToPersianMatchesDispatcher | utils/persianArabicFunction.ts:33-46 | the dispatcher gives null where this throws and the same date otherwise |
| PersianArabicFunction.PersianArabicRoundTrip | utils/persianArabicFunction.ts:12-46 | under the Hijri and jalaali round trips, Persian→Arabic→Persian returns the date |
| DateDifference.Earlier | utils/calculateDateDifference.ts:14 | one of the two dates; for two valid dates not after either; with an invalid date it is the second |
| DateDifference.Later | utils/calculateDateDifference.ts:15 | one of the two dates; for two valid dates not before either; with an invalid date it is the second |
| DateDifference.CalculateDateDifference | utils/calculateDateDifference.ts:11-25 | Luxon's difference of the later from the earlier parsed date: absent years/months read as 0, and a non-negative day count splits as 7·weeks + days with 0 ≤ days < 7; see also `DifferenceCommutes` and `SwapWithInvalidDate` |
| DateDifference.FloorDiv7 | utils/calculateDateDifference.ts:17 | `Math.floor(n/7)`: the largest q with 7q ≤ n |
| DateDifference.RemainderJs7 | utils/calculateDateDifference.ts:18 | JavaScript `n % 7`: takes the sign of n, below 7 in size, and n minus it is a multiple of 7 |
| DateDifference.FromDuration | utils/calculateDateDifference.ts:16-24 | absent years/months read as 0; a non-negative day count d splits as 7·weeks + days with 0 ≤ days < 7 |
| DateDifference.OrderedPair | utils/calculateDateDifference.ts:14-15 | for two valid dates the earlier is not after the later, and the pair is the two inputs |
| DateDifference.SwapSelectsSamePair | utils/calculateDateDifference.ts:14-15 | swapping two valid dates selects the same pair |
| DateDifference.DifferenceCommutes | utils/calculateDateDifference.ts:11-24 | when both strings parse, the result does not depend on the argument order |
| DateDifference.SwapWithInvalidDate | utils/calculateDateDifference.ts:14-15 | with an invalid date, one order selects (valid, valid) and the other (invalid, invalid) |
| DateDifference.DifferenceOfDateWithItself | utils/calculateDateDifference.ts:11-24 | a zero Luxon difference gives all zeros |
| DateDifference.NegativeDaysSplit | utils/calculateDateDifference.ts:17-18 | −3 days split into −1 week and −3 days |
| Store.RemoveIana | store.tsx:81 | the filter keeps exactly the zones with another `iana`, never more than there were |
| Store.RemoveIanaConcat | store.tsx:81 | filtering distributes over concatenation |
| Store.RemoveAbsentIana | store.tsx:81 | filtering out an absent `iana` changes nothing |
| Store.RemoveIanaKeepsUnique | store.tsx:81 | filtering keeps a list free of duplicate `iana` values |
| Store.AppendKeepsUnique | store.tsx:67-71 | appending a zone whose `iana` is absent keeps the list duplicate-free |
| Store.FormatSetting | store.tsx:40 | the saved setting is "24" exactly in 24-hour mode |
| Store.TimeZoneStore.constructor | store.tsx:24-26 | no zones, 12-hour mode |
| Store.TimeZoneStore.LoadTimeFormat | store.tsx:28-35 | 24-hour mode exactly when the stored setting is "24"; a failed read changes nothing |
| Store.TimeZoneStore.ToggleTimeFormat | store.tsx:37-45 | flips the mode and saves its new "24"/"12" setting |
| Store.TimeZoneStore.LoadTimeZones | store.tsx:47-62 | a stored array replaces the list; a non-array or a failure empties it; nothing stored keeps it |
| Store.TimeZoneStore.AddTimeZone | store.tsx:64-76 | a duplicate `iana` leaves the list alone; otherwise the zone is appended and saved; duplicate-freedom is kept |
| Store.TimeZoneStore.DeleteTimeZone | store.tsx:78-86 | the list becomes the filtered list and is saved; duplicate-freedom is kept |
| ZoneTypes.FirstIndexOfIana | store.tsx:67 | the position of the first zone with that `iana`, or none if no zone has it |
| ZoneTypes.FindByIana | store.tsx:67 | `find` returns a listed zone with that `iana`, and returns nothing exactly when none has it |
| TimeZonesConverter.HourItems | app/TimeZonesConverter.tsx:48-56 | 24 entries in 24-hour mode, 12 otherwise |
| TimeZonesConverter.MinuteItems | app/TimeZonesConverter.tsx:58-61 | 60 entries |
| TimeZonesConverter.HourItemsParse | app/TimeZonesConverter.tsx:48-56 | each hour entry's label is its value, and the value parses to i, or to 12 for the first 12-hour entry |
| TimeZonesConverter.MinuteItemsParse | app/TimeZonesConverter.tsx:58-61 | minute entry i parses to i |
| TimeZonesConverter.TwelveHourPickerValues | app/TimeZonesConverter.tsx:53-56 | the 12-hour picker's values are `Padded(12)` followed by `Padded(1)` … `Padded(11)`, that is "12", "01", …, "11" |
| TimeZonesConverter.TwentyFourHourPickerValues | app/TimeZonesConverter.tsx:49-52 | the 24-hour picker's entry i is the two-digit form of i |
| TimeZonesConverter.NormalizeHour | app/TimeZonesConverter.tsx:72-79 | NaN stays NaN; 24-hour mode keeps the hour; 12-hour mode keeps the hour's position on the clock (the same value modulo 12); the lemmas below say which cases change it and that 1..12 with AM/PM map one-to-one onto 0..23 |
| TimeZonesConverter.TwentyFourHourUnchanged | app/TimeZonesConverter.tsx:72-73 | in 24-hour mode the parsed hour is used unchanged |
| TimeZonesConverter.TwelveHourChangesOnlyTwoCases | app/TimeZonesConverter.tsx:73-79 | in 12-hour mode the hour changes exactly for PM with hour ≠ 12 (+12) and AM with 12 (→0) |
| TimeZonesConverter.TwelveHourInRange | app/TimeZonesConverter.tsx:72-79 | hours 1..12 with AM/PM normalise into 0..23 |
| TimeZonesConverter.TwelveHourInjective | app/TimeZonesConverter.tsx:72-79 | different (hour, AM/PM) pairs give different hours |
| TimeZonesConverter.TwelveHourSurjective | app/TimeZonesConverter.tsx:72-79 | every hour 0..23 is reached from some (1..12, AM/PM) |
| TimeZonesConverter.PickedHourInDay | app/TimeZonesConverter.tsx:48-79 | any hour the picker offers, in either mode, normalises into 0..23 |
| TimeZonesConverter.ResultText | app/TimeZonesConverter.tsx:193-195 | the result starts with `targetHour:targetMinute` and ends with a space and the target zone's label (`ZoneLabel`, "undefined" for a zone missing from the store) |
| TimeZonesConverter.ResultShowsSourceAmPm | app/TimeZonesConverter.tsx:193 | the 12-hour result text shows the AM/PM picked for the source after HH:MM, whatever the target hour |
| TimeZonesConverter.ResultWithoutAmPm | app/TimeZonesConverter.tsx:193-195 | the 24-hour result text is HH:MM followed by the target zone's label |
| TimeZonesConverter.SourceMeridiemMisreadsTarget | app/TimeZonesConverter.tsx:90-91 | a target hour "04" formatted with `hh` after a PM source time reads back as 16:00 |
| TimeZonesConverter.CorrectedResultReadsBack | app/TimeZonesConverter.tsx:90-91 | with the target's own AM/PM, the 12-hour result reads back as exactly the target's hour of the day |
| TimeZonesConverter.TargetDateTime | app/TimeZonesConverter.tsx:81-89 | a target time exactly when neither `fromObject` on the normalised hour nor `setZone` throws |
| TimeZonesConverter.Screen.constructor | app/TimeZonesConverter.tsx:25-32 | the initial screen state |
| TimeZonesConverter.Screen.TimeZonesChanged | app/TimeZonesConverter.tsx:41-46 | a non-empty zone list selects its first zone as both source and target |
| TimeZonesConverter.Screen.HandleConvert | app/TimeZonesConverter.tsx:63-98 | an empty zone alerts and changes nothing; otherwise the target hour and minute are Luxon's formatting of the normalised source time; a throw keeps the fields not yet set; loading ends false |
| DateCalculation.AnyEmpty | app/DateCalculation.tsx:64-71 | the guard; `GuardedDateHasThreeParts` states what it ensures for the formatting |
| DateCalculation.GuardedDateHasThreeParts | app/DateCalculation.tsx:64-83 | past the guard, a dash-free date splits into three non-empty parts, month and day of at least two characters |
| DateCalculation.FormatDate | app/DateCalculation.tsx:76-83 | `YYYY-MM-DD` assembly; `YearNotPadded`, `PadFieldCases`, `IsoLayout`, `FormatDateSplits` and `FormatDateParses` state its layout and that it splits and parses back |
| DateCalculation.PadFieldCases | app/DateCalculation.tsx:76-83 | a one-character field gets one leading "0"; a longer field is kept as typed |
| DateCalculation.YearNotPadded | app/DateCalculation.tsx:76-79 | the year is copied unpadded, followed by "-" |
| DateCalculation.IsoLayout | app/DateCalculation.tsx:76-83 | a 4-character year with short month and day gives the 10-character `YYYY-MM-DD` layout |
| DateCalculation.FormatDateSplits | app/DateCalculation.tsx:76-83 | splitting at "-" gives the year and the padded month and day back |
| DateCalculation.FormatDateParses | app/DateCalculation.tsx:76-83 | for numeric fields, the three parts parse back to the year, month and day |
| DateCalculation.Screen.constructor | app/DateCalculation.tsx:52-58 | empty fields and no result |
| DateCalculation.Screen.HandleSubmit | app/DateCalculation.tsx:60-90 | an empty field alerts and keeps `targetTime`; otherwise it is the difference of the two formatted dates |
| TimeZoneForm.ZoneForIana | components/TimeZoneForm.tsx:12 | the selected zone is listed and has the requested `iana`, or it is `zones[0]` |
| TimeZoneForm.ZoneForIanaFirstMatch | components/TimeZoneForm.tsx:12 | the first zone with that `iana` is the one selected |
| TimeZoneForm.ZoneForIanaFallback | components/TimeZoneForm.tsx:12 | an `iana` that no zone has selects `zones[0]` |
| TimeZoneForm.ShadowedZoneUnreachable | components/TimeZoneForm.tsx:12 | a zone sharing its `iana` with an earlier one can never be selected |
| TimeZoneForm.SampleStandardTimeUnreachable | utils/zones.ts:12-23 | of the two Australia/Adelaide entries, ACST can never be selected |
| TimeZoneForm.SubmittedLabel | components/TimeZoneForm.tsx:20 | the label choice; `SubmittedLabelChoice` and `ResubmitIsStable` state that a non-blank label is trimmed, a blank one gives the zone's own, and resubmitting is stable |
| TimeZoneForm.SubmittedZone | components/TimeZoneForm.tsx:18-21 | `fullName`, `jsName` and `iana` copied from the selected zone, with the chosen label |
| TimeZoneForm.SubmittedLabelChoice | components/TimeZoneForm.tsx:20 | a non-blank label is trimmed, with no white space left at its ends; a blank label gives the zone's own |
| TimeZoneForm.ResubmitIsStable | components/TimeZoneForm.tsx:20 | resubmitting the submitted label gives the same zone |
| TimeZoneForm.Form.constructor | components/TimeZoneForm.tsx:8-9 | the first zone and its label |
| TimeZoneForm.Form.HandleZoneChange | components/TimeZoneForm.tsx:11-15 | selects the find-or-first zone and resets the label to its own |
| TimeZoneForm.Form.SetLabel | components/TimeZoneForm.tsx:48-51 | the label text field is set; the selection stays |
| TimeZoneForm.Form.HandleSubmit | components/TimeZoneForm.tsx:17-23 | the zone handed to `onSubmit`: selected fields plus the trimmed label, or the zone's own label when blank |
| JsStrings.DecimalString | app/TimeZonesConverter.tsx:50 | `String(n)`: digits only, no leading zero, one character exactly below 10 |
| JsStrings.PadStart2 | app/DateCalculation.tsx:76-79 | `padStart(2,'0')`: at least two characters, ends with the input, zeros in front |
| JsStrings.ParseInt | app/TimeZonesConverter.tsx:72 | `parseInt(s, 10)`: NaN exactly when the text does not start with a digit |
| JsStrings.ParsePaddedDecimal | app/TimeZonesConverter.tsx:48-84 | parsing a two-digit padded number gives the number back |
| JsStrings.Trim | components/TimeZoneForm.tsx:20 | `trim()` returns the input with its leading and trailing white space removed, and no white space is left at its ends |
| JsStrings.TrimIdempotent | components/TimeZoneForm.tsx:20 | trimming twice is trimming once |
| JsStrings.TrimEmptyIffWhitespace | components/TimeZoneForm.tsx:20 | the trim is empty exactly when the label is all white space |

## Left out

- The calendar algorithms of jalaali-js, hijri-date, jewish-date and
  date-chinese are parameters. What the bridges need them to do (round trips)
  is stated as assumptions, never derived.
- JavaScript `Date` normalisation is not modelled. `new Date(...)` is a
  parameter. `DatesRebuild` assumes it keeps the fields only of a `Rebuildable`
  date: a year outside 0..99, a month index in 0..11 and a day that exists in
  that month.
- CalendarConverters.ConvertRoundTrip, CalendarConverters.PersianBridgeRoundTrip
  and CalendarConverters.ChineseBridgeRoundTrip promise nothing for a Gregorian
  date with a year in 0..99 or with out-of-range fields, because
  `new Date(y, m0, d)` reads years 0..99 as 1900..1999 and rolls over
  out-of-range months and days.
- CalendarTypes.JewishMonth: `Value()` returning the member's own name is an
  assumption about jewish-date's `JewishMonth` enum, whose declaration is not
  part of this model. HebrewMonthItemsDistinct's "covering every member" holds
  by construction of that datatype.
- HebrewDate, ChineseDate and the other records reach the converters through
  TypeScript casts that are not checked at runtime. The model instead returns
  null for a `CalendarDate` of another calendar's kind.
- `ChineseDate.leap` is typed `number | boolean` in utils/calender-types.ts:17.
  The model uses `bool`, which is what `gregorianToChinese` produces and what
  `leap ? 1 : 0` reads.
- `calendarTypes` in utils/calender-types.ts:50-57 is not used by the
  converters. `CalendarDate` is imported from that file but not declared in it.
  The model declares it as the union of the five date kinds.
- JsStrings.ParseInt: leading white space and a sign are not accepted, because
  no picker value or typed field in the model has them.
- Strings are sequences of Unicode code points, not UTF-16 code units.
- Luxon's time-zone database, DST, fractional duration units and ISO parsing
  are parameters (`fromISO`, `diff`, `fromObject`, `setZone`, `toFormat`). The
  current day that `fromObject` reads is inside that parameter.
- AsyncStorage and `JSON.parse` are inputs. Elements of a loaded array are not
  validated as time zones: the model, like the code, takes them as they are.
  The storage keys and the `console` logging are left out.
- Store.TimeZoneStore.AddTimeZone and Store.TimeZoneStore.DeleteTimeZone:
  the `Array.isArray(state.timeZones)` fallback is not modelled, because the
  field is always a list in the model.
- The rendering, the navigation, `Alert.alert`, and the loading spinner's
  timing are out of scope. The spinner's timing depends on React's batching.
- The full utils/zones.ts table is left out. The model has three sample entries
  (utils/zones.ts:12-29), chosen to show the shadowed duplicate `iana`.
- The other screens and the JavaScript calendar helpers (utils/calculateCalendar.ts,
  utils/calenderConvert.js, utils/convert.js, utils/crossCalendarDifference.js,
  utils/calculateTimeDifference.js, the CalendarConvert screens) are not part
  of this model.

## Findings

| source | as written | input that shows it | evidently intended | confidence | as-written member | corrected member |
|---|---|---|---|---|---|---|
| utils/HebrewChineseFunction.ts:127 | `convertChineseToHebrew` always builds the lunar date in sexagenary cycle 78 (1984–2043) and ignores `chineseDate.cycle` | a Chinese date in cycle 77, which the cycle picker in app/CalendarConvert/HebrewChineseConverter.tsx:51-56 offers, is converted as the date with the same year, month and day in cycle 78, sixty years later | use the date's own `cycle`, as `chineseToGregorian` in utils/calendar-converters.ts:296-306 does | not executed | HebrewChineseFunction.ChineseToHebrewDeviatesOffCycle78 | CalendarConverters.ChineseBridgeRoundTrip |
| app/TimeZonesConverter.tsx:90-91 | in 12-hour mode the target hour is formatted with `hh`, and the result text (line 193) appends the AM/PM picked for the source | 11 PM in America/New_York converted to Europe/London shows "04:00 PM", which reads as 16:00 instead of 04:00 | show the target's own AM/PM, the 12-hour reading of its 24-hour hour | not executed | TimeZonesConverter.SourceMeridiemMisreadsTarget | TimeZonesConverter.CorrectedResultReadsBack |
