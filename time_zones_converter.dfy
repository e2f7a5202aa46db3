/**
 * app/TimeZonesConverter.tsx: the time-zone converter screen. The picker
 * tables are pure; `handleConvert` is a method over the screen's state.
 */
module TimeZonesConverter {
  import opened Wrappers
  import opened JsStrings
  import opened ZoneTypes
  import CT = CalendarTypes

  /** `String(n).padStart(2, '0')`. */
  function Padded(n: nat): string {
    PadStart2(DecimalString(n))
  }

  /** A picker entry `{ label, value }` showing the two-digit form of `n`. */
  function PaddedItem(n: nat): CT.Item<string> {
    CT.Item(Padded(n), Padded(n))
  }

  /** The number shown at position `i` of the hour picker: `i`, or 12 for the first 12-hour entry. */
  function HourAt(is24Hour: bool, i: nat): nat {
    if is24Hour || i != 0 then i else 12
  }

  /** `hourItems`: 24 entries in 24-hour mode, 12 entries otherwise. */
  function HourItems(is24Hour: bool): (r: seq<CT.Item<string>>)
    ensures |r| == if is24Hour then 24 else 12
  {
    if is24Hour then seq(24, i requires 0 <= i => PaddedItem(HourAt(true, i)))
    else seq(12, i requires 0 <= i => PaddedItem(HourAt(false, i)))
  }

  /** `minuteItems`: 00..59. */
  function MinuteItems(): (r: seq<CT.Item<string>>)
    ensures |r| == 60
  {
    seq(60, i requires 0 <= i => PaddedItem(i))
  }

  /** Every hour entry shows its own value, and that value parses back to the hour it stands for. */
  lemma HourItemsParse(is24Hour: bool, i: nat)
    requires i < |HourItems(is24Hour)|
    ensures HourItems(is24Hour)[i].labelText == HourItems(is24Hour)[i].value
    ensures ParseInt(HourItems(is24Hour)[i].value) == Some(HourAt(is24Hour, i))
  {
    ParsePaddedDecimal(HourAt(is24Hour, i));
  }

  /** Every minute entry parses back to its position: the picker offers exactly 0..59. */
  lemma MinuteItemsParse(i: nat)
    requires i < 60
    ensures MinuteItems()[i].labelText == MinuteItems()[i].value
    ensures ParseInt(MinuteItems()[i].value) == Some(i)
  {
    ParsePaddedDecimal(i);
  }

  /** The 12-hour picker reads 12, 01, ..., 11. */
  lemma TwelveHourPickerValues()
    ensures CT.Values(HourItems(false)) == [Padded(12)] + seq(11, i requires 0 <= i => Padded(i + 1))
    ensures Padded(12) == "12" && Padded(1) == "01" && Padded(11) == "11"
  {
    var v := CT.Values(HourItems(false));
    var expected := [Padded(12)] + seq(11, i requires 0 <= i => Padded(i + 1));
    forall i | 0 <= i < 12
      ensures v[i] == expected[i]
    {
      if i > 0 {
        assert expected[i] == Padded(i);
      }
    }
    assert DecimalString(12) == DecimalString(1) + [DigitChar(2)];
    assert DecimalString(11) == DecimalString(1) + [DigitChar(1)];
  }

  /** The 24-hour picker reads 00, ..., 23: each entry is the two-digit form of its position. */
  lemma TwentyFourHourPickerValues(i: nat)
    requires i < 24
    ensures CT.Values(HourItems(true))[i] == Padded(i)
    ensures |Padded(i)| == 2 && AllDigits(Padded(i))
  {
    DecimalStringLength(i);
  }

  /** A two-digit number has a two-character decimal form. */
  lemma DecimalStringLength(n: nat)
    requires n < 100
    ensures |DecimalString(n)| <= 2
  {
    if n >= 10 {
      assert DecimalString(n) == DecimalString(n / 10) + [DigitChar(n % 10)];
    }
  }

  /**
   * The hour `handleConvert` hands to Luxon: in 12-hour mode, PM adds 12
   * unless the hour is 12 and AM turns 12 into 0. `None` is NaN, which
   * stays NaN (`NaN !== 12`, `NaN + 12` is NaN, `NaN === 12` is false).
   */
  function NormalizeHour(hour: Option<int>, amPm: string, is24Hour: bool): (r: Option<int>)
    ensures r.Some? <==> hour.Some?
    ensures is24Hour ==> r == hour
    ensures hour.Some? ==> r.value % 12 == hour.value % 12
  {
    if is24Hour then hour
    else match hour
      case None => None
      case Some(h) =>
        if amPm == "PM" && h != 12 then Some(h + 12)
        else if amPm == "AM" && h == 12 then Some(0)
        else Some(h)
  }

  /** In 24-hour mode the parsed hour goes through unchanged. */
  lemma TwentyFourHourUnchanged(hour: Option<int>, amPm: string)
    ensures NormalizeHour(hour, amPm, true) == hour
  {
  }

  /** In 12-hour mode the hour changes exactly in the two rewritten cases. */
  lemma TwelveHourChangesOnlyTwoCases(h: int, amPm: string)
    ensures NormalizeHour(Some(h), amPm, false) != Some(h) <==>
      (amPm == "PM" && h != 12) || (amPm == "AM" && h == 12)
    ensures amPm == "PM" && h != 12 ==> NormalizeHour(Some(h), amPm, false) == Some(h + 12)
    ensures amPm == "AM" && h == 12 ==> NormalizeHour(Some(h), amPm, false) == Some(0)
  {
  }

  predicate IsAmPm(p: string) {
    p == "AM" || p == "PM"
  }

  /** The 12-hour reading of a 24-hour time: the inverse of `NormalizeHour`. */
  function TwelveHourOf(t: int): (int, string)
    requires 0 <= t < 24
  {
    if t == 0 then (12, "AM")
    else if t < 12 then (t, "AM")
    else if t == 12 then (12, "PM")
    else (t - 12, "PM")
  }

  /** On 1..12 with AM/PM the normalised hour lies in 0..23. */
  lemma TwelveHourInRange(h: int, p: string)
    requires 1 <= h <= 12 && IsAmPm(p)
    ensures NormalizeHour(Some(h), p, false).Some?
    ensures 0 <= NormalizeHour(Some(h), p, false).value < 24
  {
  }

  /** No two 12-hour readings give the same hour. */
  lemma TwelveHourInjective(h1: int, p1: string, h2: int, p2: string)
    requires 1 <= h1 <= 12 && IsAmPm(p1) && 1 <= h2 <= 12 && IsAmPm(p2)
    requires NormalizeHour(Some(h1), p1, false) == NormalizeHour(Some(h2), p2, false)
    ensures h1 == h2 && p1 == p2
  {
  }

  /** Every hour of the day has a 12-hour reading, which `TwelveHourOf` names. */
  lemma TwelveHourSurjective(t: int)
    requires 0 <= t < 24
    ensures 1 <= TwelveHourOf(t).0 <= 12 && IsAmPm(TwelveHourOf(t).1)
    ensures NormalizeHour(Some(TwelveHourOf(t).0), TwelveHourOf(t).1, false) == Some(t)
  {
  }

  /** Whatever the picker offers, the normalised hour is an hour of the day, in both modes. */
  lemma PickedHourInDay(is24Hour: bool, i: nat, amPm: string)
    requires i < |HourItems(is24Hour)| && IsAmPm(amPm)
    ensures var n := NormalizeHour(ParseInt(HourItems(is24Hour)[i].value), amPm, is24Hour);
      n.Some? && 0 <= n.value < 24
  {
    HourItemsParse(is24Hour, i);
    if !is24Hour {
      TwelveHourInRange(HourAt(false, i), amPm);
    }
  }

  /** `timeZones.find((tz) => tz.iana === targetTimezone)?.label` as a template prints it. */
  function ZoneLabel(zones: seq<TimeZone>, iana: string): string {
    match FindByIana(zones, iana)
    case Some(z) => z.labelText
    case None => "undefined"
  }

  /**
   * The text of the "TargetTime" result: the target's hour and minute, the
   * AM/PM picked for the source in 12-hour mode, and the target zone's label.
   * A target zone missing from the store shows as "undefined".
   */
  function ResultText(targetHour: string, targetMinute: string, is24Hour: bool, sourceAmPm: string,
                      zones: seq<TimeZone>, targetTimezone: string): (r: string)
    ensures |r| >= |targetHour| + 1 + |targetMinute| + 1 + |ZoneLabel(zones, targetTimezone)|
    ensures r[..|targetHour| + 1 + |targetMinute|] == targetHour + ":" + targetMinute
    ensures r[|r| - 1 - |ZoneLabel(zones, targetTimezone)|..] == " " + ZoneLabel(zones, targetTimezone)
  {
    var head := targetHour + ":" + targetMinute;
    var suffix := if !is24Hour then " " + sourceAmPm else "";
    var tail := " " + ZoneLabel(zones, targetTimezone);
    assert (head + suffix + tail)[..|head|] == head;
    assert (head + suffix + tail)[|head + suffix|..] == tail;
    head + suffix + tail
  }

  /**
   * The AM/PM shown after a 12-hour result is the one picked for the
   * source time, whatever hour the target zone shows.
   */
  lemma ResultShowsSourceAmPm(targetHour: string, targetMinute: string, sourceAmPm: string,
                              zones: seq<TimeZone>, targetTimezone: string)
    requires |targetHour| == 2 && |targetMinute| == 2
    ensures var r := ResultText(targetHour, targetMinute, false, sourceAmPm, zones, targetTimezone);
      r[..5] == targetHour + ":" + targetMinute &&
      r[5..6 + |sourceAmPm|] == " " + sourceAmPm
  {
    var r := ResultText(targetHour, targetMinute, false, sourceAmPm, zones, targetTimezone);
    var head := targetHour + ":" + targetMinute;
    assert r == head + (" " + sourceAmPm) + (" " + ZoneLabel(zones, targetTimezone));
    assert |head| == 5;
  }

  /** In 24-hour mode no AM/PM is shown: the hour and minute are followed by the zone's label. */
  lemma ResultWithoutAmPm(targetHour: string, targetMinute: string, sourceAmPm: string,
                          z: TimeZone, zones: seq<TimeZone>)
    requires FindByIana(zones, z.iana) == Some(z)
    ensures ResultText(targetHour, targetMinute, true, sourceAmPm, zones, z.iana) ==
      targetHour + ":" + targetMinute + " " + z.labelText
  {
  }

  /** The hour and AM/PM at the front of a 12-hour result, read back as a 24-hour hour. */
  function ShownHour(r: string): Option<int>
    requires |r| >= 8
  {
    NormalizeHour(ParseInt(r[..2]), r[6..8], false)
  }

  /**
   * 11 PM in America/New_York is 04 AM in Europe/London. Formatted with `hh`,
   * the target hour is "04", and the result still carries the source's "PM",
   * so it reads as 16:00 although the target time is 04:00.
   */
  lemma SourceMeridiemMisreadsTarget(zones: seq<TimeZone>, targetTimezone: string)
    ensures var r := ResultText("04", "00", false, "PM", zones, targetTimezone);
      |r| >= 8 && r[..8] == "04:00 PM" && ShownHour(r) == Some(16)
  {
    var r := ResultText("04", "00", false, "PM", zones, targetTimezone);
    ResultShowsSourceAmPm("04", "00", "PM", zones, targetTimezone);
    assert r[..8] == r[..5] + r[5..8];
    assert r[..2] == "04";
    ParsePaddedDecimal(4);
    assert Padded(4) == "04" by {
      assert DecimalString(4) == [DigitChar(4)];
    }
  }

  /**
   * The result with the target's own AM/PM: the 12-hour reading of the
   * target's 24-hour hour, rather than the AM/PM picked for the source.
   */
  function CorrectedResultText(targetHour24: nat, targetMinute: string, is24Hour: bool,
                               zones: seq<TimeZone>, targetTimezone: string): string
    requires targetHour24 < 24
  {
    if is24Hour then ResultText(Padded(targetHour24), targetMinute, true, "", zones, targetTimezone)
    else
      var twelve := TwelveHourOf(targetHour24);
      ResultText(Padded(twelve.0), targetMinute, false, twelve.1, zones, targetTimezone)
  }

  /** Read back, the corrected 12-hour result shows exactly the target's hour of the day. */
  lemma CorrectedResultReadsBack(targetHour24: nat, targetMinute: string, zones: seq<TimeZone>,
                                 targetTimezone: string)
    requires targetHour24 < 24 && |targetMinute| == 2
    ensures var r := CorrectedResultText(targetHour24, targetMinute, false, zones, targetTimezone);
      |r| >= 8 && ShownHour(r) == Some(targetHour24)
  {
    var twelve := TwelveHourOf(targetHour24);
    TwelveHourSurjective(targetHour24);
    var h: nat := twelve.0;
    DecimalStringLength(h);
    ParsePaddedDecimal(h);
    var r := CorrectedResultText(targetHour24, targetMinute, false, zones, targetTimezone);
    ResultShowsSourceAmPm(Padded(h), targetMinute, twelve.1, zones, targetTimezone);
    assert r[..2] == r[..5][..2] == Padded(h);
    assert r[6..8] == r[5..8][1..] == twelve.1;
  }

  /** A Luxon `DateTime`, opaque to this screen. */
  datatype ZonedTime = ZonedTime(epochMillis: int, zone: string)

  /**
   * The three Luxon calls `handleConvert` makes, each of which may throw:
   * `DateTime.fromObject({ hour, minute }, { zone })` (today's date is
   * read inside Luxon), `setZone` and `toFormat`.
   */
  datatype Luxon = Luxon(
    fromObject: (Option<int>, Option<int>, string) -> Call<ZonedTime>,
    setZone: (ZonedTime, string) -> Call<ZonedTime>,
    toFormat: (ZonedTime, string) -> Call<string>)

  /** How a press of "Convert Time" ends: an alert, or the new target time. */
  datatype ConvertOutcome = SelectionRequired | ConversionError | Converted

  function HourPattern(is24Hour: bool): string {
    if is24Hour then "HH" else "hh"
  }

  /** The target `DateTime` for the chosen source time, or a throw. */
  function TargetDateTime(luxon: Luxon, sourceHour: string, sourceMinute: string, sourceAmPm: string,
                          sourceTimezone: string, targetTimezone: string, is24Hour: bool): (r: Call<ZonedTime>)
    ensures var source := luxon.fromObject(NormalizeHour(ParseInt(sourceHour), sourceAmPm, is24Hour),
                                           ParseInt(sourceMinute), sourceTimezone);
      r.Returned? <==> source.Returned? && luxon.setZone(source.value, targetTimezone).Returned?
  {
    var hour := NormalizeHour(ParseInt(sourceHour), sourceAmPm, is24Hour);
    match luxon.fromObject(hour, ParseInt(sourceMinute), sourceTimezone)
    case Threw => Threw
    case Returned(s) => luxon.setZone(s, targetTimezone)
  }

  class Screen {
    var sourceHour: string
    var sourceMinute: string
    var sourceAmPm: string
    var sourceTimezone: string
    var targetTimezone: string
    var targetHour: string
    var targetMinute: string
    var loading: bool

    /** The initial `useState` values. */
    constructor ()
      ensures sourceHour == "00" && sourceMinute == "00" && sourceAmPm == "AM"
      ensures sourceTimezone == "" && targetTimezone == ""
      ensures targetHour == "00" && targetMinute == "00" && !loading
    {
      sourceHour := "00";
      sourceMinute := "00";
      sourceAmPm := "AM";
      sourceTimezone := "";
      targetTimezone := "";
      targetHour := "00";
      targetMinute := "00";
      loading := false;
    }

    /** The effect on `timeZones`: a non-empty list selects its first zone on both sides. */
    method TimeZonesChanged(zones: seq<TimeZone>)
      modifies this
      ensures |zones| > 0 ==> sourceTimezone == zones[0].iana && targetTimezone == zones[0].iana
      ensures |zones| == 0 ==> sourceTimezone == old(sourceTimezone) && targetTimezone == old(targetTimezone)
      ensures sourceHour == old(sourceHour) && sourceMinute == old(sourceMinute) && sourceAmPm == old(sourceAmPm)
      ensures targetHour == old(targetHour) && targetMinute == old(targetMinute) && loading == old(loading)
    {
      if |zones| > 0 {
        sourceTimezone := zones[0].iana;
        targetTimezone := zones[0].iana;
      }
    }

    /** `handleConvert`. */
    method HandleConvert(is24Hour: bool, luxon: Luxon) returns (outcome: ConvertOutcome)
      modifies this
      ensures sourceHour == old(sourceHour) && sourceMinute == old(sourceMinute) && sourceAmPm == old(sourceAmPm)
      ensures sourceTimezone == old(sourceTimezone) && targetTimezone == old(targetTimezone)
      ensures outcome == SelectionRequired <==> sourceTimezone == "" || targetTimezone == ""
      ensures outcome == SelectionRequired ==>
        targetHour == old(targetHour) && targetMinute == old(targetMinute) && loading == old(loading)
      ensures outcome != SelectionRequired ==> !loading
      ensures var t := TargetDateTime(luxon, sourceHour, sourceMinute, sourceAmPm,
                                      sourceTimezone, targetTimezone, is24Hour);
        outcome == Converted <==>
          outcome != SelectionRequired && t.Returned? &&
          luxon.toFormat(t.value, HourPattern(is24Hour)).Returned? &&
          luxon.toFormat(t.value, "mm").Returned?
      ensures var t := TargetDateTime(luxon, sourceHour, sourceMinute, sourceAmPm,
                                      sourceTimezone, targetTimezone, is24Hour);
        outcome != SelectionRequired ==>
          // the hour is set first, so a throw formatting the minute leaves the new hour on screen
          (if t.Returned? && luxon.toFormat(t.value, HourPattern(is24Hour)).Returned?
           then targetHour == luxon.toFormat(t.value, HourPattern(is24Hour)).value
           else targetHour == old(targetHour)) &&
          (if outcome == Converted
           then targetMinute == luxon.toFormat(t.value, "mm").value
           else targetMinute == old(targetMinute))
    {
      if sourceTimezone == "" || targetTimezone == "" {
        return SelectionRequired;
      }
      loading := true;
      var sourceHourInt := ParseInt(sourceHour);
      if !is24Hour {
        if sourceAmPm == "PM" && sourceHourInt != Some(12) {
          if sourceHourInt.Some? {
            sourceHourInt := Some(sourceHourInt.value + 12);
          }
        } else if sourceAmPm == "AM" && sourceHourInt == Some(12) {
          sourceHourInt := Some(0);
        }
      }
      assert sourceHourInt == NormalizeHour(ParseInt(sourceHour), sourceAmPm, is24Hour);
      outcome := ConversionError;
      var sourceDateTime := luxon.fromObject(sourceHourInt, ParseInt(sourceMinute), sourceTimezone);
      if sourceDateTime.Returned? {
        var targetDateTime := luxon.setZone(sourceDateTime.value, targetTimezone);
        if targetDateTime.Returned? {
          var hourText := luxon.toFormat(targetDateTime.value, HourPattern(is24Hour));
          if hourText.Returned? {
            targetHour := hourText.value;
            var minuteText := luxon.toFormat(targetDateTime.value, "mm");
            if minuteText.Returned? {
              targetMinute := minuteText.value;
              outcome := Converted;
            }
          }
        }
      }
      loading := false;
    }
  }
}
