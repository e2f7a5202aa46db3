/**
 * components/TimeZoneForm.tsx: the "Add Time Zone" form. Picking an IANA
 * name selects a zone of the list and resets the label; submitting yields
 * the selected zone under the trimmed custom label, or under its own label
 * when the custom one is blank.
 */
module TimeZoneForm {
  import opened Wrappers
  import opened JsStrings
  import opened ZoneTypes

  /** `zones.find((z) => z.iana === iana) || zones[0]`. */
  function ZoneForIana(zones: seq<TimeZone>, iana: string): (r: TimeZone)
    requires |zones| > 0
    ensures r in zones
    ensures r.iana == iana || r == zones[0]
  {
    match FindByIana(zones, iana)
    case Some(z) => z
    case None => zones[0]
  }

  /** The zone chosen is the first one with that `iana`. */
  lemma ZoneForIanaFirstMatch(zones: seq<TimeZone>, iana: string, k: nat)
    requires k < |zones| && zones[k].iana == iana
    requires forall j :: 0 <= j < k ==> zones[j].iana != iana
    ensures ZoneForIana(zones, iana) == zones[k]
  {
  }

  /** A name no zone carries falls back to the first zone. */
  lemma ZoneForIanaFallback(zones: seq<TimeZone>, iana: string)
    requires |zones| > 0
    requires forall k :: 0 <= k < |zones| ==> zones[k].iana != iana
    ensures ZoneForIana(zones, iana) == zones[0]
  {
  }

  /**
   * A zone whose `iana` an earlier entry already carries can never be
   * selected (unless it equals an earlier entry): the earlier one shadows it.
   */
  lemma ShadowedZoneUnreachable(zones: seq<TimeZone>, j: nat, k: nat, iana: string)
    requires j < k < |zones| && zones[j].iana == zones[k].iana
    requires zones[k] !in zones[..k]
    ensures ZoneForIana(zones, iana) != zones[k]
  {
    assert zones[0] in zones[..k];
  }

  /** The first entries of utils/zones.ts: two zones share Australia/Adelaide. */
  const SampleZones: seq<TimeZone> := [
    TimeZone("ACDT - Australian Central Daylight (UTC+10:30)", "ACDT (UTC+10:30)",
             "Australian Central Daylight Time", "Australia/Adelaide"),
    TimeZone("ACST - Australian Central Standard (UTC+9.5)", "ACST (UTC+9.5)",
             "Australian Central Standard Time", "Australia/Adelaide"),
    TimeZone("ACWST - Australian Central Western Standard (UTC+8.75)", "ACWST (UTC+8.75)",
             "Australian Central Western Standard Time", "Australia/Eucla")
  ]

  /** ACST cannot be picked: choosing Australia/Adelaide always selects ACDT. */
  lemma SampleStandardTimeUnreachable(iana: string)
    ensures ZoneForIana(SampleZones, iana) != SampleZones[1]
    ensures ZoneForIana(SampleZones, "Australia/Adelaide") == SampleZones[0]
  {
    assert SampleZones[1] != SampleZones[0];
    ShadowedZoneUnreachable(SampleZones, 0, 1, iana);
    ZoneForIanaFirstMatch(SampleZones, "Australia/Adelaide", 0);
  }

  /** `label.trim() || selectedZone.label`. */
  function SubmittedLabel(selected: TimeZone, customLabel: string): string {
    if Trim(customLabel) != [] then Trim(customLabel) else selected.labelText
  }

  /** `{ ...selectedZone, label: label.trim() || selectedZone.label }`. */
  function SubmittedZone(selected: TimeZone, customLabel: string): (r: TimeZone)
    ensures r.fullName == selected.fullName && r.jsName == selected.jsName && r.iana == selected.iana
    ensures r.labelText == SubmittedLabel(selected, customLabel)
  {
    selected.(labelText := SubmittedLabel(selected, customLabel))
  }

  /**
   * The label is the user's text without surrounding white space when it has
   * any other character, and the zone's own label when it is blank.
   */
  lemma SubmittedLabelChoice(selected: TimeZone, customLabel: string)
    ensures !AllWhitespace(customLabel) ==>
      SubmittedLabel(selected, customLabel) == Trim(customLabel) &&
      !IsWhitespace(Trim(customLabel)[0]) && !IsWhitespace(Trim(customLabel)[|Trim(customLabel)| - 1])
    ensures AllWhitespace(customLabel) ==> SubmittedLabel(selected, customLabel) == selected.labelText
  {
    TrimEmptyIffWhitespace(customLabel);
  }

  /** Submitting again with the label just submitted changes nothing, when the zone's own label is trimmed. */
  lemma ResubmitIsStable(selected: TimeZone, customLabel: string)
    requires Trim(selected.labelText) == selected.labelText
    ensures SubmittedZone(selected, SubmittedZone(selected, customLabel).labelText) == SubmittedZone(selected, customLabel)
  {
    TrimIdempotent(customLabel);
  }

  class Form {
    const zones: seq<TimeZone>
    var selectedZone: TimeZone
    /** The `label` text field. */
    var customLabel: string

    /** The initial state: the first zone and its label. */
    constructor (zones: seq<TimeZone>)
      requires |zones| > 0
      ensures this.zones == zones
      ensures selectedZone == zones[0] && customLabel == zones[0].labelText
    {
      this.zones := zones;
      selectedZone := zones[0];
      customLabel := zones[0].labelText;
    }

    /** `handleZoneChange`: select the zone for `iana` and reset the label to its own. */
    method HandleZoneChange(iana: string)
      requires |zones| > 0
      modifies this
      ensures selectedZone == ZoneForIana(zones, iana)
      ensures customLabel == selectedZone.labelText
    {
      var zone := ZoneForIana(zones, iana);
      selectedZone := zone;
      customLabel := zone.labelText;
    }

    /** `onChangeText={setLabel}`. */
    method SetLabel(text: string)
      modifies this
      ensures customLabel == text && selectedZone == old(selectedZone)
    {
      customLabel := text;
    }

    /** `handleSubmit`: the zone handed to `onSubmit`. The form's state is not changed. */
    method HandleSubmit() returns (newTimeZone: TimeZone)
      ensures newTimeZone.fullName == selectedZone.fullName
      ensures newTimeZone.jsName == selectedZone.jsName && newTimeZone.iana == selectedZone.iana
      ensures Trim(customLabel) != [] ==> newTimeZone.labelText == Trim(customLabel)
      ensures Trim(customLabel) == [] ==> newTimeZone.labelText == selectedZone.labelText
    {
      newTimeZone := SubmittedZone(selectedZone, customLabel);
    }
  }
}
