/** components/types.ts: a time zone as the picker offers it and as the store keeps it. */
module ZoneTypes {
  import opened Wrappers

  /**
   * `TimeZoneOption` and `SelectedTimeZone` have the same four fields;
   * `labelText` is the source's `label`.
   */
  datatype TimeZone = TimeZone(fullName: string, labelText: string, jsName: string, iana: string)

  /** The position of the first zone with this `iana`, if any. */
  function FirstIndexOfIana(zones: seq<TimeZone>, iana: string): (r: Option<nat>)
    ensures r.Some? ==> r.value < |zones| && zones[r.value].iana == iana
    ensures r.Some? ==> forall j :: 0 <= j < r.value ==> zones[j].iana != iana
    ensures r.None? ==> forall k :: 0 <= k < |zones| ==> zones[k].iana != iana
  {
    if zones == [] then None
    else if zones[0].iana == iana then Some(0)
    else match FirstIndexOfIana(zones[1..], iana)
      case None => None
      case Some(k) => Some(k + 1)
  }

  /** `zones.find(z => z.iana === iana)`: the first zone with this `iana`, or undefined. */
  function FindByIana(zones: seq<TimeZone>, iana: string): (r: Option<TimeZone>)
    ensures r.Some? ==> r.value in zones && r.value.iana == iana
    ensures r.None? <==> forall k :: 0 <= k < |zones| ==> zones[k].iana != iana
  {
    match FirstIndexOfIana(zones, iana)
    case None => None
    case Some(k) => Some(zones[k])
  }
}
