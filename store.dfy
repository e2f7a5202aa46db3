/**
 * store.tsx: the zustand store holding the user's favourite time zones and
 * the 12h/24h preference. AsyncStorage reads are parameters of the load
 * methods; the values the methods write back are their results.
 */
module Store {
  import opened Wrappers
  import opened ZoneTypes

  /** `JSON.parse` of the stored time zones: an array, or some other JSON value. */
  datatype Parsed = ParsedArray(zones: seq<TimeZone>) | ParsedOther

  /** Some entry has this `iana`. */
  predicate HasIana(zones: seq<TimeZone>, iana: string) {
    exists k :: 0 <= k < |zones| && zones[k].iana == iana
  }

  /** No two entries share an `iana`. */
  predicate UniqueIana(zones: seq<TimeZone>) {
    forall i, j :: 0 <= i < j < |zones| ==> zones[i].iana != zones[j].iana
  }

  /** `zones.filter(zone => zone.iana !== iana)`. */
  function RemoveIana(zones: seq<TimeZone>, iana: string): (r: seq<TimeZone>)
    ensures |r| <= |zones|
    ensures forall z :: z in r <==> z in zones && z.iana != iana
  {
    if zones == [] then []
    else if zones[0].iana == iana then RemoveIana(zones[1..], iana)
    else [zones[0]] + RemoveIana(zones[1..], iana)
  }

  /** Filtering distributes over concatenation, so the kept entries stay in order. */
  lemma {:induction false} RemoveIanaConcat(a: seq<TimeZone>, b: seq<TimeZone>, iana: string)
    ensures RemoveIana(a + b, iana) == RemoveIana(a, iana) + RemoveIana(b, iana)
  {
    if a != [] {
      assert (a + b)[1..] == a[1..] + b;
      RemoveIanaConcat(a[1..], b, iana);
    } else {
      assert a + b == b;
    }
  }

  /** Deleting an absent `iana` changes nothing. */
  lemma {:induction false} RemoveAbsentIana(zones: seq<TimeZone>, iana: string)
    requires !HasIana(zones, iana)
    ensures RemoveIana(zones, iana) == zones
  {
    if zones != [] {
      assert !HasIana(zones[1..], iana) by {
        forall k | 0 <= k < |zones| - 1 ensures zones[1..][k].iana != iana {
          assert zones[1..][k] == zones[k + 1];
        }
      }
      RemoveAbsentIana(zones[1..], iana);
      assert zones == [zones[0]] + zones[1..];
    }
  }

  /** The tail of a duplicate-free list does not repeat its head's `iana`. */
  lemma TailOmitsHeadIana(zones: seq<TimeZone>)
    requires zones != [] && UniqueIana(zones)
    ensures UniqueIana(zones[1..]) && !HasIana(zones[1..], zones[0].iana)
  {
    var rest := zones[1..];
    forall k | 0 <= k < |rest| ensures rest[k] == zones[k + 1] { }
  }

  /** A zone put in front of a duplicate-free list that lacks its `iana` keeps it duplicate-free. */
  lemma ConsKeepsUnique(z: TimeZone, zones: seq<TimeZone>)
    requires UniqueIana(zones) && !HasIana(zones, z.iana)
    ensures UniqueIana([z] + zones)
  {
    var r := [z] + zones;
    forall i, j | 0 <= i < j < |r| ensures r[i].iana != r[j].iana {
      assert r[j] == zones[j - 1];
      if i > 0 { assert r[i] == zones[i - 1]; }
    }
  }

  /** Filtering introduces no new `iana`. */
  lemma {:induction false} RemoveIanaKeepsOnlyListed(zones: seq<TimeZone>, iana: string, x: string)
    requires HasIana(RemoveIana(zones, iana), x)
    ensures HasIana(zones, x)
  {
    var k :| 0 <= k < |RemoveIana(zones, iana)| && RemoveIana(zones, iana)[k].iana == x;
    var z := RemoveIana(zones, iana)[k];
    assert z in zones;
    var m :| 0 <= m < |zones| && zones[m] == z;
  }

  /** Deleting keeps the list free of duplicates. */
  lemma {:induction false} RemoveIanaKeepsUnique(zones: seq<TimeZone>, iana: string)
    requires UniqueIana(zones)
    ensures UniqueIana(RemoveIana(zones, iana))
  {
    if zones != [] {
      var rest := zones[1..];
      TailOmitsHeadIana(zones);
      RemoveIanaKeepsUnique(rest, iana);
      if zones[0].iana != iana {
        if HasIana(RemoveIana(rest, iana), zones[0].iana) {
          RemoveIanaKeepsOnlyListed(rest, iana, zones[0].iana);
        }
        ConsKeepsUnique(zones[0], RemoveIana(rest, iana));
      }
    }
  }

  /** Appending a zone whose `iana` is new keeps the list free of duplicates. */
  lemma AppendKeepsUnique(zones: seq<TimeZone>, z: TimeZone)
    requires UniqueIana(zones) && !HasIana(zones, z.iana)
    ensures UniqueIana(zones + [z])
  {
    var r := zones + [z];
    forall i, j | 0 <= i < j < |r| ensures r[i].iana != r[j].iana {
      if j == |zones| {
        assert r[i] == zones[i];
      } else {
        assert r[i] == zones[i] && r[j] == zones[j];
      }
    }
  }

  /** The AsyncStorage value for a time format. */
  function FormatSetting(is24Hour: bool): (s: string)
    ensures s == "24" <==> is24Hour
  {
    if is24Hour then "24" else "12"
  }

  class TimeZoneStore {
    var timeZones: seq<TimeZone>
    var is24Hour: bool

    constructor ()
      ensures timeZones == [] && !is24Hour
    {
      timeZones := [];
      is24Hour := false;
    }

    /** `loadTimeFormat`: 24-hour exactly when the stored string is "24"; a failed read changes nothing. */
    method LoadTimeFormat(stored: Call<Option<string>>)
      modifies this
      ensures timeZones == old(timeZones)
      ensures stored.Threw? ==> is24Hour == old(is24Hour)
      ensures stored.Returned? ==> (is24Hour <==> stored.value == Some("24"))
    {
      if stored.Returned? {
        is24Hour := stored.value == Some("24");
      }
    }

    /** `toggleTimeFormat`: flips the preference and returns the string it saves. */
    method ToggleTimeFormat() returns (saved: string)
      modifies this
      ensures is24Hour == !old(is24Hour) && timeZones == old(timeZones)
      ensures saved == FormatSetting(is24Hour)
    {
      var newFormat := !is24Hour;
      saved := FormatSetting(newFormat);
      is24Hour := newFormat;
    }

    /**
     * `loadTimeZones`: a stored array replaces the list, any other parsed
     * value or a failure empties it, and nothing stored (null or "") leaves it.
     */
    method LoadTimeZones(stored: Call<Option<string>>, parse: string -> Call<Parsed>)
      modifies this
      ensures is24Hour == old(is24Hour)
      ensures stored.Threw? ==> timeZones == []
      ensures stored.Returned? && (stored.value.None? || stored.value == Some("")) ==> timeZones == old(timeZones)
      ensures stored.Returned? && stored.value.Some? && stored.value.value != "" ==>
                timeZones == match parse(stored.value.value)
                             case Threw => []
                             case Returned(ParsedOther) => []
                             case Returned(ParsedArray(zones)) => zones
    {
      match stored {
        case Threw =>
          timeZones := [];
        case Returned(None) =>
        case Returned(Some(text)) =>
          if text != "" {
            match parse(text) {
              case Threw => timeZones := [];
              case Returned(ParsedOther) => timeZones := [];
              case Returned(ParsedArray(zones)) => timeZones := zones;
            }
          }
      }
    }

    /**
     * `addTimeZone`: a zone whose `iana` is already listed is refused with an
     * alert; otherwise it is appended and the new list is saved.
     */
    method AddTimeZone(newZone: TimeZone) returns (duplicate: bool, saved: Option<seq<TimeZone>>)
      modifies this
      ensures is24Hour == old(is24Hour)
      ensures duplicate <==> HasIana(old(timeZones), newZone.iana)
      ensures duplicate ==> timeZones == old(timeZones) && saved == None
      ensures !duplicate ==> timeZones == old(timeZones) + [newZone] && saved == Some(timeZones)
      ensures UniqueIana(old(timeZones)) ==> UniqueIana(timeZones)
    {
      duplicate := FindByIana(timeZones, newZone.iana).Some?;
      if duplicate {
        saved := None;
      } else {
        if UniqueIana(timeZones) {
          AppendKeepsUnique(timeZones, newZone);
        }
        timeZones := timeZones + [newZone];
        saved := Some(timeZones);
      }
    }

    /** `deleteTimeZone`: drops every entry with this `iana`, keeps the rest in order, and saves. */
    method DeleteTimeZone(iana: string) returns (saved: seq<TimeZone>)
      modifies this
      ensures is24Hour == old(is24Hour)
      ensures timeZones == RemoveIana(old(timeZones), iana) && saved == timeZones
      ensures !HasIana(old(timeZones), iana) ==> timeZones == old(timeZones)
      ensures UniqueIana(old(timeZones)) ==> UniqueIana(timeZones)
    {
      if UniqueIana(timeZones) {
        RemoveIanaKeepsUnique(timeZones, iana);
      }
      if !HasIana(timeZones, iana) {
        RemoveAbsentIana(timeZones, iana);
      }
      timeZones := RemoveIana(timeZones, iana);
      saved := timeZones;
    }
  }
}
