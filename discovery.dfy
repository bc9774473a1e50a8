/**
 * The scan callback: which discovery events reach the device list, and
 * what a stream of them does to it.
 */
module Discovery {
  import opened Wrappers
  import opened JsString
  import opened Devices

  /** One call of the scan callback: `(error, device)`; the error is reduced to its message. */
  datatype ScanEvent = ScanEvent(error: Option<string>, device: Option<Advert>)

  /** The filter used when the caller passes no `nameIncludes`. */
  const DEFAULT_NAME_FILTER := "nimble"

  /**
   * `(options.nameIncludes ?? "nimble").toLowerCase()`: the filter is
   * lower-case, and it is "nimble" when no option is given.
   */
  function NameFilter(nameIncludes: Option<string>): (r: string)
    ensures ToLower(r) == r
    ensures nameIncludes.Some? ==> r == ToLower(nameIncludes.value)
    ensures nameIncludes.None? ==> r == "nimble"
  {
    var f := nameIncludes.GetOr(DEFAULT_NAME_FILTER);
    ToLowerIdempotent(f);
    assert ToLower(DEFAULT_NAME_FILTER) == DEFAULT_NAME_FILTER;
    ToLower(f)
  }

  /**
   * The name the filter tests: `(name ?? localName ?? "").trim().toLowerCase()`.
   * It is lower-case, no longer than the advertised name, and empty for a
   * device with neither name.
   */
  function FilterName(d: Advert): (r: string)
    ensures ToLower(r) == r
    ensures |r| <= |AdvertName(d, "")|
    ensures d.name.Some? ==> r == ToLower(Trim(d.name.value))
    ensures d.name.None? && d.localName.Some? ==> r == ToLower(Trim(d.localName.value))
    ensures d.name.None? && d.localName.None? ==> r == ""
  {
    ToLowerIdempotent(Trim(AdvertName(d, "")));
    ToLower(Trim(AdvertName(d, "")))
  }

  /**
   * The callback goes on to upsert: no error, a device, and a name with the
   * filter occurring in it at some offset.
   */
  predicate Kept(filter: string, ev: ScanEvent): (r: bool)
    ensures r <==> ev.error.None? && ev.device.Some? && exists i :: OccursAt(FilterName(ev.device.value), filter, i)
  {
    ev.error.None? && ev.device.Some? && Includes(FilterName(ev.device.value), filter)
  }

  /** The device list after one callback. */
  function OnDiscovery(ds: seq<ScannedDevice>, filter: string, ev: ScanEvent): (r: seq<ScannedDevice>)
    ensures ev.error.Some? ==> r == ds
    ensures ev.device.None? ==> r == ds
    ensures ev.device.Some? && !Includes(FilterName(ev.device.value), filter) ==> r == ds
    ensures Kept(filter, ev) ==> r == Upsert(ds, ev.device.value)
  {
    if Kept(filter, ev) then Upsert(ds, ev.device.value) else ds
  }

  /**
   * The device list after a sequence of callbacks, in order. Ids stay unique,
   * and the list grows by at most one entry per event.
   */
  function DiscoverAll(ds: seq<ScannedDevice>, filter: string, evs: seq<ScanEvent>): (r: seq<ScannedDevice>)
    ensures UniqueIds(ds) ==> UniqueIds(r)
    ensures |ds| <= |r| <= |ds| + |evs|
    decreases |evs|
  {
    if evs == [] then ds
    else
      KeptKeepsIdsUnique(ds, filter, evs[0]);
      DiscoverAll(OnDiscovery(ds, filter, evs[0]), filter, evs[1..])
  }

  /** One callback keeps ids unique. */
  lemma KeptKeepsIdsUnique(ds: seq<ScannedDevice>, filter: string, ev: ScanEvent)
    ensures UniqueIds(ds) ==> UniqueIds(OnDiscovery(ds, filter, ev))
  {
    if UniqueIds(ds) && Kept(filter, ev) {
      UpsertKeepsIdsUnique(ds, ev.device.value);
    }
  }

  // ---------------------------------------------------------------------------
  // Properties

  /** The filter is case-insensitive in its option: spelling it in another case changes nothing. */
  lemma FilterIgnoresCase(nameIncludes: string)
    ensures NameFilter(Some(ToLower(nameIncludes))) == NameFilter(Some(nameIncludes))
  {
    ToLowerIdempotent(nameIncludes);
  }

  /**
   * A kept device's stored name, lower-cased, contains the filter. The two
   * fallbacks differ ("" for the test, "Unnamed" for the entry), but a
   * nameless device passes only the empty filter, which every name contains.
   */
  lemma KeptEntryMatches(filter: string, ev: ScanEvent)
    requires Kept(filter, ev)
    ensures Includes(ToLower(Entry(ev.device.value).name), filter)
  {
    var d := ev.device.value;
    if d.name.None? && d.localName.None? {
      TrimNoEdgeSpace("");
      IncludesEmpty(ToLower(Entry(d).name), filter);
    }
  }

  /** With a non-empty filter, a device with neither `name` nor `localName` never reaches the list. */
  lemma NamelessDropped(filter: string, ev: ScanEvent)
    requires filter != "" && ev.device.Some?
    requires ev.device.value.name.None? && ev.device.value.localName.None?
    ensures !Kept(filter, ev)
  {
    TrimNoEdgeSpace("");
    IncludesEmpty("", filter);
  }

  /** Callbacks, one by one: processing `evs + [ev]` is processing `evs` and then `ev`. */
  lemma {:induction false} DiscoverAllSnoc(ds: seq<ScannedDevice>, filter: string, evs: seq<ScanEvent>, ev: ScanEvent)
    ensures DiscoverAll(ds, filter, evs + [ev]) == OnDiscovery(DiscoverAll(ds, filter, evs), filter, ev)
    decreases |evs|
  {
    if evs == [] {
      assert [ev][1..] == [];
    } else {
      assert (evs + [ev])[1..] == evs[1..] + [ev];
      DiscoverAllSnoc(OnDiscovery(ds, filter, evs[0]), filter, evs[1..], ev);
    }
  }

  /** Three callbacks in a row. */
  lemma DiscoverAllThree(ds: seq<ScannedDevice>, filter: string, e1: ScanEvent, e2: ScanEvent, e3: ScanEvent)
    ensures DiscoverAll(ds, filter, [e1, e2, e3])
      == OnDiscovery(OnDiscovery(OnDiscovery(ds, filter, e1), filter, e2), filter, e3)
  {
    var d1 := OnDiscovery(ds, filter, e1);
    var d2 := OnDiscovery(d1, filter, e2);
    calc {
      DiscoverAll(ds, filter, [e1, e2, e3]);
      { assert [e1, e2, e3][1..] == [e2, e3]; }
      DiscoverAll(d1, filter, [e2, e3]);
      { assert [e2, e3][1..] == [e3]; }
      DiscoverAll(d2, filter, [e3]);
      { assert [e3][1..] == []; }
      DiscoverAll(OnDiscovery(d2, filter, e3), filter, []);
    }
  }

  /** A stream of events none of which passes the filter leaves the list as it was. */
  lemma {:induction false} DroppedEventsIgnored(ds: seq<ScannedDevice>, filter: string, evs: seq<ScanEvent>)
    requires forall k :: 0 <= k < |evs| ==> !Kept(filter, evs[k])
    ensures DiscoverAll(ds, filter, evs) == ds
    decreases |evs|
  {
    if evs != [] {
      assert !Kept(filter, evs[0]);
      DroppedEventsIgnored(ds, filter, evs[1..]);
    }
  }

  /**
   * The latest kept sighting wins: after it, the list holds exactly one entry
   * for its id, built from that sighting.
   */
  lemma LatestSightingWins(ds: seq<ScannedDevice>, filter: string, evs: seq<ScanEvent>, ev: ScanEvent)
    requires UniqueIds(ds) && Kept(filter, ev)
    ensures var r := DiscoverAll(ds, filter, evs + [ev]);
      exists k :: 0 <= k < |r| && r[k] == Entry(ev.device.value)
        && forall j :: 0 <= j < |r| && r[j].id == ev.device.value.id ==> j == k
  {
    DiscoverAllSnoc(ds, filter, evs, ev);
    UpsertSingleEntry(DiscoverAll(ds, filter, evs), ev.device.value);
  }

  /** "NimbleWatch" lower-cases to a string that starts with "nimble". */
  lemma NimbleWatchMatches()
    ensures Includes(ToLower("NimbleWatch"), "nimble")
  {
    var lower := ToLower("NimbleWatch");
    assert lower[..6] == "nimble" by {
      assert lower[0] == LowerChar('N') == 'n';
    }
  }

  /** "NimbleWatch" passes the filter "nimble" and is stored as it is. */
  lemma NimbleWatchKept(id: string, rssi: int)
    ensures var d := Advert(id, Some("NimbleWatch"), None, Some(rssi));
      Kept("nimble", ScanEvent(None, Some(d))) && Entry(d) == ScannedDevice(id, "NimbleWatch", Some(rssi))
  {
    TrimNoEdgeSpace("NimbleWatch");
    NimbleWatchMatches();
  }

  /** "Other" does not pass the filter "nimble". */
  lemma OtherDropped(id: string, rssi: int)
    ensures !Kept("nimble", ScanEvent(None, Some(Advert(id, Some("Other"), None, Some(rssi)))))
  {
    TrimNoEdgeSpace("Other");
  }

  /** A kept sighting of the only device in the list replaces its entry. */
  lemma ResightReplaces(e: ScannedDevice, filter: string, ev: ScanEvent)
    requires Kept(filter, ev) && e.id == ev.device.value.id
    ensures OnDiscovery([e], filter, ev) == [Entry(ev.device.value)]
  {
    assert [e][0].id == ev.device.value.id;
  }

  /** A second sighting of A "NimbleWatch", now at -35, replaces the entry from the first one. */
  lemma NimbleWatchResighted()
    ensures OnDiscovery([ScannedDevice("A", "NimbleWatch", Some(-40))], "nimble",
      ScanEvent(None, Some(Advert("A", Some("NimbleWatch"), None, Some(-35)))))
      == [ScannedDevice("A", "NimbleWatch", Some(-35))]
  {
    var ev := ScanEvent(None, Some(Advert("A", Some("NimbleWatch"), None, Some(-35))));
    NimbleWatchKept("A", -35);
    ResightReplaces(ScannedDevice("A", "NimbleWatch", Some(-40)), "nimble", ev);
  }

  /**
   * Filter "nimble": A "NimbleWatch" at -40, B "Other" at -50, then A
   * "NimbleWatch" at -35 leave a single entry for A at -35.
   */
  lemma NimbleWatchScenario()
    ensures DiscoverAll([], "nimble", [
      ScanEvent(None, Some(Advert("A", Some("NimbleWatch"), None, Some(-40)))),
      ScanEvent(None, Some(Advert("B", Some("Other"), None, Some(-50)))),
      ScanEvent(None, Some(Advert("A", Some("NimbleWatch"), None, Some(-35))))])
      == [ScannedDevice("A", "NimbleWatch", Some(-35))]
  {
    var a1 := ScanEvent(None, Some(Advert("A", Some("NimbleWatch"), None, Some(-40))));
    var b := ScanEvent(None, Some(Advert("B", Some("Other"), None, Some(-50))));
    var a2 := ScanEvent(None, Some(Advert("A", Some("NimbleWatch"), None, Some(-35))));
    DiscoverAllThree([], "nimble", a1, b, a2);
    var after1 := OnDiscovery([], "nimble", a1);
    assert after1 == [ScannedDevice("A", "NimbleWatch", Some(-40))] by {
      NimbleWatchKept("A", -40);
    }
    assert OnDiscovery(after1, "nimble", b) == after1 by {
      OtherDropped("B", -50);
    }
    NimbleWatchResighted();
  }
}
