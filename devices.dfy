/**
 * The scanner's device list: a sequence of scanned devices keyed by id,
 * and the upsert that folds one sighting into it.
 */
module Devices {
  import opened Wrappers
  import opened JsString

  /** What the radio reports about a peripheral: `Device` of react-native-ble-plx, reduced to the fields read here. */
  datatype Advert = Advert(id: string, name: Option<string>, localName: Option<string>, rssi: Option<int>)

  /** One row of the device list (`ScannedDevice`). */
  datatype ScannedDevice = ScannedDevice(id: string, name: string, rssi: Option<int>)

  /** `d.name ?? d.localName ?? fallback`: the first name that is not null. */
  function AdvertName(d: Advert, fallback: string): (r: string)
    ensures d.name.Some? ==> r == d.name.value
    ensures d.name.None? && d.localName.Some? ==> r == d.localName.value
    ensures d.name.None? && d.localName.None? ==> r == fallback
  {
    d.name.GetOr(d.localName.GetOr(fallback))
  }

  /**
   * The name stored for a device: `(name ?? localName ?? "Unnamed").trim()`.
   * The first non-null name is trimmed; a device with neither is "Unnamed".
   */
  function DisplayName(d: Advert): (r: string)
    ensures d.name.Some? ==> r == Trim(d.name.value)
    ensures d.name.None? && d.localName.Some? ==> r == Trim(d.localName.value)
    ensures d.name.None? && d.localName.None? ==> r == "Unnamed"
  {
    TrimNoEdgeSpace("Unnamed");
    Trim(AdvertName(d, "Unnamed"))
  }

  /** The list entry built from a sighting. */
  function Entry(d: Advert): (r: ScannedDevice)
    ensures r.id == d.id && r.name == DisplayName(d) && r.rssi == d.rssi
  {
    ScannedDevice(d.id, DisplayName(d), d.rssi)
  }

  predicate HasId(ds: seq<ScannedDevice>, id: string) {
    exists k :: 0 <= k < |ds| && ds[k].id == id
  }

  /** No id occurs twice in the list. */
  predicate UniqueIds(ds: seq<ScannedDevice>) {
    forall i, j :: 0 <= i < j < |ds| ==> ds[i].id != ds[j].id
  }

  /** `ds.findIndex(x => x.id === id)`: the first index holding `id`, or -1. */
  function FindIndex(ds: seq<ScannedDevice>, id: string): (r: int)
    ensures -1 <= r < |ds|
    ensures r == -1 <==> !HasId(ds, id)
    ensures 0 <= r ==> ds[r].id == id && forall k :: 0 <= k < r ==> ds[k].id != id
  {
    if ds == [] then -1
    else if ds[0].id == id then 0
    else
      var j := FindIndex(ds[1..], id);
      if j == -1 then -1 else j + 1
  }

  /**
   * The `setDevices` updater of `upsertDevice`: a known id has its entry
   * replaced where it stands; a new id is put in front of the list.
   */
  function Upsert(ds: seq<ScannedDevice>, d: Advert): (r: seq<ScannedDevice>)
    ensures HasId(ds, d.id) ==>
      var i := FindIndex(ds, d.id);
      && |r| == |ds|
      && r[i] == Entry(d)
      && forall k :: 0 <= k < |ds| && k != i ==> r[k] == ds[k]
    ensures !HasId(ds, d.id) ==>
      && |r| == |ds| + 1
      && r[0] == Entry(d)
      && forall k :: 0 <= k < |ds| ==> r[k + 1] == ds[k]
  {
    var i := FindIndex(ds, d.id);
    if i >= 0 then ds[i := Entry(d)] else [Entry(d)] + ds
  }

  // ---------------------------------------------------------------------------
  // Properties

  /** Upserting keeps ids unique. */
  lemma UpsertKeepsIdsUnique(ds: seq<ScannedDevice>, d: Advert)
    requires UniqueIds(ds)
    ensures UniqueIds(Upsert(ds, d))
  {
    var r := Upsert(ds, d);
    if !HasId(ds, d.id) {
      forall i, j | 0 <= i < j < |r| ensures r[i].id != r[j].id {
        if i > 0 {
          assert r[i] == ds[i - 1] && r[j] == ds[j - 1];
        } else {
          assert r[j] == ds[j - 1];
        }
      }
    }
  }

  /**
   * After an upsert of a unique-id list, exactly one entry carries the
   * sighted id, and it holds the latest name and signal strength.
   */
  lemma UpsertSingleEntry(ds: seq<ScannedDevice>, d: Advert)
    requires UniqueIds(ds)
    ensures var r := Upsert(ds, d);
      exists k :: 0 <= k < |r| && r[k] == Entry(d) && forall j :: 0 <= j < |r| && r[j].id == d.id ==> j == k
  {
    var r := Upsert(ds, d);
    UpsertKeepsIdsUnique(ds, d);
    var k := if HasId(ds, d.id) then FindIndex(ds, d.id) else 0;
    assert r[k] == Entry(d);
  }

  /** The set of ids in the list. */
  function Ids(ds: seq<ScannedDevice>): set<string> {
    set k | 0 <= k < |ds| :: ds[k].id
  }

  /**
   * Every entry already in the list keeps its place relative to the others:
   * its id stays at its index when the sighted id was known, and moves down
   * by one when a new device is prepended.
   */
  lemma UpsertKeepsOrder(ds: seq<ScannedDevice>, d: Advert)
    ensures var r := Upsert(ds, d); var shift := if HasId(ds, d.id) then 0 else 1;
      forall k :: 0 <= k < |ds| ==> r[k + shift].id == ds[k].id
  {
  }

  /** An upsert adds the sighted id to the ids of the list and no other. */
  lemma UpsertIds(ds: seq<ScannedDevice>, d: Advert)
    ensures Ids(Upsert(ds, d)) == Ids(ds) + {d.id}
  {
    var r := Upsert(ds, d);
    var shift := if HasId(ds, d.id) then 0 else 1;
    var i := if HasId(ds, d.id) then FindIndex(ds, d.id) else 0;
    forall x | x in Ids(r) ensures x in Ids(ds) + {d.id} {
      var k :| 0 <= k < |r| && r[k].id == x;
      if k != i { assert ds[k - shift].id == x; }
    }
    forall x | x in Ids(ds) ensures x in Ids(r) {
      var k :| 0 <= k < |ds| && ds[k].id == x;
      assert r[k + shift].id == x;
    }
    assert r[i].id == d.id;
  }

  /**
   * A present but blank `name` is not replaced by `localName` or "Unnamed":
   * `??` only skips null, so the stored name is the empty string.
   */
  lemma BlankNameIsEmpty(d: Advert)
    requires d.name.Some? && AllSpace(d.name.value)
    ensures Entry(d).name == ""
  {
    TrimAllSpace(d.name.value);
  }
}
