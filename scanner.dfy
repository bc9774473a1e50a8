/**
 * The scan/connect session controller of `useBleScanner`: the session
 * fields and the handlers that update them. Every handler runs as one
 * atomic step; what the BLE manager and the OS answer is passed in.
 */
module Scanner {
  import opened Wrappers
  import opened JsString
  import opened Devices
  import opened Discovery
  import opened Adapter

  /** A request the controller makes of the BLE manager, with the options it passes. */
  datatype RadioRequest =
    | StartDeviceScan(allowDuplicates: bool)
    | StopDeviceScan
    | ConnectToDevice(deviceId: string, autoConnect: bool)
    | DiscoverAllServicesAndCharacteristics(deviceId: string)
    | CancelDeviceConnection(deviceId: string)

  /** How `connectToDevice`, and then service discovery on the device it returns, settle. */
  datatype ConnectOutcome =
    | ConnectRejected
    | DiscoveryRejected(device: Advert)
    | Ready(device: Advert)

  class BleScanner {
    /** The lower-cased name filter, fixed by the hook's options. */
    const nameFilter: string
    var bleState: Option<AdapterState>
    var isScanning: bool
    var devices: seq<ScannedDevice>
    var connectingId: Option<string>
    var connectedId: Option<string>
    var connectedName: Option<string>
    /** The requests made of the BLE manager so far, oldest first. */
    ghost var requests: seq<RadioRequest>

    ghost predicate Valid()
      reads this
    {
      UniqueIds(devices) && ToLower(nameFilter) == nameFilter
    }

    /** The hook's initial state for the options `{ nameIncludes }`. */
    constructor (nameIncludes: Option<string>)
      ensures Valid()
      ensures nameFilter == NameFilter(nameIncludes)
      ensures bleState == None && !isScanning && devices == []
      ensures connectingId == None && connectedId == None && connectedName == None
      ensures requests == []
    {
      nameFilter := NameFilter(nameIncludes);
      bleState := None;
      isScanning := false;
      devices := [];
      connectingId := None;
      connectedId := None;
      connectedName := None;
      requests := [];
      ToLowerIdempotent(nameIncludes.GetOr(DEFAULT_NAME_FILTER));
    }

    /** The `onStateChange` subscription delivers a new adapter state. */
    method OnAdapterState(s: AdapterState)
      requires Valid()
      modifies this`bleState
      ensures Valid()
      ensures bleState == Some(s)
    {
      bleState := Some(s);
    }

    /** `stopScan`: does nothing unless scanning; otherwise stops the radio scan. */
    method StopScan()
      requires Valid()
      modifies this`isScanning, this`requests
      ensures Valid()
      ensures !isScanning
      ensures requests == old(requests) + (if old(isScanning) then [StopDeviceScan] else [])
    {
      if !isScanning {
        return;
      }
      requests := requests + [StopDeviceScan];
      isScanning := false;
    }

    /** `startScan`: clears the list and starts a scan with duplicates suppressed and no service filter. */
    method StartScan()
      requires Valid()
      modifies this`devices, this`isScanning, this`requests
      ensures Valid()
      ensures devices == [] && isScanning
      ensures requests == old(requests) + [StartDeviceScan(false)]
    {
      devices := [];
      isScanning := true;
      requests := requests + [StartDeviceScan(false)];
    }

    /**
     * The scan callback. An error, a missing device or a name without the
     * filter leaves the list alone; otherwise the device is upserted. On an
     * error the callback calls `stopScan`, but the one it holds was built
     * when `isScanning` was still false, so that call does nothing.
     */
    method OnScanEvent(ev: ScanEvent)
      requires Valid()
      modifies this`devices
      ensures Valid()
      ensures devices == OnDiscovery(old(devices), nameFilter, ev)
    {
      if ev.error.Some? {
        return;
      }
      if ev.device.None? {
        return;
      }
      var name := ToLower(Trim(AdvertName(ev.device.value, "")));
      if !Includes(name, nameFilter) {
        return;
      }
      UpsertKeepsIdsUnique(devices, ev.device.value);
      devices := Upsert(devices, ev.device.value);
    }

    /**
     * `toggleScan`: stops a running scan; otherwise starts one if the OS
     * granted the permissions and the adapter is powered on.
     */
    method ToggleScan(permissionGranted: bool)
      requires Valid()
      modifies this`devices, this`isScanning, this`requests
      ensures Valid()
      ensures old(isScanning) ==>
        !isScanning && devices == old(devices) && requests == old(requests) + [StopDeviceScan]
      ensures !old(isScanning) && !(permissionGranted && bleState == Some(PoweredOn)) ==>
        !isScanning && devices == old(devices) && requests == old(requests)
      ensures !old(isScanning) && permissionGranted && bleState == Some(PoweredOn) ==>
        isScanning && devices == [] && requests == old(requests) + [StartDeviceScan(false)]
      ensures isScanning ==> permissionGranted && bleState == Some(PoweredOn)
    {
      if isScanning {
        StopScan();
        return;
      }
      if !permissionGranted {
        return;
      }
      if bleState != Some(PoweredOn) {
        return;
      }
      StartScan();
    }

    /**
     * `connectToScannedDevice`: stops any scan, marks the device as
     * connecting, connects and discovers its services; records the device on
     * success and clears the connection on failure; always clears the mark.
     */
    method ConnectToScannedDevice(deviceId: string, outcome: ConnectOutcome)
      requires Valid()
      modifies this`isScanning, this`connectingId, this`connectedId, this`connectedName, this`requests
      ensures Valid()
      ensures !isScanning && connectingId == None
      ensures outcome.Ready? ==>
        connectedId == Some(outcome.device.id) && connectedName == Some(DisplayName(outcome.device))
      ensures !outcome.Ready? ==> connectedId == None && connectedName == None
      ensures requests == old(requests)
        + (if old(isScanning) then [StopDeviceScan] else [])
        + [ConnectToDevice(deviceId, false)]
        + (if outcome.ConnectRejected? then [] else [DiscoverAllServicesAndCharacteristics(outcome.device.id)])
    {
      StopScan();
      connectingId := Some(deviceId);
      requests := requests + [ConnectToDevice(deviceId, false)];
      match outcome {
        case ConnectRejected =>
          connectedId := None;
          connectedName := None;
        case DiscoveryRejected(device) =>
          requests := requests + [DiscoverAllServicesAndCharacteristics(device.id)];
          connectedId := None;
          connectedName := None;
        case Ready(device) =>
          requests := requests + [DiscoverAllServicesAndCharacteristics(device.id)];
          connectedId := Some(device.id);
          connectedName := Some(DisplayName(device));
      }
      connectingId := None;
    }

    /**
     * `disconnect`: does nothing when `connectedId` is null or empty;
     * otherwise cancels the connection and clears the connected fields
     * whether or not the cancellation succeeds.
     */
    method Disconnect(cancelSucceeded: bool)
      requires Valid()
      modifies this`connectedId, this`connectedName, this`requests
      ensures Valid()
      ensures !Truthy(old(connectedId)) ==>
        connectedId == old(connectedId) && connectedName == old(connectedName) && requests == old(requests)
      ensures Truthy(old(connectedId)) ==>
        && connectedId == None && connectedName == None
        && requests == old(requests) + [CancelDeviceConnection(old(connectedId).value)]
    {
      if !Truthy(connectedId) {
        return;
      }
      requests := requests + [CancelDeviceConnection(connectedId.value)];
      // a failed cancellation is only logged: the fields are cleared either way
      connectedId := None;
      connectedName := None;
    }
  }

  // ---------------------------------------------------------------------------
  // Scenarios, checked against the handlers' contracts

  /**
   * Adapter on, filter "nimble": A "NimbleWatch" at -40, B "Other" at -50 and
   * A "NimbleWatch" at -35 leave one entry, for A at -35.
   */
  method DiscoveryScenario() returns (ds: seq<ScannedDevice>)
    ensures ds == [ScannedDevice("A", "NimbleWatch", Some(-35))]
  {
    var s := new BleScanner(Some("nimble"));
    assert ToLower("nimble") == "nimble";
    assert s.nameFilter == "nimble";
    s.OnAdapterState(PoweredOn);
    s.ToggleScan(true);
    assert s.devices == [];
    var a1 := ScanEvent(None, Some(Advert("A", Some("NimbleWatch"), None, Some(-40))));
    var b := ScanEvent(None, Some(Advert("B", Some("Other"), None, Some(-50))));
    var a2 := ScanEvent(None, Some(Advert("A", Some("NimbleWatch"), None, Some(-35))));
    s.OnScanEvent(a1);
    assert s.devices == [ScannedDevice("A", "NimbleWatch", Some(-40))] by {
      NimbleWatchKept("A", -40);
    }
    s.OnScanEvent(b);
    assert s.devices == [ScannedDevice("A", "NimbleWatch", Some(-40))] by {
      OtherDropped("B", -50);
    }
    s.OnScanEvent(a2);
    assert s.devices == [ScannedDevice("A", "NimbleWatch", Some(-35))] by {
      NimbleWatchResighted();
    }
    ds := s.devices;
  }

  /** Scanning, then a connection attempt that the radio rejects: nothing is left connecting, connected or scanning. */
  method ConnectRejectedScenario() returns (connecting: Option<string>, connected: Option<string>, scanning: bool)
    ensures connecting == None && connected == None && !scanning
  {
    var s := new BleScanner(None);
    s.OnAdapterState(PoweredOn);
    s.ToggleScan(true);
    assert s.isScanning;
    s.ConnectToScannedDevice("A", ConnectRejected);
    connecting, connected, scanning := s.connectingId, s.connectedId, s.isScanning;
  }

  /** Connected to A "NimbleWatch", then a disconnect whose cancellation fails: both connected fields are null. */
  method DisconnectRejectedScenario() returns (connected: Option<string>, name: Option<string>)
    ensures connected == None && name == None
  {
    var s := new BleScanner(None);
    s.ConnectToScannedDevice("A", Ready(Advert("A", Some("NimbleWatch"), None, None)));
    assert s.connectedId == Some("A");
    s.Disconnect(false);
    connected, name := s.connectedId, s.connectedName;
  }
}
