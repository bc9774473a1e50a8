# BLE scan/connect controller, modelled in Dafny

This project models the session controller of the StupidWatch mobile app: the
`useBleScanner` hook. The hook scans for Bluetooth Low Energy peripherals whose
advertised name contains a filter (by default `"nimble"`) and keeps a list of
them keyed by id. The user can connect to one of them and later disconnect.

The model has six modules, one per concern of `src/ble/useBleScanner.ts`:

- `Wrappers`: `Option`, standing for TypeScript's `T | null`, with `??` as `GetOr`.
- `JsString`: the JavaScript string operations the hook uses. `trim` strips
  the ECMAScript WhiteSpace and LineTerminator code points; `toLowerCase`,
  `includes`, and the truthiness of a `string | null` are modelled too.
  `Trim` is proved to be the unique infix with only whitespace around it and
  none at its ends. `Includes` is proved equal to a reference
  "occurs at some offset" definition.
- `Devices`: the device list, `findIndex`, and the `upsertDevice` updater.
- `Discovery`: the scan callback's filter and its effect on the list, for one
  event and for a stream of events.
- `Adapter`: the adapter `State` enumeration and `statusText`.
- `Scanner`: class `BleScanner`. It holds the hook's session fields
  (`bleState`, `isScanning`, `devices`, `connectingId`, `connectedId`,
  `connectedName`). Each handler is a method with a field-level `modifies`
  frame, so a field a handler does not name provably keeps its value. A
  ghost log, `requests`, records what the hook asks of the BLE manager:
  start or stop a scan, connect, discover services, cancel a connection.
  Three scenario methods drive the class through its contracts.

Foreign calls are inputs to the handlers:

- permission requests become `permissionGranted: bool`;
- connect plus service discovery becomes a `ConnectOutcome`: rejected at
  connect, rejected at discovery, or ready with the device handed back;
- the cancel result becomes `cancelSucceeded: bool`, which cannot change the
  result.

Each handler runs as one atomic step.

Four behaviours of the hook that are easy to misread:

- On a scan error the callback calls `stopScan()`. That `stopScan` was built
  in the render where scanning started, when `isScanning` was still false.
  So the call does nothing, and the controller stays in the scanning state.
  `OnScanEvent` therefore changes nothing on an error
  (src/ble/useBleScanner.ts:92-95, 78-79).
- The status line shows "Checking Bluetooth state..." only while `bleState`
  is null. `State.Unknown` is a non-empty string, so it shows as
  "Bluetooth: Unknown" (src/ble/useBleScanner.ts:166-170).
- `disconnect` tests `!connectedId`, so an empty-string id counts as "not
  connected" and nothing is cleared (src/ble/useBleScanner.ts:155).
- The stored name falls back to "Unnamed" only when both `name` and
  `localName` are null. A present but blank name is stored as `""`
  (src/ble/useBleScanner.ts:64).

## Model

| member | source | states |
|---|---|---|
| `JsString.LeadingSpace` | src/ble/useBleScanner.ts:64 | the count is the longest all-whitespace prefix: everything before it is whitespace and the next character is not |
| `JsString.TrailingSpace` | src/ble/useBleScanner.ts:64 | the count is the longest all-whitespace suffix: everything after it is whitespace and the character before it is not |
| `JsString.Trim` | src/ble/useBleScanner.ts:64 | `trim()` returns an infix of its input with only whitespace before and after it and no whitespace at either end |
| `JsString.TrimUnique` | src/ble/useBleScanner.ts:64 | any infix surrounded only by whitespace and without whitespace at its ends is exactly `trim()`'s result, so the characterisation is complete |
| `JsString.TrimIdempotent` | src/ble/useBleScanner.ts:64 | a property of `trim()` itself: trimming a second time changes nothing |
| `JsString.TrimAllSpace` | src/ble/useBleScanner.ts:64 | a whitespace-only string trims to `""` |
| `JsString.TrimNoEdgeSpace` | src/ble/useBleScanner.ts:64 | a string without whitespace at either end is left as it is |
| `JsString.ToLower` | src/ble/useBleScanner.ts:101 | `toLowerCase()` keeps the length and lower-cases each character where it stands |
| `JsString.ToLowerIdempotent` | src/ble/useBleScanner.ts:26 | lower-casing the already lower-cased filter changes nothing |
| `JsString.Includes` | src/ble/useBleScanner.ts:102 | `includes` holds exactly when the substring occurs at some offset, in both directions |
| `JsString.OccursShift` | src/ble/useBleScanner.ts:102 | when the substring is not at offset 0, it occurs in the string exactly when it occurs in the string without its first character |
| `JsString.IncludesEmpty` | src/ble/useBleScanner.ts:102 | every name includes the empty filter; the empty name includes only the empty filter |
| `JsString.Truthy` | src/ble/useBleScanner.ts:155 | a `string \| null` is falsy exactly when it is null or the empty string |
| `Devices.FindIndex` | src/ble/useBleScanner.ts:68 | `findIndex` gives -1 exactly when no entry has the id, and otherwise the first index whose entry has it |
| `Devices.Upsert` | src/ble/useBleScanner.ts:67-75 | a known id: same length, its first index holds the new `{id, name, rssi}`, and every other index is unchanged; a new id: the entry is at index 0, the length grows by one, and the old list follows unchanged |
| `Devices.UpsertKeepsIdsUnique` | src/ble/useBleScanner.ts:67-75 | if ids were unique before an upsert, they are unique after it |
| `Devices.UpsertSingleEntry` | src/ble/useBleScanner.ts:67-75 | after an upsert into a unique-id list, exactly one entry carries the sighted id, and it holds the latest name and rssi |
| `Devices.UpsertKeepsOrder` | src/ble/useBleScanner.ts:69-74 | existing entries keep their order: they stay at their index for a known id and move down by one when a new id is prepended |
| `Devices.UpsertIds` | src/ble/useBleScanner.ts:67-75 | the set of ids after an upsert is the old set plus the sighted id |
| `Devices.AdvertName` | src/ble/useBleScanner.ts:64 | `name ?? localName ?? fallback`: `name` when not null, otherwise `localName` when not null, otherwise the fallback; an empty `name` is kept |
| `Devices.DisplayName` | src/ble/useBleScanner.ts:64 | the stored name is the trimmed `name` when present, otherwise the trimmed `localName` when present, otherwise "Unnamed" |
| `Devices.Entry` | src/ble/useBleScanner.ts:71-74 | the entry holds the sighting's id, its stored display name and its rssi |
| `Devices.BlankNameIsEmpty` | src/ble/useBleScanner.ts:64 | a present but whitespace-only `name` is stored as `""`; neither `localName` nor "Unnamed" replaces it |
| `Discovery.OnDiscovery` | src/ble/useBleScanner.ts:91-104 | an error event, an event without a device, and a device whose trimmed, lower-cased `name ?? localName ?? ""` lacks the filter all leave the list unchanged; any other event upserts the device |
| `Discovery.DiscoverAll` | src/ble/useBleScanner.ts:91-105 | the callback applied to each event in turn keeps ids unique, and the list grows by at most one entry per event and never shrinks |
| `Discovery.NameFilter` | src/ble/useBleScanner.ts:26 | a given `nameIncludes` becomes its lower-cased form, no option gives "nimble", and the filter is lower-case either way |
| `Discovery.FilterName` | src/ble/useBleScanner.ts:99-101 | the tested name is `name` lower-cased after trimming when present, otherwise `localName` likewise, otherwise `""`; it is lower-case and no longer than the advertised name |
| `Discovery.Kept` | src/ble/useBleScanner.ts:92-102 | the callback reaches the upsert exactly when there is no error, there is a device, and the filter occurs at some offset of the tested name |
| `Discovery.FilterIgnoresCase` | src/ble/useBleScanner.ts:26 | an option and its lower-cased form give the same filter |
| `Discovery.KeptEntryMatches` | src/ble/useBleScanner.ts:99-104 | the stored name of a kept device, lower-cased, contains the filter, although the filter test and the stored name use different fallbacks |
| `Discovery.NamelessDropped` | src/ble/useBleScanner.ts:99-102 | with a non-empty filter, a device with neither `name` nor `localName` never reaches the list |
| `Discovery.DiscoverAllSnoc` | src/ble/useBleScanner.ts:91-105 | handling a stream of events and then one more is handling the longer stream |
| `Discovery.DiscoverAllThree` | src/ble/useBleScanner.ts:91-105 | the unrolling step for the three-event scenario: handling three events is applying the callback to each in turn |
| `Discovery.KeptKeepsIdsUnique` | src/ble/useBleScanner.ts:91-104 | one callback keeps the ids of the list unique |
| `Discovery.DroppedEventsIgnored` | src/ble/useBleScanner.ts:92-102 | a stream of events that all fail the filter leaves the list as it was |
| `Discovery.LatestSightingWins` | src/ble/useBleScanner.ts:67-75 | after a kept sighting, the list holds exactly one entry for its id, and that entry comes from the sighting |
| `Discovery.NimbleWatchMatches` | src/ble/useBleScanner.ts:99-102 | "NimbleWatch" lower-cased contains "nimble" |
| `Discovery.NimbleWatchKept` | src/ble/useBleScanner.ts:99-104 | a "NimbleWatch" sighting passes the filter "nimble" and is stored under that name with its rssi |
| `Discovery.OtherDropped` | src/ble/useBleScanner.ts:99-102 | an "Other" sighting is dropped by the filter "nimble" |
| `Discovery.ResightReplaces` | src/ble/useBleScanner.ts:67-73 | a kept sighting of the only device in a one-entry list replaces that entry with the new one |
| `Discovery.NimbleWatchResighted` | src/ble/useBleScanner.ts:67-73 | a second sighting of A at -35 replaces A's entry from -40 in place |
| `Discovery.NimbleWatchScenario` | src/ble/useBleScanner.ts:62-104 | with filter "nimble", the events A "NimbleWatch" -40, B "Other" -50 and A "NimbleWatch" -35 leave exactly `[A "NimbleWatch" -35]` |
| `Adapter.Name` | src/ble/useBleScanner.ts:170 | the run-time string of each `State` value, never empty |
| `Adapter.NameInjective` | src/ble/useBleScanner.ts:170 | no two states share a run-time string |
| `Adapter.StatusText` | src/ble/useBleScanner.ts:166-170 | the status is "Checking Bluetooth state..." exactly when no state has arrived, and "Bluetooth: ON" exactly when the adapter is powered on; any other state is shown as "Bluetooth: " followed by the state's name |
| `Adapter.TruthyState` | src/ble/useBleScanner.ts:166 | the `!bleState` test holds exactly when `bleState` is null, since no state's name is empty |
| `Adapter.UnknownIsShownByName` | src/ble/useBleScanner.ts:166-170 | `Unknown` is shown as "Bluetooth: Unknown", not as "Checking Bluetooth state..." |
| `Adapter.StatusTextInjective` | src/ble/useBleScanner.ts:166-170 | different adapter observations give different status lines |
| `Scanner.BleScanner.constructor` | src/ble/useBleScanner.ts:15-26 | the initial session: no adapter state, not scanning, empty list, every id and name null, filter `(nameIncludes ?? "nimble").toLowerCase()` |
| `Scanner.BleScanner.OnAdapterState` | src/ble/useBleScanner.ts:29 | a state-change callback stores the new state, and no other field changes |
| `Scanner.BleScanner.StopScan` | src/ble/useBleScanner.ts:78-82 | not scanning afterwards; when the scan was already off, nothing is requested and nothing changes |
| `Scanner.BleScanner.StartScan` | src/ble/useBleScanner.ts:84-90 | the list is emptied, scanning is on, and a scan is requested with `allowDuplicates: false` |
| `Scanner.BleScanner.OnScanEvent` | src/ble/useBleScanner.ts:91-105 | the list becomes `OnDiscovery` of the old list; no other field changes, not even on an error event |
| `Scanner.BleScanner.ToggleScan` | src/ble/useBleScanner.ts:109-129 | while scanning, it only stops the scan; when permission is denied or the adapter is not powered on, nothing changes; otherwise the list is emptied and scanning starts; scanning never starts unless the adapter is powered on |
| `Scanner.BleScanner.ConnectToScannedDevice` | src/ble/useBleScanner.ts:131-152 | in every outcome, nothing is connecting or scanning afterwards. On success the connected id is the returned device's id and the name is its trimmed `name ?? localName ?? "Unnamed"`. On either failure both connected fields are null. The list is untouched |
| `Scanner.BleScanner.Disconnect` | src/ble/useBleScanner.ts:154-164 | when `connectedId` is null or empty, nothing changes. Otherwise both connected fields become null whether or not the cancel succeeds, a cancel for that id is requested, and no other field changes |
| `Scanner.DiscoveryScenario` | src/ble/useBleScanner.ts:84-104 | through the class: power on, start a scan, then A -40, B -50, A -35 leave `[A "NimbleWatch" -35]` |
| `Scanner.ConnectRejectedScenario` | src/ble/useBleScanner.ts:131-152 | through the class: if a connect during a scan is rejected, nothing is connecting, connected or scanning afterwards |
| `Scanner.DisconnectRejectedScenario` | src/ble/useBleScanner.ts:154-164 | through the class: if the cancel fails after connecting to A, both connected fields are still null |

## Left out

- BLE manager calls (`onStateChange`, `startDeviceScan`, `stopDeviceScan`,
  `connectToDevice`, `discoverAllServicesAndCharacteristics`,
  `cancelDeviceConnection`, `destroy`): these drive the radio. Their results
  are handler parameters, and the requests go to the ghost `requests` log.
  Subscribing on mount and releasing the manager on unmount
  (src/ble/useBleScanner.ts:28-34) are not modelled; only the state-change
  callback is (`OnAdapterState`).
- Android permission requests (`requestAndroidPermissions`,
  src/ble/useBleScanner.ts:36-60): these are operating-system calls, so the
  platform check and the per-permission results become one
  `permissionGranted` input.
- React mechanics (`useState`, `useMemo`, `useEffect`, re-render batching)
  and interleaving of the async handlers: each handler is one atomic step.
  So the window during `connectToScannedDevice` in which `connectingId`
  holds the device id is set and cleared within one call, and never seen
  from outside. Nothing is claimed about a single connect in flight; only
  disabled buttons in App.tsx enforce that.
- `console.log` diagnostics: they have no effect on state.
- App.tsx, src/components/DeviceCard.tsx, src/components/ConnectedBox.tsx and
  src/styles/styles.ts: presentation only.
- __mock__/react-native-ble-plx.ts and jest.config.js: test tooling. The
  mock's `State` enum has three values. `Adapter.AdapterState` has the six
  values of the library's enum.
- `JsString.ToLower`: lower-cases ASCII `A`-`Z` only. JavaScript's
  `toLowerCase` applies full Unicode case mapping, which can also change the
  length of a string; that table is not modelled.
- JavaScript strings are UTF-16 code units; here they are sequences of
  Unicode scalar values.
- `rssi` is a JavaScript number. The model restricts it to an integer, or
  null.
