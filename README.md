# AirStatus scanner: a verified model

AirStatus shows the battery state of nearby AirPods. Its scanner process listens for Bluetooth Low
Energy advertisements. It keeps the ones that look like AirPods, remembers those seen in the last
ten seconds, and once per cycle emits one status record for the strongest of them. For that record it
decodes Apple's proximity frame: the model, the left, right and case battery levels, and three
charging flags. This project models that logic of `main.py` in Dafny and proves its properties:

- `hex.dfy` (module `Hex`): `binascii.hexlify` over manufacturer bytes, and the value of one hex digit
  (`int(chr(c), 16)`).
- `airpods.dfy` (module `AirPods`): the frame decoder (`is_flipped`, the inner `pct_at`,
  `decode_airpods`) and the `Payload` records the scanner emits.
- `beacons.dfy` (module `Beacons`): the window of recent beacons. The module-level list `recent` is a
  class `RecentBeacons` whose field `entries` the methods `PickStrongest` (`pick_strongest`) and
  `KeepBest` (`keep_best`) update in place. The index loop of `PickStrongest` pops stale entries.
  `KeepBest` appends and then calls `PickStrongest`, because main.py:34-40 and main.py:88-94 are the
  same loop. The methods are proved against the functions `Fresh` (the entries that survive) and `Strongest` (the entry
  chosen). They are pure functions, with lemmas about them.
- `scan.dfy` (module `Scan`): the advertisement filter of the `on_adv` callback, the payload choice of
  one `run_async` cycle, and two methods that tie these to the window.
- `common.dfy` (module `Common`): `Option` and `Result`.

Time is a parameter. `keep_best` reads the clock twice: once for the appended entry and once for
the pruning moment. These are the two parameters `stamp` and `now` of `KeepBest`, with no order
assumed between them. The configuration values `MIN_RSSI`, `NAME_HINTS` and `AIRPODS_DATA_HEX_LEN`
are fields of `Scan.Config`, and `Scan.DefaultHints` holds the default hint list of `main.py`. The
`date` field of a record is an opaque string parameter.

Details of the code that the model keeps:
- `device.rssi or -999` uses Python's truthiness, so an RSSI of exactly 0 ranks like a missing one
  (`Beacons.Signal`).
- The scan keeps the first entry of greatest signal, because its comparison is strict.
- An empty name hint occurs in every name, so it matches every device that has a name.
- With a configured hex length under 16, a frame of that length makes `decode_airpods` read past its
  end. The model returns `Failure(IndexError)` for that case.
- The status-0 record reports the RSSI of the winning entry's device, together with its name and a
  note. The note says the frame was present but had an unsupported length, or that only the name
  matched.

The minimum RSSI defaults to -90 in `main.py` (main.py:13). The model leaves it a parameter.

## Model

| member | source | states |
|---|---|---|
| Hex.DigitValue | main.py:46 | the value of a hex digit lies in 0..15, and it is below 10 exactly for the decimal digits |
| Hex.Digit | main.py:154 | hexlify writes only lower-case hex digits |
| Hex.Hexlify | main.py:153-154 | the output has two digits per byte, and each pair read back in base 16 gives its byte |
| Hex.HexlifyInjective | main.py:153-154 | different manufacturer data never yields the same hex text |
| AirPods.Payload.Status | main.py:74 | defines the status field: 1 exactly for a decoded frame and 0 for the other records |
| AirPods.Payload.ModelField | main.py:188 | defines the model field: "AirPods not found" for the not-found record, and the carried model otherwise |
| AirPods.Nibble | main.py:61 | the nibble read at a position lies in 0..15, and writing it back as a hex digit gives the character there |
| AirPods.MaskSet | main.py:69-71 | testing a nibble against 0x01, 0x02 or 0x04 tests bit 0, 1 or 2 of it |
| AirPods.IsFlipped | main.py:45-46 | a frame is flipped exactly when bit 1 of the digit at position 10 is clear |
| AirPods.MasksAreBits | main.py:69-71 | the masks 0x01, 0x02 and 0x04 test bits 0, 1 and 2 of a nibble |
| AirPods.FlippedDigitsExactly | main.py:45-46 | a frame is flipped exactly when the digit at 10 is one of 0 1 4 5 8 9 c d, that is when its bit 1 is clear |
| AirPods.ModelName | main.py:50-58 | e, 3, f, 2 and a name AirPodsPro, AirPods3, AirPods2, AirPods1 and AirPodsMax; every other character names "unknown" |
| AirPods.Percent | main.py:60-62 | nibble 10 gives 100, nibbles 0..9 give the tenth they encode (a level ending in 5), 11..15 give -1 |
| AirPods.PctAt | main.py:60-62 | every level read from a frame is -1, 100 or one of 5, 15, ..., 95 |
| AirPods.Decode | main.py:48-82 | status 1, raw equal to the input, model from the digit at 7, the case level from 15 and the case charging flag from bit 2 of the digit at 14; in an unflipped frame left reads 13 with bit 0 and right reads 12 with bit 1, and in a flipped frame left reads 12 with bit 1 and right reads 13 with bit 0 |
| AirPods.FlipSwapsEarbuds | main.py:64-71 | toggling only the flip bit swaps the left and right levels and charging flags, and keeps the case level, the case flag and the model |
| Beacons.Signal | main.py:38 | defines the rank of a device: a present, non-zero RSSI ranks as itself; a missing or zero one ranks as -999 |
| Beacons.IsFresh | main.py:35 | defines freshness: an entry is fresh exactly when its time stamp is at most ten seconds (10^10 ns) before now |
| Beacons.Fresh | main.py:34-37 | pruning keeps no more entries than it had, and only entries at most 10 s old |
| Beacons.FreshCounts | main.py:34-37 | each fresh entry survives as often as it occurs, and no stale one survives |
| Beacons.FreshKeepsExactlyTheFresh | main.py:34-37 | an entry is in the pruned list exactly when it was in the list and is fresh |
| Beacons.FreshSnoc | main.py:30-37 | pruning after an append is the old pruning extended by the new entry when that entry is fresh |
| Beacons.FreshIdempotent | main.py:88-91 | pruning twice at the same moment equals pruning once |
| Beacons.FreshLater | main.py:88-91 | pruning at one moment and then at a later one equals pruning at the later one alone |
| Beacons.Strongest | main.py:92-93 | the choice is absent exactly for an empty window, and otherwise it is one of the entries |
| Beacons.StrongestSnoc | main.py:92-93 | one more entry replaces the best so far only if its signal is strictly greater |
| Beacons.StrongestIsFirstMaximum | main.py:92-95 | the choice is the entry of greatest signal, and no earlier entry has as great a signal |
| Beacons.FirstStrongestUnique | main.py:92-93 | at most one position is the first of greatest signal |
| Beacons.RecentBeacons.constructor | main.py:23 | the window starts empty |
| Beacons.RecentBeacons.PickStrongest | main.py:84-95 | the list becomes the fresh entries in their original order, and the result is the strongest of them |
| Beacons.RecentBeacons.KeepBest | main.py:29-43 | the list becomes the old fresh entries plus the new one (when it is fresh); the result is absent exactly when the list is empty; when the strongest entry has the new device's address, the result is a fresh record of the new observation stamped now; otherwise it is the strongest entry |
| Scan.LowerChar | main.py:148 | lower-casing leaves no capital letter, moves each capital to its lower-case letter and leaves everything else |
| Scan.Lower | main.py:148 | lower-casing a name maps each character and keeps the length |
| Scan.Contains | main.py:148 | `h in name` holds exactly when h occurs at some position of name |
| Scan.ContainsTransitive | main.py:148 | a substring of a substring of a name is a substring of it |
| Scan.AnyHintIn | main.py:148 | a lower-cased name matches exactly when some lower-cased hint occurs in it |
| Scan.MatchesName | main.py:148 | a name matches exactly when it is non-empty and some lower-cased hint occurs in its lower-cased form |
| Scan.OrElse | main.py:145 | defines Python's `a or b` on a string picks a when it is present and non-empty, and b otherwise |
| Scan.AdvertisedName | main.py:145 | a present, non-empty local name wins; otherwise the device name when present and non-empty; otherwise the empty name |
| Scan.ManufacturerData | main.py:146 | defines the manufacturer data read: no advertisement data means no manufacturer data; otherwise it is the advertisement's map |
| Scan.Admit | main.py:145-154 | a device is kept exactly when it has Apple data or a matching name and a known RSSI of at least the minimum; what is kept is the device, the chosen name, and the hexlified Apple data exactly when there is some |
| Scan.NameOnlyObservationsAreNamed | main.py:147-154 | a kept device without Apple data has a non-empty name that matches a hint |
| Scan.DefaultHintsMeanAirPods | main.py:16-19 | with the default hints, a name matches exactly when it contains "airpods" in any capitalisation |
| Scan.SelectPayload | main.py:186-201 | the not-found record exactly when there is no candidate; status 1 exactly when the candidate's hex has the configured length of at least 16, and then the record is the decoding of that hex; an index error exactly when that length is under 16; otherwise a status-0 record whose model says whether a name was seen, whose note says whether a frame was present, and which carries the candidate's RSSI and name |
| Scan.NameOnlyReportsAirPods | main.py:194-201 | a device kept by its name alone is reported as "AirPods detected", with the note "Matched by name only" |
| Scan.OnAdvertisement | main.py:144-158 | a rejected advertisement leaves the window unchanged; an admitted one is appended and the window pruned |
| Scan.ReportCycle | main.py:186-201 | a cycle prunes the window and chooses the payload from its strongest fresh entry |

## Left out

- The `bleak` scanner, the `discover()` polling fallback, `BleakDBusError` handling and the six-attempt
  start retry (main.py:115-139, 160-178): these are foreign Bluetooth calls under asyncio scheduling.
- `kick_adapter` (main.py:97-113): it only runs the `btmgmt` and `bluetoothctl` commands.
- The asyncio loop, `asyncio.sleep`, `asyncio.to_thread` and `UPDATE_DURATION` (a float): these are
  timing and concurrency concerns. One iteration of the loop is `Scan.ReportCycle`.
- Clock reads (`time_ns`, `datetime.now().strftime`): they are the parameters `stamp`, `now` and `date`.
- JSON serialisation, appending to the output file, and `print` (main.py:203-208): these are I/O. The
  model stops at the `Payload` value.
- Reading the configuration from the environment, including splitting and stripping the hint list
  (main.py:12-20): the values are parameters.
- The `dbg` debug output (main.py:25-27, 136-138, 155-157).
- Scan.Lower: lower-cases ASCII letters only, whereas Python's `str.lower` also folds non-ASCII letters.
- Scan.LowerChar: the same ASCII-only restriction, for one character.
- Device signal strength: the RSSI is a snapshot taken at observation time. The source reads `device.rssi`
  from a live object when it compares entries, so Bluetooth updates to that object after the
  observation are not modelled.
- The value `keep_best` returns is discarded by `on_adv`. `Scan.OnAdvertisement` also discards it.
