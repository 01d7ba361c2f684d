/**
 * What the scanner does with each advertisement (the `on_adv` callback) and
 * what it emits once per cycle (the payload choice in `run_async`).
 */
module Scan {
  import opened Common
  import opened Hex
  import opened AirPods
  import opened Beacons

  /** Apple's Bluetooth SIG company identifier. */
  const AppleCompanyId := 0x004C

  /** The scanner's configuration, read from the environment at start-up. */
  datatype Config = Config(minRssi: int, nameHints: seq<string>, hexLen: int)

  const DefaultHints: seq<string> := ["AirPods", "AirPods Pro", "AirPods Pro 2", "AirPods3", "AirPods Max"]

  /** The part of a BLE advertisement the filter looks at. */
  datatype Advertisement = Advertisement(localName: Option<string>, manufacturerData: map<int, seq<byte>>)

  /** An advertisement that passed the filter: the arguments handed to `keep_best`. */
  datatype Observation = Observation(device: Device, mfgHex: Option<HexString>, name: string)

  /** The decoder reads past the end of a frame shorter than it expects. */
  datatype ScanError = IndexError

  /** ASCII upper-case letters become lower-case; every other character stays. */
  function LowerChar(c: char): (l: char)
    ensures !('A' <= l <= 'Z')
    ensures !('A' <= c <= 'Z') ==> l == c
    ensures 'A' <= c <= 'Z' ==> l as int - 'a' as int == c as int - 'A' as int
  {
    if 'A' <= c <= 'Z' then (c as int - 'A' as int + 'a' as int) as char else c
  }

  /** `str.lower`, on ASCII letters. */
  function Lower(s: string): (r: string)
    ensures |r| == |s|
    ensures forall i :: 0 <= i < |s| ==> r[i] == LowerChar(s[i])
  {
    if s == [] then [] else [LowerChar(s[0])] + Lower(s[1..])
  }

  /** `needle` occurs in `hay` starting at position `i`. */
  predicate OccursAt(hay: string, needle: string, i: int) {
    0 <= i <= |hay| - |needle| && hay[i..i + |needle|] == needle
  }

  /** `needle in hay` on strings: `needle` occurs somewhere in `hay`. */
  function Contains(hay: string, needle: string): (r: bool)
    ensures r <==> exists i :: OccursAt(hay, needle, i)
  {
    if |needle| > |hay| then false
    else if hay[..|needle|] == needle then
      assert OccursAt(hay, needle, 0);
      true
    else
      var r := Contains(hay[1..], needle);
      forall i | OccursAt(hay, needle, i) ensures OccursAt(hay[1..], needle, i - 1) {
        assert i != 0;
        TailSlice(hay, i - 1, |needle|);
      }
      forall i | OccursAt(hay[1..], needle, i) ensures OccursAt(hay, needle, i + 1) {
        TailSlice(hay, i, |needle|);
      }
      r
  }

  /** A slice of `hay[1..]` is the slice of `hay` one position further on. */
  lemma TailSlice(hay: string, i: nat, n: nat)
    requires 1 + i + n <= |hay|
    ensures hay[1..][i..i + n] == hay[i + 1..i + 1 + n]
  {
    var l, r := hay[1..][i..i + n], hay[i + 1..i + 1 + n];
    forall t | 0 <= t < n ensures l[t] == r[t] {
      assert hay[1..][i + t] == hay[i + 1 + t];
    }
  }

  /** A substring of a substring is a substring. */
  lemma ContainsTransitive(c: string, b: string, a: string)
    requires Contains(c, b) && Contains(b, a)
    ensures Contains(c, a)
  {
    var i :| OccursAt(c, b, i);
    var j :| OccursAt(b, a, j);
    forall t | 0 <= t < |a| ensures c[i + j..i + j + |a|][t] == a[t] {
      assert c[i + j + t] == c[i..i + |b|][j + t] == b[j..j + |a|][t];
    }
    assert OccursAt(c, a, i + j);
  }

  /** `any(h.lower() in lname for h in hints)`. */
  function AnyHintIn(hints: seq<string>, lname: string): (r: bool)
    ensures r <==> exists k :: 0 <= k < |hints| && Contains(lname, Lower(hints[k]))
  {
    if hints == [] then false
    else
      var rest := AnyHintIn(hints[1..], lname);
      assert forall k :: 1 <= k < |hints| ==> hints[k] == hints[1..][k - 1];
      Contains(lname, Lower(hints[0])) || rest
  }

  /** `matches_name`: a non-empty name that contains a hint, ignoring case. */
  predicate MatchesName(name: string, hints: seq<string>)
    ensures MatchesName(name, hints) <==>
              name != "" && exists k :: 0 <= k < |hints| && Contains(Lower(name), Lower(hints[k]))
  {
    name != "" && AnyHintIn(hints, Lower(name))
  }

  /** Python's `a or b` on an optional string: `b` when `a` is missing or empty. */
  function OrElse(a: Option<string>, b: string): (r: string)
    ensures a.Some? && a.value != "" ==> r == a.value
    ensures a.None? || a.value == "" ==> r == b
  {
    if a.Some? && a.value != "" then a.value else b
  }

  /** The name the filter matches: the advertised local name, else the device name, else empty. */
  function AdvertisedName(device: Device, adv: Option<Advertisement>): (name: string)
    ensures name != "" ==> (adv.Some? && Some(name) == adv.value.localName) || Some(name) == device.name
    ensures device.name.Some? && device.name.value != "" ==> name != ""
    ensures adv.Some? && adv.value.localName.Some? && adv.value.localName.value != "" ==>
              name == adv.value.localName.value
    ensures adv.None? || adv.value.localName.None? || adv.value.localName.value == "" ==>
              name == OrElse(device.name, "")
  {
    var deviceName := OrElse(device.name, "");
    if adv.Some? then OrElse(adv.value.localName, deviceName) else deviceName
  }

  /** `getattr(adv_data, "manufacturer_data", {}) or {}`. */
  function ManufacturerData(adv: Option<Advertisement>): (m: map<int, seq<byte>>)
    ensures adv.None? ==> m == map[]
    ensures adv.Some? ==> m == adv.value.manufacturerData
  {
    if adv.Some? then adv.value.manufacturerData else map[]
  }

  /**
   * The filter of `on_adv`: an advertisement is kept when it carries Apple
   * manufacturer data or a name matching a hint, and its signal strength is
   * known and at least the configured minimum. The kept observation carries
   * the hex text of Apple's data exactly when there is some.
   */
  function Admit(device: Device, adv: Option<Advertisement>, cfg: Config): (r: Option<Observation>)
    ensures r.Some? <==>
              && (AppleCompanyId in ManufacturerData(adv) || MatchesName(AdvertisedName(device, adv), cfg.nameHints))
              && device.rssi.Some? && device.rssi.value >= cfg.minRssi
    ensures r.Some? ==> r.value.device == device && r.value.name == AdvertisedName(device, adv)
    ensures r.Some? ==> (r.value.mfgHex.Some? <==> AppleCompanyId in ManufacturerData(adv))
    ensures r.Some? && r.value.mfgHex.Some? ==>
              r.value.mfgHex.value == Hexlify(ManufacturerData(adv)[AppleCompanyId])
  {
    var name := AdvertisedName(device, adv);
    var mfg := ManufacturerData(adv);
    var hasApple := AppleCompanyId in mfg;
    var matchesName := MatchesName(name, cfg.nameHints);
    if !hasApple && !matchesName then None
    else if device.rssi.None? || device.rssi.value < cfg.minRssi then None
    else
      var mhex := if hasApple then Some(Hexlify(mfg[AppleCompanyId])) else None;
      Some(Observation(device, mhex, name))
  }

  /** An observation kept without Apple data was kept for its name, so it has one. */
  lemma NameOnlyObservationsAreNamed(device: Device, adv: Option<Advertisement>, cfg: Config)
    requires Admit(device, adv, cfg).Some? && Admit(device, adv, cfg).value.mfgHex.None?
    ensures Admit(device, adv, cfg).value.name != ""
    ensures MatchesName(Admit(device, adv, cfg).value.name, cfg.nameHints)
  {
  }

  /** "AirPods" lower-cases to "airpods". */
  lemma LowerAirPods()
    ensures Lower("AirPods") == "airpods"
  {
    var l := Lower("AirPods");
    assert |l| == 7;
    assert l[0] == 'a' && l[1] == 'i' && l[2] == 'r' && l[3] == 'p' && l[4] == 'o' && l[5] == 'd' && l[6] == 's';
  }

  /** A hint that starts with "AirPods" contains "airpods" once lower-cased. */
  lemma HintStartingWithAirPods(h: string)
    requires |h| >= 7 && h[..7] == "AirPods"
    ensures Contains(Lower(h), "airpods")
  {
    LowerAirPods();
    var l, p := Lower(h), Lower(h[..7]);
    forall t | 0 <= t < 7 ensures l[t] == p[t] {
      assert h[t] == h[..7][t];
    }
    assert l[0..7] == p;
    assert OccursAt(l, "airpods", 0);
  }

  /** Every default hint contains "airpods" once lower-cased. */
  lemma DefaultHintsContainAirPods(k: int)
    requires 0 <= k < |DefaultHints|
    ensures Contains(Lower(DefaultHints[k]), "airpods")
  {
    var h := DefaultHints[k];
    assert h[..7] == "AirPods" by {
      if k == 0 {} else if k == 1 {} else if k == 2 {} else if k == 3 {} else {}
    }
    HintStartingWithAirPods(h);
  }

  /** With the default hints, a name matches exactly when it contains "airpods" in any case. */
  lemma DefaultHintsMeanAirPods(name: string)
    ensures MatchesName(name, DefaultHints) <==> name != "" && Contains(Lower(name), "airpods")
  {
    var lname := Lower(name);
    if MatchesName(name, DefaultHints) {
      var k :| 0 <= k < |DefaultHints| && Contains(lname, Lower(DefaultHints[k]));
      DefaultHintsContainAirPods(k);
      ContainsTransitive(lname, Lower(DefaultHints[k]), "airpods");
    }
    if name != "" && Contains(lname, "airpods") {
      LowerAirPods();
      assert Contains(lname, Lower(DefaultHints[0]));
    }
  }

  /**
   * The payload choice of one cycle of `run_async`: nothing in range gives the
   * not-found record; Apple data of exactly the configured length is decoded
   * (which fails with an index error when that length is under 16); anything
   * else gives a status-0 record saying why it was not decoded.
   */
  function SelectPayload(strongest: Option<Beacon>, hexLen: int, date: string): (r: Result<Payload, ScanError>)
    ensures strongest.None? ==> r == Success(NotFound)
    ensures r.Failure? <==>
              strongest.Some? && strongest.value.mfgHex.Some?
              && |strongest.value.mfgHex.value| == hexLen < MinDecodableLength
    ensures (r.Success? && r.value.Status() == 1) <==>
              strongest.Some? && strongest.value.mfgHex.Some?
              && |strongest.value.mfgHex.value| == hexLen >= MinDecodableLength
    // A consequence of the next clause and the contract of `Decode`.
    ensures r.Success? && r.value.Status() == 1 ==> r.value.raw == strongest.value.mfgHex.value
    ensures r.Success? && r.value.Status() == 1 ==> r.value == Decode(strongest.value.mfgHex.value, date)
    ensures (r.Success? && r.value.NotFound?) <==> strongest.None?
    ensures r.Success? && r.value.Detected? ==>
              && strongest.Some?
              && (r.value.model == NameMatchedModel <==> strongest.value.name != "")
              && (r.value.model == AppleOnlyModel <==> strongest.value.name == "")
              && (r.value.note == NameOnlyNote <==> strongest.value.mfgHex.None?)
              && (r.value.note == UnsupportedLengthNote <==> strongest.value.mfgHex.Some?)
              && r.value.rssi == strongest.value.device.rssi
              && r.value.name == strongest.value.name
              && r.value.date == date
  {
    if strongest.None? then Success(NotFound)
    else
      var b := strongest.value;
      if b.mfgHex.Some? && |b.mfgHex.value| == hexLen then
        if |b.mfgHex.value| < MinDecodableLength then Failure(IndexError)
        else Success(Decode(b.mfgHex.value, date))
      else
        Success(Detected(
          if b.name != "" then NameMatchedModel else AppleOnlyModel,
          if b.mfgHex.Some? then UnsupportedLengthNote else NameOnlyNote,
          b.device.rssi, b.name, date))
  }

  /** A device kept for its name alone is reported as detected by name, with the name-only note. */
  lemma NameOnlyReportsAirPods(o: Observation, device: Device, adv: Option<Advertisement>, cfg: Config,
                               stamp: int, date: string)
    requires Admit(device, adv, cfg) == Some(o) && o.mfgHex.None?
    ensures SelectPayload(Some(Beacon(stamp, o.device, o.mfgHex, o.name)), cfg.hexLen, date)
            == Success(Detected(NameMatchedModel, NameOnlyNote, device.rssi, o.name, date))
  {
    NameOnlyObservationsAreNamed(device, adv, cfg);
  }

  /**
   * The `on_adv` callback: an admitted advertisement goes into the window at
   * `stamp`, which is then pruned at `now`; a rejected one changes nothing.
   */
  method OnAdvertisement(window: RecentBeacons, device: Device, adv: Option<Advertisement>, cfg: Config,
                         stamp: int, now: int)
    modifies window
    ensures Admit(device, adv, cfg).None? ==> window.entries == old(window.entries)
    ensures Admit(device, adv, cfg).Some? ==>
              var o := Admit(device, adv, cfg).value;
              window.entries == Fresh(old(window.entries), now)
                                + (if now - stamp <= MaxAge then [Beacon(stamp, o.device, o.mfgHex, o.name)] else [])
  {
    var o := Admit(device, adv, cfg);
    if o.Some? {
      var _ := window.KeepBest(o.value.device, o.value.mfgHex, o.value.name, stamp, now);
    }
  }

  /** One reporting cycle: prune the window at `now` and choose the payload from its strongest entry. */
  method ReportCycle(window: RecentBeacons, hexLen: int, now: int, date: string)
    returns (r: Result<Payload, ScanError>)
    modifies window
    ensures window.entries == Fresh(old(window.entries), now)
    ensures r == SelectPayload(Strongest(window.entries), hexLen, date)
  {
    var strongest := window.PickStrongest(now);
    r := SelectPayload(strongest, hexLen, date);
  }
}
