/**
 * Decoding of the AirPods proximity frame: the Apple manufacturer data of a
 * BLE advertisement, rendered as lower-case hex text, is read nibble by nibble
 * at fixed positions to give the model, three battery levels and three
 * charging flags.
 */
module AirPods {
  import opened Common
  import opened Hex

  /** Position of the digit whose bit 0x02, when clear, means left and right are swapped. */
  const FlipIndex := 10
  /** Position of the digit that identifies the model. */
  const ModelIndex := 7
  /** Positions of the two earbud battery digits and the case battery digit. */
  const FirstBudIndex := 12
  const SecondBudIndex := 13
  const CaseIndex := 15
  /** Position of the digit carrying the three charging bits. */
  const ChargingIndex := 14

  /** The decoder reads positions up to 15, so shorter text raises an index error. */
  const MinDecodableLength := 16

  const TheUnknownModel := "unknown"
  /** The model name of the not-found record. */
  const NotFoundModel := "AirPods not found"
  const NameMatchedModel := "AirPods detected"
  const AppleOnlyModel := "Apple device detected"
  const UnsupportedLengthNote := "Manufacturer frame present but unsupported length"
  const NameOnlyNote := "Matched by name only"

  /** The three battery levels of one decoded frame, -1 meaning unknown. */
  datatype Charge = Charge(left: int, right: int, caseLevel: int)

  /**
   * One record the scanner emits per cycle. `Decoded` is the dictionary of
   * `decode_airpods` (status 1); `NotFound` and `Detected` are the two
   * status-0 dictionaries built when nothing decodable is in range.
   */
  datatype Payload =
    | Decoded(charge: Charge, chargingLeft: bool, chargingRight: bool, chargingCase: bool,
              model: string, date: string, raw: string)
    | NotFound
    | Detected(model: string, note: string, rssi: Option<int>, name: string, date: string)
  {
    /** The record's `status` field. */
    function Status(): (s: int)
      ensures s == 1 <==> Decoded?
      ensures s == 0 || s == 1
    {
      if Decoded? then 1 else 0
    }

    /** The record's `model` field; the not-found record always says "AirPods not found". */
    function ModelField(): (m: string)
      ensures NotFound? ==> m == NotFoundModel
      ensures !NotFound? ==> m == model
    {
      if NotFound? then NotFoundModel else model
    }
  }

  /** `int(chr(raw[i]), 16)`. */
  function Nibble(raw: HexString, i: nat): (v: nat)
    requires i < |raw|
    ensures v < 16
    ensures Digit(v) == raw[i]
  {
    DigitValue(raw[i])
  }

  /** `nibble & mask != 0`, the way the source tests a flag, on an 8-bit value. */
  predicate MaskSet(nibble: nat, mask: bv8)
    requires nibble < 16
    ensures mask == 0x01 ==> (MaskSet(nibble, mask) <==> BitSet(nibble, 0))
    ensures mask == 0x02 ==> (MaskSet(nibble, mask) <==> BitSet(nibble, 1))
    ensures mask == 0x04 ==> (MaskSet(nibble, mask) <==> BitSet(nibble, 2))
  {
    MasksAreBits(nibble);
    (nibble as bv8 & mask) != 0
  }

  /** Bit `k` of `v`, stated arithmetically: the reference for the masks above. */
  predicate BitSet(v: nat, k: nat) {
    (v / Pow2(k)) % 2 == 1
  }

  function Pow2(k: nat): (p: nat)
    ensures p >= 1
  {
    if k == 0 then 1 else 2 * Pow2(k - 1)
  }

  /** The three masks of the source are the low three bits. */
  lemma MasksAreBits(v: nat)
    requires v < 16
    ensures (v as bv8 & 0x01) != 0 <==> BitSet(v, 0)
    ensures (v as bv8 & 0x02) != 0 <==> BitSet(v, 1)
    ensures (v as bv8 & 0x04) != 0 <==> BitSet(v, 2)
  {
    assert Pow2(1) == 2 && Pow2(2) == 4 by {
      assert Pow2(0) == 1;
    }
    assert 0 <= v < 16;
    if v == 0 {} else if v == 1 {} else if v == 2 {} else if v == 3 {}
    else if v == 4 {} else if v == 5 {} else if v == 6 {} else if v == 7 {}
    else if v == 8 {} else if v == 9 {} else if v == 10 {} else if v == 11 {}
    else if v == 12 {} else if v == 13 {} else if v == 14 {} else {}
  }

  /** `is_flipped`: true when bit 0x02 of the digit at position 10 is clear. */
  predicate IsFlipped(raw: HexString)
    requires |raw| > FlipIndex
    ensures IsFlipped(raw) <==> !BitSet(Nibble(raw, FlipIndex), 1)
  {
    !MaskSet(Nibble(raw, FlipIndex), 0x02)
  }

  /** The digits whose bit 0x02 is clear. */
  const FlippedDigits: set<char> := {'0', '1', '4', '5', '8', '9', 'c', 'd'}

  lemma FlippedDigitsExactly(raw: HexString)
    requires |raw| > FlipIndex
    ensures IsFlipped(raw) <==> raw[FlipIndex] in FlippedDigits
    ensures IsFlipped(raw) <==> !BitSet(Nibble(raw, FlipIndex), 1)
  {
    var c := raw[FlipIndex];
    assert IsHexDigit(c);
    if c == '0' {} else if c == '1' {} else if c == '2' {} else if c == '3' {}
    else if c == '4' {} else if c == '5' {} else if c == '6' {} else if c == '7' {}
    else if c == '8' {} else if c == '9' {} else if c == 'a' {} else if c == 'b' {}
    else if c == 'c' {} else if c == 'd' {} else if c == 'e' {} else {}
  }

  /** The model names the decoder knows, by the digit at position 7. */
  function ModelName(c: char): (name: string)
    ensures name == TheUnknownModel <==> c !in {'e', '3', 'f', '2', 'a'}
    ensures c == 'e' <==> name == "AirPodsPro"
    ensures c == '3' <==> name == "AirPods3"
    ensures c == 'f' <==> name == "AirPods2"
    ensures c == '2' <==> name == "AirPods1"
    ensures c == 'a' <==> name == "AirPodsMax"
  {
    if c == 'e' then "AirPodsPro"
    else if c == '3' then "AirPods3"
    else if c == 'f' then "AirPods2"
    else if c == '2' then "AirPods1"
    else if c == 'a' then "AirPodsMax"
    else TheUnknownModel
  }

  /** The battery levels `pct_at` can give: -1 (unknown), 5, 15, ..., 95, or 100. */
  predicate IsLevel(p: int) {
    p == -1 || p == 100 || (5 <= p <= 95 && p % 10 == 5)
  }

  /**
   * The inner `pct_at` on the nibble it reads: 10 means full, 0..9 mean the
   * middle of that tenth, 11..15 mean unknown.
   */
  function Percent(v: nat): (p: int)
    requires v < 16
    ensures IsLevel(p)
    ensures p == -1 <==> v > 10
    ensures p == 100 <==> v == 10
    ensures v < 10 ==> p / 10 == v
  {
    if v == 10 then 100 else if v <= 10 then v * 10 + 5 else -1
  }

  /** `pct_at(idx)`. */
  function PctAt(raw: HexString, idx: nat): (p: int)
    requires idx < |raw|
    ensures IsLevel(p)
  {
    Percent(Nibble(raw, idx))
  }

  /**
   * `decode_airpods`: always a status-1 record whose `raw` is the input.
   * The two earbud levels are those at positions 12 and 13 in some order,
   * the case level is at 15, and the flags are the low three bits of the
   * digit at 14 with the earbud bits in the same order as the levels.
   */
  function Decode(raw: HexString, date: string): (r: Payload)
    requires |raw| >= MinDecodableLength
    ensures r.Decoded? && r.Status() == 1
    ensures r.raw == raw && r.date == date
    ensures r.model == ModelName(raw[ModelIndex])
    ensures IsLevel(r.charge.left) && IsLevel(r.charge.right) && IsLevel(r.charge.caseLevel)
    // A consequence of the two flip cases below: the earbuds read 12 and 13 in some order.
    ensures multiset{r.charge.left, r.charge.right}
            == multiset{PctAt(raw, FirstBudIndex), PctAt(raw, SecondBudIndex)}
    ensures r.charge.caseLevel == PctAt(raw, CaseIndex)
    ensures r.chargingCase <==> BitSet(Nibble(raw, ChargingIndex), 2)
    ensures !IsFlipped(raw) ==>
              && r.charge.left == PctAt(raw, SecondBudIndex)
              && r.charge.right == PctAt(raw, FirstBudIndex)
              && (r.chargingLeft <==> BitSet(Nibble(raw, ChargingIndex), 0))
              && (r.chargingRight <==> BitSet(Nibble(raw, ChargingIndex), 1))
    ensures IsFlipped(raw) ==>
              && r.charge.left == PctAt(raw, FirstBudIndex)
              && r.charge.right == PctAt(raw, SecondBudIndex)
              && (r.chargingLeft <==> BitSet(Nibble(raw, ChargingIndex), 1))
              && (r.chargingRight <==> BitSet(Nibble(raw, ChargingIndex), 0))
  {
    var flip := IsFlipped(raw);
    var model := ModelName(raw[ModelIndex]);
    var left := PctAt(raw, if flip then FirstBudIndex else SecondBudIndex);
    var right := PctAt(raw, if flip then SecondBudIndex else FirstBudIndex);
    var caseLevel := PctAt(raw, CaseIndex);
    var chg := Nibble(raw, ChargingIndex);
    Decoded(Charge(left, right, caseLevel),
            MaskSet(chg, if flip then 0x02 else 0x01),
            MaskSet(chg, if flip then 0x01 else 0x02),
            MaskSet(chg, 0x04),
            model, date, raw)
  }

  /**
   * Toggling the flip bit, and changing nothing else the decoder reads,
   * exchanges the left and right levels and charging flags and leaves the
   * case and the model as they were.
   */
  lemma FlipSwapsEarbuds(raw: HexString, raw': HexString, date: string)
    requires |raw| == |raw'| >= MinDecodableLength
    requires forall i :: 0 <= i < |raw| && i != FlipIndex ==> raw[i] == raw'[i]
    requires IsFlipped(raw) != IsFlipped(raw')
    ensures Decode(raw', date).charge.left == Decode(raw, date).charge.right
    ensures Decode(raw', date).charge.right == Decode(raw, date).charge.left
    ensures Decode(raw', date).charge.caseLevel == Decode(raw, date).charge.caseLevel
    ensures Decode(raw', date).chargingLeft == Decode(raw, date).chargingRight
    ensures Decode(raw', date).chargingRight == Decode(raw, date).chargingLeft
    ensures Decode(raw', date).chargingCase == Decode(raw, date).chargingCase
    ensures Decode(raw', date).model == Decode(raw, date).model
  {
    assert raw[FirstBudIndex] == raw'[FirstBudIndex];
    assert raw[SecondBudIndex] == raw'[SecondBudIndex];
    assert raw[CaseIndex] == raw'[CaseIndex];
    assert raw[ChargingIndex] == raw'[ChargingIndex];
    assert raw[ModelIndex] == raw'[ModelIndex];
  }
}
