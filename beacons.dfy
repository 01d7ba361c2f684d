/**
 * The window of recent beacons: each admitted advertisement is appended with
 * its time stamp, entries older than ten seconds are dropped, and the entry
 * with the strongest signal is the one reported.
 */
module Beacons {
  import opened Common
  import opened Hex

  /** How old, in nanoseconds, an entry may be and still take part. */
  const MaxAge := 10_000_000_000

  /** The signal strength that stands in for a missing one. */
  const NoSignal := -999

  /** The part of a BLE device the window looks at. */
  datatype Device = Device(address: string, name: Option<string>, rssi: Option<int>)

  /** One entry of the window: `{time, device, mfg_hex, name}`. */
  datatype Beacon = Beacon(time: int, device: Device, mfgHex: Option<HexString>, name: string)

  /**
   * `device.rssi or -999`. Python's `or` falls through on every falsy value,
   * so a reading of exactly 0 counts as `NoSignal` just as a missing one does.
   */
  function Signal(d: Device): (s: int)
    ensures d.rssi.Some? && d.rssi.value != 0 ==> s == d.rssi.value
    ensures d.rssi.None? || d.rssi.value == 0 ==> s == NoSignal
  {
    match d.rssi
    case None => NoSignal
    case Some(x) => if x == 0 then NoSignal else x
  }

  /** An entry is kept while `now - time` does not exceed `MaxAge`. */
  predicate IsFresh(b: Beacon, now: int)
    ensures IsFresh(b, now) <==> b.time >= now - 10_000_000_000
  {
    now - b.time <= MaxAge
  }

  /** The entries of `s` still fresh at `now`, in their order. */
  function Fresh(s: seq<Beacon>, now: int): (r: seq<Beacon>)
    ensures |r| <= |s|
    ensures forall i :: 0 <= i < |r| ==> IsFresh(r[i], now)
  {
    if s == [] then []
    else
      var init := Fresh(s[..|s| - 1], now);
      if IsFresh(s[|s| - 1], now) then init + [s[|s| - 1]] else init
  }

  /** Each fresh entry survives pruning as often as it occurs, and no stale one survives. */
  lemma {:induction false} FreshCounts(s: seq<Beacon>, now: int)
    ensures forall b :: multiset(Fresh(s, now))[b] == if IsFresh(b, now) then multiset(s)[b] else 0
  {
    if s != [] {
      var n := |s| - 1;
      var init, last := s[..n], s[n];
      FreshCounts(init, now);
      assert s == init + [last];
      assert multiset(s) == multiset(init) + multiset{last};
      if IsFresh(last, now) {
        assert multiset(Fresh(s, now)) == multiset(Fresh(init, now)) + multiset{last};
      } else {
        assert Fresh(s, now) == Fresh(init, now);
      }
    }
  }

  /** An entry survives pruning exactly when it was there and is fresh. */
  lemma FreshKeepsExactlyTheFresh(s: seq<Beacon>, now: int)
    ensures forall b :: b in Fresh(s, now) <==> b in s && IsFresh(b, now)
  {
    FreshCounts(s, now);
    forall b ensures b in Fresh(s, now) <==> b in s && IsFresh(b, now) {
      assert b in Fresh(s, now) <==> multiset(Fresh(s, now))[b] > 0;
      assert b in s <==> multiset(s)[b] > 0;
    }
  }

  /**
   * The entry the source's scan keeps in `strongest`: the first one whose
   * signal beats all before it strictly, so ties go to the earlier entry.
   */
  function Strongest(s: seq<Beacon>): (r: Option<Beacon>)
    ensures r.None? <==> s == []
    ensures r.Some? ==> r.value in s
  {
    if s == [] then None
    else
      var best := Strongest(s[..|s| - 1]);
      var last := s[|s| - 1];
      if best.None? || Signal(last.device) > Signal(best.value.device) then Some(last) else best
  }

  /** `s[k]` has the greatest signal of `s`, and every entry before it a smaller one. */
  ghost predicate IsFirstStrongest(s: seq<Beacon>, k: int) {
    && 0 <= k < |s|
    && (forall j :: 0 <= j < |s| ==> Signal(s[j].device) <= Signal(s[k].device))
    && (forall j :: 0 <= j < k ==> Signal(s[j].device) < Signal(s[k].device))
  }

  /** At most one position is the first strongest. */
  lemma FirstStrongestUnique(s: seq<Beacon>, k: int, k': int)
    requires IsFirstStrongest(s, k) && IsFirstStrongest(s, k')
    ensures k == k'
  {
    assert Signal(s[k].device) == Signal(s[k'].device);
  }

  /** `Strongest` picks the first entry of greatest signal. */
  lemma {:induction false} StrongestIsFirstMaximum(s: seq<Beacon>) returns (k: nat)
    requires s != []
    ensures IsFirstStrongest(s, k) && Strongest(s) == Some(s[k])
  {
    var n := |s| - 1;
    var init := s[..n];
    if init == [] {
      k := 0;
    } else {
      var k0 := StrongestIsFirstMaximum(init);
      assert forall j :: 0 <= j < n ==> s[j] == init[j];
      if Signal(s[n].device) > Signal(init[k0].device) {
        k := n;
      } else {
        k := k0;
      }
    }
  }

  /** Pruning twice at the same moment prunes nothing more. */
  lemma {:induction false} FreshIdempotent(s: seq<Beacon>, now: int)
    ensures Fresh(Fresh(s, now), now) == Fresh(s, now)
  {
    FreshLater(s, now, now);
  }

  /** Pruning at `t` and then at a later `t'` is pruning at `t'` alone. */
  lemma {:induction false} FreshLater(s: seq<Beacon>, t: int, t': int)
    requires t <= t'
    ensures Fresh(Fresh(s, t), t') == Fresh(s, t')
  {
    if s != [] {
      var n := |s| - 1;
      FreshLater(s[..n], t, t');
      var last := s[n];
      if IsFresh(last, t) {
        var f := Fresh(s[..n], t);
        FreshSnoc(f, last, t');
      }
    }
  }

  /** Scanning one more entry replaces the best so far only on a strictly stronger signal. */
  lemma StrongestSnoc(s: seq<Beacon>, b: Beacon)
    ensures Strongest(s + [b]) ==
              var best := Strongest(s);
              if best.None? || Signal(b.device) > Signal(best.value.device) then Some(b) else best
  {
    assert (s + [b])[..|s|] == s;
  }

  /** Pruning after appending one entry extends the pruned sequence by it, if it is fresh. */
  lemma FreshSnoc(s: seq<Beacon>, b: Beacon, now: int)
    ensures Fresh(s + [b], now) == Fresh(s, now) + (if IsFresh(b, now) then [b] else [])
  {
    assert (s + [b])[..|s|] == s;
  }

  /**
   * One step of the scan loop: `cur[..i]` is what survived of `orig[..j]` and
   * `cur[i..]` is still to be examined. Popping a stale `cur[i]`, or moving past
   * a fresh one, re-establishes that for `orig[..j + 1]`.
   */
  lemma ScanStep(cur: seq<Beacon>, orig: seq<Beacon>, i: int, j: int, now: int)
    requires 0 <= i < |cur| && 0 <= j <= |orig|
    requires cur[..i] == Fresh(orig[..j], now) && cur[i..] == orig[j..]
    ensures j < |orig| && cur[i] == orig[j]
    ensures (cur[..i] + cur[i + 1..])[..i] == cur[..i]
    ensures !IsFresh(cur[i], now) ==>
              && (cur[..i] + cur[i + 1..])[..i] == Fresh(orig[..j + 1], now)
              && (cur[..i] + cur[i + 1..])[i..] == orig[j + 1..]
    ensures IsFresh(cur[i], now) ==>
              && cur[..i + 1] == Fresh(orig[..j + 1], now)
              && cur[i + 1..] == orig[j + 1..]
    ensures Strongest(cur[..i + 1]) ==
              var best := Strongest(cur[..i]);
              if best.None? || Signal(cur[i].device) > Signal(best.value.device) then Some(cur[i]) else best
  {
    assert cur[i..][0] == orig[j..][0];
    assert orig[..j + 1] == orig[..j] + [orig[j]];
    FreshSnoc(orig[..j], orig[j], now);
    var after := cur[..i] + cur[i + 1..];
    assert after[..i] == cur[..i];
    assert after[i..] == cur[i + 1..] == cur[i..][1..];
    assert cur[..i + 1] == cur[..i] + [cur[i]];
    StrongestSnoc(cur[..i], cur[i]);
  }

  /**
   * The module-level list `recent`. Both operations of the source walk it
   * with an index, pop stale entries in place and keep the strongest one seen.
   */
  class RecentBeacons {
    var entries: seq<Beacon>

    /** The list starts empty. */
    constructor ()
      ensures entries == []
    {
      entries := [];
    }

    /**
     * `pick_strongest`: drop the entries that are stale at `now`, keeping the
     * others in order, and return the first of greatest signal, if any.
     */
    method PickStrongest(now: int) returns (strongest: Option<Beacon>)
      modifies this
      ensures entries == Fresh(old(entries), now)
      ensures strongest == Strongest(entries)
    {
      ghost var orig := entries;
      ghost var j := 0;
      var i := 0;
      strongest := None;
      while i < |entries|
        invariant 0 <= i <= |entries|
        invariant 0 <= j <= |orig|
        invariant entries[..i] == Fresh(orig[..j], now)
        invariant entries[i..] == orig[j..]
        invariant strongest == Strongest(entries[..i])
        decreases |entries| - i
      {
        ScanStep(entries, orig, i, j, now);
        if now - entries[i].time > MaxAge {
          ghost var before := entries;
          entries := entries[..i] + entries[i + 1..];
          assert entries[..i] == before[..i];
          j := j + 1;
          continue;
        }
        if strongest.None? || Signal(entries[i].device) > Signal(strongest.value.device) {
          strongest := Some(entries[i]);
        }
        i := i + 1;
        j := j + 1;
      }
      assert orig[..j] == orig;
      assert entries[..i] == entries;
    }

    /**
     * `keep_best`: append the new observation stamped `stamp`, prune and scan
     * as `PickStrongest` does at `now`, and if the winner is the device just
     * seen, answer with a fresh record of this observation stamped `now`.
     */
    method KeepBest(device: Device, mfgHex: Option<HexString>, name: string, stamp: int, now: int)
      returns (best: Option<Beacon>)
      modifies this
      ensures entries == Fresh(old(entries), now) + (if now - stamp <= MaxAge then [Beacon(stamp, device, mfgHex, name)] else [])
      ensures best.None? <==> entries == []
      ensures entries != [] && Strongest(entries).value.device.address == device.address ==>
                best == Some(Beacon(now, device, mfgHex, name))
      // A consequence of the clauses before and after it, seen from the result's side.
      ensures best.Some? && best.value.device.address == device.address ==>
                best == Some(Beacon(now, device, mfgHex, name))
      ensures entries != [] && Strongest(entries).value.device.address != device.address ==>
                best == Strongest(entries)
    {
      var b := Beacon(stamp, device, mfgHex, name);
      entries := entries + [b];
      FreshSnoc(old(entries), b, now);
      best := PickStrongest(now);
      if best.Some? && best.value.device.address == device.address {
        best := Some(Beacon(now, device, mfgHex, name));
      }
    }
  }
}
