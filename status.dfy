/** The status projection of src/dscKeybusProcessData.cpp: the home-key tracker fed
    from keypad data and the decoding of a panel frame into trouble, power, armed and
    open-zone flags with their change latches.  Partition and zone arrays have one
    element (dscPartitions is 1), kept here as scalars. */
module ProcessData {
  import opened Bits
  import opened Framing

  /** trouble, previousTrouble, troubleChanged and the static previousTroubleChange. */
  datatype Trouble = Trouble(trouble: bool, previousTrouble: bool, troubleChanged: bool,
                             troubleTime: u32)

  /** powerTrouble, previousPowerTrouble, powerChanged. */
  datatype Power = Power(powerTrouble: bool, previousPowerTrouble: bool, powerChanged: bool)

  /** armed, armedStay, armedAway, previousArmed, armedChanged of partition 1. */
  datatype Arming = Arming(armed: bool, armedStay: bool, armedAway: bool, previousArmed: bool,
                           armedChanged: bool)

  /** A byte of zone flags, bit j standing for zone j + 1, as the sequence of its eight
      bits: bitRead is indexing and bitWrite is an update. */
  type ZoneBits = s: seq<bool> | |s| == 8
    witness [false, false, false, false, false, false, false, false]

  /** The zero byte. */
  const NoZones: ZoneBits := [false, false, false, false, false, false, false, false]

  /** The bits of a byte. */
  function ZoneByte(b: bv8): (z: ZoneBits)
    ensures forall j :: 0 <= j < 8 ==> z[j] == Bit(b, j)
  {
    seq(8, (j: nat) requires j < 8 => Bit(b, j))
  }

  /** `a ^ b` bit by bit. */
  function Xor(a: ZoneBits, b: ZoneBits): (r: ZoneBits)
    ensures forall j :: 0 <= j < 8 ==> r[j] == (a[j] != b[j])
  {
    seq(8, (j: nat) requires j < 8 => a[j] != b[j])
  }

  /** `a | b` bit by bit. */
  function Merge(a: ZoneBits, b: ZoneBits): (r: ZoneBits)
    ensures forall j :: 0 <= j < 8 ==> r[j] == (a[j] || b[j])
  {
    seq(8, (j: nat) requires j < 8 => a[j] || b[j])
  }

  /** The exclusive or of two zone bytes is zero exactly when they are equal. */
  lemma XorIsZero(a: ZoneBits, b: ZoneBits)
    ensures Xor(a, b) == NoZones <==> a == b
  {
    if Xor(a, b) == NoZones {
      assert forall j :: 0 <= j < 8 ==> Xor(a, b)[j] == NoZones[j];
      assert forall j :: 0 <= j < 8 ==> a[j] == b[j];
      assert a == b;
    }
    if a == b {
      assert Xor(a, b) == NoZones;
    }
  }

  /** `b >> 1` moves every bit down one place and clears bit 7. */
  lemma ShiftBits(b: bv8)
    ensures Bit(b >> 1, 0) == Bit(b, 1) && Bit(b >> 1, 1) == Bit(b, 2)
    ensures Bit(b >> 1, 2) == Bit(b, 3) && Bit(b >> 1, 3) == Bit(b, 4)
    ensures Bit(b >> 1, 4) == Bit(b, 5) && Bit(b >> 1, 5) == Bit(b, 6)
    ensures Bit(b >> 1, 6) == Bit(b, 7) && !Bit(b >> 1, 7)
  {
  }

  /** Byte 2 shifted right once: zone j + 1 is bit j + 1 of byte 2, and bit 7 is clear. */
  lemma ZoneByteShift(b: bv8, z: ZoneBits)
    requires z == ZoneByte(b >> 1)
    ensures forall j :: 0 <= j < 7 ==> z[j] == Bit(b, j + 1)
    ensures !z[7]
  {
    ShiftBits(b);
    forall j | 0 <= j < 7
      ensures z[j] == Bit(b, j + 1)
    {
      // One empty case per bit position: each fixes j, so the bit-vector shift and
      // mask become constants the solver evaluates.
      if j == 0 {
      } else if j == 1 {
      } else if j == 2 {
      } else if j == 3 {
      } else if j == 4 {
      } else if j == 5 {
      }
    }
  }

  /** openZones, previousOpenZones, openZonesChanged of zones 1-8, and
      openZonesStatusChanged. */
  datatype Zones = Zones(openZones: ZoneBits, previousOpenZones: ZoneBits,
                         openZonesChanged: ZoneBits, openZonesStatusChanged: bool)

  /** The members processPanel_Zones and processHomeKey read and write. */
  datatype Status = Status(statusChanged: bool, trouble: Trouble, power: Power, arming: Arming,
                           zones: Zones, previousHomeKey: bool)

  /** Everything false and zero, as the statics and members start. */
  function Initial(): Status
  {
    Status(false, Trouble(false, false, false, 0), Power(false, false, false),
           Arming(false, false, false, false, false), Zones(NoZones, NoZones, NoZones, false), false)
  }

  // ---------------------------------------------------------------- home key

  const HomePattern: bv8 := 0xFD

  /** Keypad patterns that keep a seen home key alive (the between-keys 0xFF, enter 0xEF). */
  predicate KeepsHome(key: bv8)
  {
    key == 0xFF || key == 0xEF
  }

  /** processHomeKey: the flag after one keypad byte. */
  function HomeKey(held: bool, key: bv8): (r: bool)
    ensures r <==> key == HomePattern || (held && KeepsHome(key))
  {
    key == HomePattern || (held && (key == 0xFF || key == 0xEF))
  }

  /** The flag after a run of keypad bytes, oldest first. */
  function HomeKeyRun(held: bool, keys: seq<bv8>): bool
  {
    if keys == [] then held else HomeKey(HomeKeyRun(held, keys[..|keys| - 1]), keys[|keys| - 1])
  }

  /** The home key was pressed at position i and only keep-alive bytes came after it. */
  predicate HomeSince(keys: seq<bv8>, i: nat)
  {
    i < |keys| && keys[i] == HomePattern && forall j :: i < j < |keys| ==> KeepsHome(keys[j])
  }

  /** The flag is set exactly when some home key was followed only by keep-alive bytes, or
      it was already set and only keep-alive bytes came. */
  lemma {:induction false} HomeKeyHistory(held: bool, keys: seq<bv8>)
    ensures HomeKeyRun(held, keys) <==>
              (exists i :: 0 <= i < |keys| && HomeSince(keys, i))
              || (held && forall j :: 0 <= j < |keys| ==> KeepsHome(keys[j]))
  {
    if keys != [] {
      var n := |keys| - 1;
      var pre := keys[..n];
      HomeKeyHistory(held, pre);
      if keys[n] == HomePattern {
        assert HomeSince(keys, n);
      } else if KeepsHome(keys[n]) {
        if exists i :: 0 <= i < |pre| && HomeSince(pre, i) {
          var i :| 0 <= i < |pre| && HomeSince(pre, i);
          assert HomeSince(keys, i);
        }
        if exists i :: 0 <= i < |keys| && HomeSince(keys, i) {
          var i :| 0 <= i < |keys| && HomeSince(keys, i);
          assert HomeSince(pre, i);
        }
        if held && forall j :: 0 <= j < |pre| ==> KeepsHome(pre[j]) {
          assert forall j :: 0 <= j < |keys| ==> KeepsHome(keys[j]) by {
            forall j | 0 <= j < |keys| ensures KeepsHome(keys[j]) {
              if j < n {
                assert keys[j] == pre[j];
              }
            }
          }
        }
      } else {
        forall i | 0 <= i < |keys|
          ensures !HomeSince(keys, i)
        {
          if i < n {
            assert !KeepsHome(keys[n]);
          }
        }
      }
    }
  }

  // ---------------------------------------------------------------- panel_Zones

  /** Lines 14-21: a change of bit 3 of byte 3 is latched only more than 3000 ms after
      the last latched change. */
  predicate TroubleLatches(t: Trouble, bit: bool, now: u32)
  {
    bit != t.previousTrouble && Since(now, t.troubleTime) > 3000
  }

  function TroubleStep(t: Trouble, bit: bool, now: u32): (r: Trouble)
    ensures r.trouble == bit
    ensures TroubleLatches(t, bit, now) ==>
              r.previousTrouble == bit && r.troubleChanged && r.troubleTime == now
    ensures !TroubleLatches(t, bit, now) ==>
              r.previousTrouble == t.previousTrouble && r.troubleChanged == t.troubleChanged
              && r.troubleTime == t.troubleTime
  {
    if TroubleLatches(t, bit, now) then Trouble(bit, bit, true, now) else t.(trouble := bit)
  }

  /** Lines 24-31: powerChanged is raised exactly when bit 2 of byte 3 differs from the
      previous value, which is then recorded. */
  function PowerStep(p: Power, bit: bool): (r: Power)
    ensures r.powerTrouble == bit && r.previousPowerTrouble == bit
    ensures r.powerChanged == (p.powerChanged || bit != p.previousPowerTrouble)
  {
    if bit != p.previousPowerTrouble then Power(bit, bit, true) else p.(powerTrouble := bit)
  }

  /** Lines 35-46: stay and away split armed by the home key; a change of the armed flag
      is latched. */
  function ArmingStep(a: Arming, armedFlag: bool, homeKey: bool): (r: Arming)
    ensures r.armed == armedFlag && r.previousArmed == armedFlag
    ensures !(r.armedStay && r.armedAway) && (r.armedStay || r.armedAway) == r.armed
    ensures r.armedStay == (homeKey && r.armed)
    ensures r.armedChanged == (a.armedChanged || armedFlag != a.previousArmed)
  {
    Arming(armedFlag, homeKey && armedFlag, !homeKey && armedFlag, armedFlag,
           a.armedChanged || a.previousArmed != armedFlag)
  }

  /** Lines 49-63: the zone byte is recorded, and the bits in which it differs from the
      previous zone byte are added to openZonesChanged. */
  function ZonesStep(z: Zones, zoneData: ZoneBits): (r: Zones)
    ensures r.openZones == zoneData && r.previousOpenZones == zoneData
    ensures r.openZonesStatusChanged <==> z.openZonesStatusChanged || zoneData != z.previousOpenZones
    ensures forall j :: 0 <= j < 8 ==>
              r.openZonesChanged[j] == (z.openZonesChanged[j] || zoneData[j] != z.previousOpenZones[j])
  {
    if zoneData != z.previousOpenZones then
      Zones(zoneData, zoneData, Merge(z.openZonesChanged, Xor(zoneData, z.previousOpenZones)), true)
    else z.(openZones := zoneData)
  }

  /** Each block of processPanel_Zones on the members, in the order the source runs
      them; each raises statusChanged when its own latch fires. */
  function TroubleUpdate(s: Status, troubleBit: bool, now: u32): Status
  {
    s.(statusChanged := s.statusChanged || TroubleLatches(s.trouble, troubleBit, now),
       trouble := TroubleStep(s.trouble, troubleBit, now))
  }

  function PowerUpdate(s: Status, powerBit: bool): Status
  {
    s.(statusChanged := s.statusChanged || powerBit != s.power.previousPowerTrouble,
       power := PowerStep(s.power, powerBit))
  }

  /** A change of the armed flag also forgets the home key. */
  function ArmedUpdate(s: Status, armedFlag: bool): Status
  {
    s.(statusChanged := s.statusChanged || armedFlag != s.arming.previousArmed,
       arming := ArmingStep(s.arming, armedFlag, s.previousHomeKey),
       previousHomeKey := s.previousHomeKey && armedFlag == s.arming.previousArmed)
  }

  function ZonesUpdate(s: Status, zoneData: ZoneBits): Status
  {
    s.(statusChanged := s.statusChanged || zoneData != s.zones.previousOpenZones,
       zones := ZonesStep(s.zones, zoneData))
  }

  /** One decoded frame applied to the members. */
  function PanelStep(s: Status, troubleBit: bool, powerBit: bool, armedFlag: bool,
                     zoneData: ZoneBits, now: u32): Status
  {
    ZonesUpdate(ArmedUpdate(PowerUpdate(TroubleUpdate(s, troubleBit, now), powerBit), armedFlag),
                zoneData)
  }

  /** processPanel_Zones on the dequeued frame (data is panelData, bitCount
      panelBitCount, now the call's millis()): nothing at all happens to a frame of fewer
      than 24 bits; otherwise trouble is bit 3 of byte 3, power trouble bit 2, armed the
      inverse of bit 0, and the zone byte is byte 2 shifted right once. */
  function PanelZones(s: Status, data: seq<bv8>, bitCount: nat, now: u32): (r: Status)
    requires |data| == ReadSize
    ensures bitCount < 24 ==> r == s
  {
    if bitCount < 24 then s
    else PanelStep(s, Bit(data[3], 3), Bit(data[3], 2), !Bit(data[3], 0), ZoneByte(data[2] >> 1), now)
  }

  /** The latches are only ever raised: troubleChanged, powerChanged, armedChanged,
      openZonesStatusChanged and statusChanged stay set, and no bit of openZonesChanged
      is cleared. */
  lemma LatchesOnlyRise(s: Status, data: seq<bv8>, bitCount: nat, now: u32)
    requires |data| == ReadSize
    ensures var r := PanelZones(s, data, bitCount, now);
            (s.trouble.troubleChanged ==> r.trouble.troubleChanged)
            && (s.power.powerChanged ==> r.power.powerChanged)
            && (s.arming.armedChanged ==> r.arming.armedChanged)
            && (s.zones.openZonesStatusChanged ==> r.zones.openZonesStatusChanged)
            && (s.statusChanged ==> r.statusChanged)
            && (forall j :: 0 <= j < 8 && s.zones.openZonesChanged[j] ==>
                  r.zones.openZonesChanged[j])
  {
  }

  /** statusChanged is raised exactly when one of the groups latched a change this call. */
  lemma StatusChangedIsAnyLatch(s: Status, data: seq<bv8>, bitCount: nat, now: u32)
    requires |data| == ReadSize && bitCount >= 24
    ensures var r := PanelZones(s, data, bitCount, now);
            r.statusChanged <==>
              s.statusChanged
              || r.trouble.previousTrouble != s.trouble.previousTrouble
              || r.power.powerTrouble != s.power.previousPowerTrouble
              || r.arming.armed != s.arming.previousArmed
              || r.zones.openZones != s.zones.previousOpenZones
  {
  }

  /** The armed flag is bit 0 of byte 3 inverted, and a change of it raises armedChanged
      and statusChanged and forgets the home key; otherwise the home key stays. */
  lemma ArmedChange(s: Status, data: seq<bv8>, bitCount: nat, now: u32)
    requires |data| == ReadSize && bitCount >= 24
    ensures var r := PanelZones(s, data, bitCount, now);
            r.arming.armed == !Bit(data[3], 0)
            && (r.arming.armed != s.arming.previousArmed ==>
                  r.arming.armedChanged && r.statusChanged && !r.previousHomeKey)
            && (r.arming.armed == s.arming.previousArmed ==> r.previousHomeKey == s.previousHomeKey)
            && r.arming.armedStay == (s.previousHomeKey && r.arming.armed)
  {
  }

  /** openZones is byte 2 shifted right once: zone j + 1 is open exactly when bit j + 1
      of byte 2 is set, and the eighth flag is always clear. */
  lemma OpenZonesDecoded(s: Status, data: seq<bv8>, bitCount: nat, now: u32)
    requires |data| == ReadSize && bitCount >= 24
    ensures var r := PanelZones(s, data, bitCount, now);
            (forall j :: 0 <= j < 7 ==> r.zones.openZones[j] == Bit(data[2], j + 1))
            && !r.zones.openZones[7]
  {
    ZoneByteShift(data[2], ZoneByte(data[2] >> 1));
  }

  // ---------------------------------------------------------------- the members

  /** The processData members of the interface object, grouped by the block of
      processPanel_Zones that writes them. */
  class PanelStatus {
    var statusChanged: bool
    var trouble: Trouble
    var power: Power
    var arming: Arming
    var zones: Zones
    var previousHomeKey: bool

    /** The members as one value. */
    function Snapshot(): Status
      reads this
    {
      Status(statusChanged, trouble, power, arming, zones, previousHomeKey)
    }

    constructor ()
      ensures Snapshot() == Initial()
    {
      statusChanged := false;
      trouble := Trouble(false, false, false, 0);
      power := Power(false, false, false);
      arming := Arming(false, false, false, false, false);
      zones := Zones(NoZones, NoZones, NoZones, false);
      previousHomeKey := false;
    }

    /** processHomeKey, fed with moduleData[0]. */
    method ProcessHomeKey(key: bv8)
      modifies this`previousHomeKey
      ensures previousHomeKey == HomeKey(old(previousHomeKey), key)
    {
      previousHomeKey := key == 0xFD || (previousHomeKey && (key == 0xFF || key == 0xEF));
    }

    /** processPanel_Zones: decode the frame and raise the change latches. */
    method ProcessPanelZones(panelData: seq<bv8>, panelBitCount: nat, now: u32)
      requires |panelData| == ReadSize
      modifies this
      ensures Snapshot() == PanelZones(old(Snapshot()), panelData, panelBitCount, now)
    {
      if panelBitCount < 24 {
        return;
      }
      Decoded(Bit(panelData[3], 3), Bit(panelData[3], 2), !Bit(panelData[3], 0),
              ZoneByte(panelData[2] >> 1), now);
    }

    /** The body of processPanel_Zones past the length check, on the decoded bits. */
    method Decoded(troubleBit: bool, powerBit: bool, armedFlag: bool, zoneData: ZoneBits, now: u32)
      modifies this
      ensures Snapshot() == PanelStep(old(Snapshot()), troubleBit, powerBit, armedFlag, zoneData, now)
    {
      UpdateTrouble(troubleBit, now);
      UpdatePower(powerBit);
      UpdateArmed(armedFlag);
      UpdateZones(zoneData);
    }

    /** Lines 14-21, the trouble flag and its debounced latch. */
    method UpdateTrouble(bit: bool, now: u32)
      modifies this`trouble, this`statusChanged
      ensures trouble == TroubleStep(old(trouble), bit, now)
      ensures statusChanged == (old(statusChanged) || TroubleLatches(old(trouble), bit, now))
    {
      trouble := trouble.(trouble := bit);
      if trouble.trouble != trouble.previousTrouble && Since(now, trouble.troubleTime) > 3000 {
        trouble := trouble.(previousTrouble := trouble.trouble, troubleChanged := true,
                            troubleTime := now);
        statusChanged := true;
      }
    }

    /** Lines 24-31, the power trouble flag and its latch. */
    method UpdatePower(bit: bool)
      modifies this`power, this`statusChanged
      ensures power == PowerStep(old(power), bit)
      ensures statusChanged == (old(statusChanged) || bit != old(power.previousPowerTrouble))
    {
      power := power.(powerTrouble := bit);
      if power.powerTrouble != power.previousPowerTrouble {
        power := power.(previousPowerTrouble := power.powerTrouble, powerChanged := true);
        statusChanged := true;
      }
    }

    /** Lines 33-46, armed stay and away of partition 1 and the armed latch. */
    method UpdateArmed(armedFlag: bool)
      modifies this`arming, this`statusChanged, this`previousHomeKey
      ensures arming == ArmingStep(old(arming), armedFlag, old(previousHomeKey))
      ensures statusChanged == (old(statusChanged) || armedFlag != old(arming.previousArmed))
      ensures previousHomeKey == (old(previousHomeKey) && armedFlag == old(arming.previousArmed))
    {
      arming := arming.(armedStay := previousHomeKey && armedFlag,
                        armedAway := !previousHomeKey && armedFlag, armed := armedFlag);
      if arming.previousArmed != armedFlag {
        arming := arming.(previousArmed := armedFlag, armedChanged := true);
        statusChanged := true;
        previousHomeKey := false;
      }
    }

    /** Lines 49-63, the zone byte and the per-zone change latches. */
    method UpdateZones(zoneData: ZoneBits)
      modifies this`zones, this`statusChanged
      ensures zones == ZonesStep(old(zones), zoneData)
      ensures statusChanged == (old(statusChanged) || zoneData != old(zones.previousOpenZones))
    {
      zones := zones.(openZones := zoneData);
      var zonesChanged := Xor(zones.openZones, zones.previousOpenZones);
      XorIsZero(zoneData, zones.previousOpenZones);
      if zonesChanged != NoZones {
        zones := zones.(previousOpenZones := zones.openZones, openZonesStatusChanged := true);
        statusChanged := true;
        var latched, zoneByte := WriteZoneBits(zones.openZonesChanged, zoneData, zonesChanged);
        zones := zones.(openZonesChanged := latched, openZones := zoneByte);
      }
    }
  }

  /** The bitWrite loop of lines 55-61, on copies of openZonesChanged[0] and of
      openZones[0] (which already holds zoneData): every changed bit is set in the latch,
      and each changed zone bit is rewritten from zoneData, so the zone byte stays zoneData. */
  method WriteZoneBits(openZonesChanged: ZoneBits, zoneData: ZoneBits, zonesChanged: ZoneBits)
      returns (latched: ZoneBits, zones: ZoneBits)
    ensures latched == Merge(openZonesChanged, zonesChanged)
    ensures zones == zoneData
  {
    latched, zones := openZonesChanged, zoneData;
    for zoneBit := 0 to 8
      invariant forall j :: 0 <= j < 8 ==>
                  latched[j] == (openZonesChanged[j] || (j < zoneBit && zonesChanged[j]))
      invariant zones == zoneData
    {
      if zonesChanged[zoneBit] {
        latched := latched[zoneBit := true];
        zones := zones[zoneBit := zoneData[zoneBit]];
      }
    }
    assert forall j :: 0 <= j < 8 ==> latched[j] == Merge(openZonesChanged, zonesChanged)[j];
  }
}
