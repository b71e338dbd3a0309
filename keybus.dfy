/** The Keybus interface object of src/dscKeybusInterface.cpp: the two interrupt routines
    (dscClockInterrupt, dscDataInterrupt), the consumer handlePanel that hands the sketch
    one command per call, handleModule, and the virtual-keypad entry points write and
    writeKeys.

    The interrupts and the sketch's calls are methods that run one at a time, in any
    order; each keeps Valid().  Hardware reads (the clock and data lines, micros(),
    millis()) are parameters, and the level the clock interrupt gives the write pin is a
    result. */
module Keybus {
  import opened Bits
  import opened Wrappers
  import opened Framing
  import opened Redundancy
  import opened Filter
  import opened Keys
  import opened Injector
  import opened ProcessData
  import opened Capture

  /** What a clock interrupt does to the write pin. */
  datatype Pin = Untouched | Low | High

  /** The buffer after a gap: the command laid out from `bits` is appended unless the
      buffer is full, skipData was raised while capturing, or the capture stage discards it
      (lines 486-507). */
  ghost function Enqueued(frames: seq<Frame>, bufferSize: nat, skipData: bool,
                          prev05: seq<bv8>, prev1B: seq<bv8>, bits: seq<bool>): (r: seq<Frame>)
    requires |prev05| == ReadSize && |prev1B| == ReadSize && |bits| <= MaxPanelBits
    ensures r == frames || r == frames + [Frame(PanelFrame(bits), |bits|, PanelByte(|bits|))]
    ensures |frames| == bufferSize ==> r == frames
  {
    PanelByteBound(|bits|);
    var captured := Frame(PanelFrame(bits), |bits|, PanelByte(|bits|));
    if |frames| == bufferSize || skipData
       || CaptureDiscards(prev05, prev1B, captured.data, captured.bitCount, captured.byteCount)
    then frames
    else frames + [captured]
  }

  /** The gap appends the captured command exactly when the buffer has room, skipData
      stayed off and the capture stage does not discard it (short, or a repeated 0x05 or
      0x1B status command); otherwise the buffer is unchanged. */
  lemma EnqueuedExactly(frames: seq<Frame>, bufferSize: nat, skipData: bool,
                        prev05: seq<bv8>, prev1B: seq<bv8>, bits: seq<bool>)
    requires |prev05| == ReadSize && |prev1B| == ReadSize && |bits| <= MaxPanelBits
    ensures PanelByte(|bits|) <= ReadSize
    ensures var captured := Frame(PanelFrame(bits), |bits|, PanelByte(|bits|));
            var r := Enqueued(frames, bufferSize, skipData, prev05, prev1B, bits);
            (r == frames + [captured] <==>
               |frames| != bufferSize && !skipData
               && !CaptureDiscards(prev05, prev1B, captured.data, captured.bitCount,
                                   captured.byteCount))
            && (r != frames + [captured] ==> r == frames)
  {
    PanelByteBound(|bits|);
    var captured := Frame(PanelFrame(bits), |bits|, PanelByte(|bits|));
    assert |frames + [captured]| != |frames|;
  }

  /** A complete command that is not a status command reaches the buffer whenever there
      is room and the capture did not overrun; a repeated status command never does. */
  lemma EnqueuedKeeps(frames: seq<Frame>, bufferSize: nat, prev05: seq<bv8>,
                      prev1B: seq<bv8>, bits: seq<bool>)
    requires |prev05| == ReadSize && |prev1B| == ReadSize && 8 <= |bits| <= MaxPanelBits
    requires |frames| < bufferSize
    requires PanelFrame(bits)[0] != 0x05 && PanelFrame(bits)[0] != 0x1B
    ensures Enqueued(frames, bufferSize, false, prev05, prev1B, bits)
            == frames + [Frame(PanelFrame(bits), |bits|, PanelByte(|bits|))]
  {
    PanelByteBound(|bits|);
  }

  /** The status after a command surfaces: processHomeKey on moduleData[0], then
      processPanel_Zones on the command.  A command without a valid CRC only moves the
      home-key flag; a decoded one splits armed into stay and away by the flag as
      processHomeKey just left it, and no latch that was raised is cleared. */
  function Delivered(s: Status, homeKeyByte: bv8, f: Frame, now: u32): (r: Status)
    requires |f.data| == ReadSize
    ensures !ValidCrc(f.bitCount) ==>
              r == s.(previousHomeKey := HomeKey(s.previousHomeKey, homeKeyByte))
    ensures ValidCrc(f.bitCount) ==>
              r.arming.armed == !Bit(f.data[3], 0)
              && r.arming.armedStay == (HomeKey(s.previousHomeKey, homeKeyByte) && r.arming.armed)
    ensures s.statusChanged ==> r.statusChanged
  {
    var held := s.(previousHomeKey := HomeKey(s.previousHomeKey, homeKeyByte));
    LatchesOnlyRise(held, f.data, f.bitCount, now);
    if f.bitCount >= 24 then
      ArmedChange(held, f.data, f.bitCount, now);
      PanelZones(held, f.data, f.bitCount, now)
    else
      PanelZones(held, f.data, f.bitCount, now)
  }

  /** The eight statically allocated byte buffers of the interface besides the two
      capture buffers, zeroed. */
  method NewBuffers() returns (a0: array<bv8>, a1: array<bv8>, a2: array<bv8>, a3: array<bv8>,
                               a4: array<bv8>, a5: array<bv8>, a6: array<bv8>, a7: array<bv8>)
    ensures fresh(a0) && fresh(a1) && fresh(a2) && fresh(a3)
    ensures fresh(a4) && fresh(a5) && fresh(a6) && fresh(a7)
    ensures a0[..] == Zeros() && a1[..] == Zeros() && a2[..] == Zeros() && a3[..] == Zeros()
    ensures a4[..] == Zeros() && a5[..] == Zeros() && a6[..] == Zeros() && a7[..] == Zeros()
    ensures a0 != a1 && a0 != a2 && a0 != a3 && a0 != a4 && a0 != a5 && a0 != a6 && a0 != a7
    ensures a1 != a2 && a1 != a3 && a1 != a4 && a1 != a5 && a1 != a6 && a1 != a7
    ensures a2 != a3 && a2 != a4 && a2 != a5 && a2 != a6 && a2 != a7
    ensures a3 != a4 && a3 != a5 && a3 != a6 && a3 != a7
    ensures a4 != a5 && a4 != a6 && a4 != a7
    ensures a5 != a6 && a5 != a7
    ensures a6 != a7
  {
    a0 := new bv8[ReadSize](_ => 0);
    a1 := new bv8[ReadSize](_ => 0);
    a2 := new bv8[ReadSize](_ => 0);
    a3 := new bv8[ReadSize](_ => 0);
    a4 := new bv8[ReadSize](_ => 0);
    a5 := new bv8[ReadSize](_ => 0);
    a6 := new bv8[ReadSize](_ => 0);
    a7 := new bv8[ReadSize](_ => 0);
    assert a0[..] == Zeros() && a1[..] == Zeros() && a2[..] == Zeros() && a3[..] == Zeros();
    assert a4[..] == Zeros() && a5[..] == Zeros() && a6[..] == Zeros() && a7[..] == Zeros();
  }

  class KeybusInterface {
    // ------------------------------------------------------------ configuration

    /** A write pin other than 255 makes the interface a virtual keypad. */
    const virtualKeypad: bool
    /** dscPartitions. */
    const partitions: nat
    /** Public switches of the sketch; the constructor turns both on. */
    var processRedundantData: bool
    var processModuleData: bool

    // ------------------------------------------------------------ interrupt side

    /** isrPanelData with its counters, and isrModuleData with its counters. */
    const panelCapture: PanelCapture
    const moduleCapture: ModuleCapture
    /** The statics previousCmd05 and previousCmd1B of the gap handling. */
    const previousCmd05: array<bv8>
    const previousCmd1B: array<bv8>
    /** micros() at the last rising clock edge, the length of the last high phase, and
        millis() at the last gap. */
    var previousClockHighTime: u32
    var clockHighTime: u32
    var keybusTime: u32
    /** panelBuffer and its counters, and the read cursor of handlePanel. */
    const buffer: CommandBuffer
    /** The single module slot filled at the gap. */
    const moduleData: array<bv8>
    var moduleBitCount: nat
    var moduleByteCount: nat
    var moduleDataCaptured: bool

    // ------------------------------------------------------------ sketch side

    const panelData: array<bv8>
    var panelBitCount: nat
    var panelByteCount: nat
    /** The static firstClockCycle of handlePanel. */
    var firstClockCycle: bool
    /** The statics previousCmd0A, previousCmdE6_20, previousCmdE6_03 and previousCmd. */
    const previousCmd0A: array<bv8>
    const previousCmdE6_20: array<bv8>
    const previousCmdE6_03: array<bv8>
    const previousCmd: array<bv8>
    var keybusConnected: bool
    var previousKeybus: bool
    var keybusChanged: bool
    /** The members that processData updates (statusChanged among them). */
    const status: PanelStatus
    /** The writer's members and statics as one value. */
    var writer: Writer

    // ------------------------------------------------------------ invariants

    /** The byte buffers have dscReadSize bytes and are distinct from one another and
        from the count arrays of the command buffer. */
    predicate ArraysOk()
    {
      var p, m := panelCapture.data, moduleCapture.data;
      var sized :=
        p.Length == ReadSize && m.Length == ReadSize
        && previousCmd05.Length == ReadSize && previousCmd1B.Length == ReadSize
        && moduleData.Length == ReadSize && panelData.Length == ReadSize
        && previousCmd0A.Length == ReadSize && previousCmdE6_20.Length == ReadSize
        && previousCmdE6_03.Length == ReadSize && previousCmd.Length == ReadSize;
      var apart :=
        p != m && p != previousCmd05 && p != previousCmd1B && p != moduleData
        && p != panelData && p != previousCmd0A && p != previousCmdE6_20
        && p != previousCmdE6_03 && p != previousCmd
        && m != previousCmd05 && m != previousCmd1B && m != moduleData && m != panelData
        && m != previousCmd0A && m != previousCmdE6_20 && m != previousCmdE6_03
        && m != previousCmd
        && previousCmd05 != previousCmd1B && previousCmd05 != moduleData
        && previousCmd05 != panelData && previousCmd05 != previousCmd0A
        && previousCmd05 != previousCmdE6_20 && previousCmd05 != previousCmdE6_03
        && previousCmd05 != previousCmd
        && previousCmd1B != moduleData && previousCmd1B != panelData
        && previousCmd1B != previousCmd0A && previousCmd1B != previousCmdE6_20
        && previousCmd1B != previousCmdE6_03 && previousCmd1B != previousCmd
        && moduleData != panelData && moduleData != previousCmd0A
        && moduleData != previousCmdE6_20 && moduleData != previousCmdE6_03
        && moduleData != previousCmd
        && panelData != previousCmd0A && panelData != previousCmdE6_20
        && panelData != previousCmdE6_03 && panelData != previousCmd
        && previousCmd0A != previousCmdE6_20 && previousCmd0A != previousCmdE6_03
        && previousCmd0A != previousCmd
        && previousCmdE6_20 != previousCmdE6_03 && previousCmdE6_20 != previousCmd
        && previousCmdE6_03 != previousCmd
        && p as object != buffer.bitCounts && p as object != buffer.byteCounts
        && m as object != buffer.bitCounts && m as object != buffer.byteCounts
        && previousCmd05 as object != buffer.bitCounts && previousCmd05 as object != buffer.byteCounts
        && previousCmd1B as object != buffer.bitCounts && previousCmd1B as object != buffer.byteCounts
        && moduleData as object != buffer.bitCounts && moduleData as object != buffer.byteCounts
        && panelData as object != buffer.bitCounts && panelData as object != buffer.byteCounts
        && previousCmd0A as object != buffer.bitCounts && previousCmd0A as object != buffer.byteCounts
        && previousCmdE6_20 as object != buffer.bitCounts && previousCmdE6_20 as object != buffer.byteCounts
        && previousCmdE6_03 as object != buffer.bitCounts && previousCmdE6_03 as object != buffer.byteCounts
        && previousCmd as object != buffer.bitCounts && previousCmd as object != buffer.byteCounts;
      sized && apart
    }

    ghost predicate Valid()
      reads this`writer, panelCapture, panelCapture.data, moduleCapture, moduleCapture.data,
            buffer, buffer.rows, buffer.bitCounts, buffer.byteCounts
    {
      panelCapture.Valid() && moduleCapture.Valid() && buffer.Valid()
      && 1 <= buffer.size <= 255 && WriterOk(writer)
    }

    /** The consumer's four remembered commands. */
    ghost function Remembered(): Trackers
      reads previousCmd0A, previousCmdE6_20, previousCmdE6_03, previousCmd
    {
      Trackers(previousCmd0A[..], previousCmdE6_20[..], previousCmdE6_03[..], previousCmd[..])
    }

    // ------------------------------------------------------------ construction

    /** The constructor with the pin assignment reduced to the write pin (255 for none),
        and the header's dscBufferSize and dscPartitions as parameters.  Statics start at
        zero, writeReady and both switches on, writePartition 1. */
    constructor (writePin: nat, bufferSize: nat, setPartitions: nat)
      requires 1 <= bufferSize <= 255
      ensures ArraysOk() && Valid()
      ensures virtualKeypad == (writePin != 255) && partitions == setPartitions
      ensures buffer.size == bufferSize && buffer.Pending() == [] && !buffer.overflow
      ensures processRedundantData && processModuleData && firstClockCycle
      ensures writer == Idle() && status.Snapshot() == Initial()
      ensures panelCapture.bits == [] && moduleCapture.bits == []
      ensures !moduleDataCaptured && !keybusConnected && !previousKeybus && !keybusChanged
    {
      virtualKeypad := writePin != 255;
      partitions := setPartitions;
      processRedundantData, processModuleData := true, true;
      panelCapture := new PanelCapture();
      moduleCapture := new ModuleCapture();
      buffer := new CommandBuffer(bufferSize);
      var b0, b1, b2, b3, b4, b5, b6, b7 := NewBuffers();
      previousCmd05, previousCmd1B, moduleData, panelData := b0, b1, b2, b3;
      previousCmd0A, previousCmdE6_20, previousCmdE6_03, previousCmd := b4, b5, b6, b7;
      previousClockHighTime, clockHighTime, keybusTime := 0, 0, 0;
      moduleBitCount, moduleByteCount, moduleDataCaptured := 0, 0, false;
      panelBitCount, panelByteCount, firstClockCycle := 0, 0, true;
      keybusConnected, previousKeybus, keybusChanged := false, false, false;
      status := new PanelStatus();
      writer := Idle();
      IdleOk();
    }

    // ------------------------------------------------------------ dscDataInterrupt

    /** dscDataInterrupt, 250 us after a clock change: with the clock high a panel bit;
        with the clock low a keypad/module bit (taken only while processModuleData is on,
        the module buffer has room and at most one command is buffered) and, after a high
        phase of more than 1000 us, the end of the command (lines 397-535). */
    method DataSample(clockHigh: bool, dataHigh: bool, nowMs: u32)
      requires ArraysOk() && Valid()
      modifies panelCapture, panelCapture.data, moduleCapture, moduleCapture.data,
               this`keybusTime, previousCmd05, previousCmd1B,
               buffer, buffer.rows, buffer.bitCounts, buffer.byteCounts,
               moduleData, this`moduleDataCaptured, this`moduleBitCount, this`moduleByteCount
      ensures Valid()
      ensures clockHigh ==>
                panelCapture.bits == (if old(panelCapture.byteCount) < ReadSize
                                      then old(panelCapture.bits) + [dataHigh]
                                      else old(panelCapture.bits))
                && panelCapture.skipData == (old(panelCapture.skipData)
                                             || old(panelCapture.byteCount) >= ReadSize)
                && buffer.frames == old(buffer.frames) && moduleCapture.bits == old(moduleCapture.bits)
      ensures !clockHigh && clockHighTime <= 1000 ==>
                moduleCapture.bits == (if processModuleData && old(moduleCapture.byteCount) < ReadSize
                                          && old(buffer.length) <= 1
                                       then old(moduleCapture.bits) + [dataHigh]
                                       else old(moduleCapture.bits))
                && buffer.frames == old(buffer.frames) && panelCapture.bits == old(panelCapture.bits)
                && panelCapture.skipData == old(panelCapture.skipData)
      ensures clockHigh || clockHighTime <= 1000 ==>
                keybusTime == old(keybusTime) && buffer.overflow == old(buffer.overflow)
                && moduleData[..] == old(moduleData[..]) && moduleDataCaptured == old(moduleDataCaptured)
                && moduleBitCount == old(moduleBitCount) && moduleByteCount == old(moduleByteCount)
                && previousCmd05[..] == old(previousCmd05[..])
                && previousCmd1B[..] == old(previousCmd1B[..])
      ensures !clockHigh && clockHighTime > 1000 ==>
                keybusTime == nowMs && panelCapture.bits == [] && !panelCapture.skipData
                && (processModuleData ==> moduleCapture.bits == [])
                && (!processModuleData ==> moduleCapture.bits == old(moduleCapture.bits))
                && buffer.frames == Enqueued(old(buffer.frames), buffer.size,
                                             old(panelCapture.skipData), old(previousCmd05[..]),
                                             old(previousCmd1B[..]), old(panelCapture.bits))
      ensures !clockHigh && clockHighTime > 1000 ==>
                previousCmd05[..] == TrackStatus(0x05, old(previousCmd05[..]), old(panelCapture.data[..]),
                                                 old(panelCapture.bitTotal), old(panelCapture.byteCount))
                && previousCmd1B[..] == TrackStatus(0x1B, old(previousCmd1B[..]),
                                                    old(panelCapture.data[..]),
                                                    old(panelCapture.bitTotal),
                                                    old(panelCapture.byteCount))
      ensures buffer.index == old(buffer.index)
      ensures old(buffer.overflow) ==> buffer.overflow
    {
      if clockHigh {
        panelCapture.Sample(dataHigh);
      } else {
        if processModuleData && moduleCapture.byteCount < ReadSize && buffer.length <= 1 {
          moduleCapture.Sample(dataHigh);
        }
        if clockHighTime > 1000 {
          EndOfCommand(nowMs);
        }
      }
    }

    /** Lines 482-532, the gap after a command: stamp keybusTime, keep or drop the
        captured command, clear the panel capture, and when processModuleData is on hand a
        module command that pulled the line low to the module slot and clear the module
        capture. */
    method EndOfCommand(nowMs: u32)
      requires ArraysOk() && Valid()
      modifies panelCapture, panelCapture.data, moduleCapture, moduleCapture.data,
               this`keybusTime, previousCmd05, previousCmd1B,
               buffer, buffer.rows, buffer.bitCounts, buffer.byteCounts,
               moduleData, this`moduleDataCaptured, this`moduleBitCount, this`moduleByteCount
      ensures Valid()
      ensures keybusTime == nowMs
      ensures buffer.frames == Enqueued(old(buffer.frames), buffer.size,
                                        old(panelCapture.skipData), old(previousCmd05[..]),
                                        old(previousCmd1B[..]), old(panelCapture.bits))
      ensures buffer.overflow == (old(buffer.overflow) || old(buffer.length) == buffer.size)
      ensures buffer.index == old(buffer.index)
      ensures panelCapture.bits == [] && panelCapture.data[..] == Zeros() && !panelCapture.skipData
      ensures processModuleData ==> moduleCapture.bits == []
      ensures previousCmd05[..] == TrackStatus(0x05, old(previousCmd05[..]), old(panelCapture.data[..]),
                                               old(panelCapture.bitTotal), old(panelCapture.byteCount))
      ensures previousCmd1B[..] == TrackStatus(0x1B, old(previousCmd1B[..]), old(panelCapture.data[..]),
                                               old(panelCapture.bitTotal), old(panelCapture.byteCount))
      ensures !processModuleData ==> moduleCapture.bits == old(moduleCapture.bits)
      ensures processModuleData && old(moduleCapture.detected) ==>
                moduleDataCaptured && moduleData[..] == ModuleFrame(old(moduleCapture.bits))
                && moduleBitCount == |old(moduleCapture.bits)|
                && moduleByteCount == ModuleByte(|old(moduleCapture.bits)|)
      ensures !(processModuleData && old(moduleCapture.detected)) ==>
                moduleDataCaptured == old(moduleDataCaptured)
                && moduleData[..] == old(moduleData[..])
    {
      keybusTime := nowMs;
      StorePanel();
      if processModuleData {
        StoreModule();
      }
    }

    /** Lines 486-514: keep or drop the captured panel command, then clear the capture. */
    method StorePanel()
      requires ArraysOk() && panelCapture.Valid() && buffer.Valid()
      modifies panelCapture, panelCapture.data, previousCmd05, previousCmd1B,
               buffer, buffer.rows, buffer.bitCounts, buffer.byteCounts
      ensures panelCapture.Valid() && buffer.Valid()
      ensures buffer.frames == Enqueued(old(buffer.frames), buffer.size,
                                        old(panelCapture.skipData), old(previousCmd05[..]),
                                        old(previousCmd1B[..]), old(panelCapture.bits))
      ensures buffer.overflow == (old(buffer.overflow) || old(buffer.length) == buffer.size)
      ensures buffer.index == old(buffer.index)
      ensures panelCapture.bits == [] && panelCapture.data[..] == Zeros() && !panelCapture.skipData
      ensures previousCmd05[..] == TrackStatus(0x05, old(previousCmd05[..]), old(panelCapture.data[..]),
                                               old(panelCapture.bitTotal), old(panelCapture.byteCount))
      ensures previousCmd1B[..] == TrackStatus(0x1B, old(previousCmd1B[..]), old(panelCapture.data[..]),
                                               old(panelCapture.bitTotal), old(panelCapture.byteCount))
    {
      PanelByteBound(|panelCapture.bits|);
      CheckStatusRepeat();
      buffer.Store(panelCapture.skipData, panelCapture.data, panelCapture.bitTotal,
                   panelCapture.byteCount);
      panelCapture.Reset();
    }

    /** Lines 486-497: a command of fewer than eight bits, or a 0x05 or 0x1B status
        command equal to the last one over its byte count, raises skipData. */
    method CheckStatusRepeat()
      requires ArraysOk() && panelCapture.byteCount <= ReadSize
      modifies panelCapture`skipData, previousCmd05, previousCmd1B
      ensures var d := panelCapture.data[..];
              var n, t := panelCapture.byteCount, panelCapture.bitTotal;
              panelCapture.skipData == (old(panelCapture.skipData)
                                        || CaptureDiscards(old(previousCmd05[..]),
                                                           old(previousCmd1B[..]), d, t, n))
              && previousCmd05[..] == TrackStatus(0x05, old(previousCmd05[..]), d, t, n)
              && previousCmd1B[..] == TrackStatus(0x1B, old(previousCmd1B[..]), d, t, n)
    {
      if panelCapture.bitTotal < 8 {
        panelCapture.skipData := true;
      } else if panelCapture.data[0] == 0x05 {
        var redundant := RedundantPanelData(previousCmd05, panelCapture.data,
                                            panelCapture.byteCount);
        if redundant {
          panelCapture.skipData := true;
        }
      } else if panelCapture.data[0] == 0x1B {
        var redundant := RedundantPanelData(previousCmd1B, panelCapture.data,
                                            panelCapture.byteCount);
        if redundant {
          panelCapture.skipData := true;
        }
      }
    }

    /** Lines 519-531: a module command that pulled the line low goes to the module slot
        (moduleDataCaptured for handleModule); then the module capture is cleared. */
    method StoreModule()
      requires ArraysOk() && moduleCapture.Valid()
      modifies moduleCapture, moduleCapture.data, moduleData, this`moduleDataCaptured,
               this`moduleBitCount, this`moduleByteCount
      ensures moduleCapture.Valid() && moduleCapture.bits == []
      ensures old(moduleCapture.detected) ==>
                moduleDataCaptured && moduleData[..] == old(moduleCapture.data[..])
                && moduleBitCount == old(moduleCapture.bitTotal)
                && moduleByteCount == old(moduleCapture.byteCount)
      ensures !old(moduleCapture.detected) ==>
                moduleDataCaptured == old(moduleDataCaptured)
                && moduleData[..] == old(moduleData[..])
    {
      if moduleCapture.detected {
        moduleCapture.detected := false;
        moduleDataCaptured := true;
        CopyBytes(moduleData, moduleCapture.data);
        moduleBitCount := moduleCapture.bitTotal;
        moduleByteCount := moduleCapture.byteCount;
      }
      moduleCapture.Reset();
    }

    // ------------------------------------------------------------ dscClockInterrupt

    /** dscClockInterrupt (lines 307-376): a rising edge releases the write pin and stamps
        the time; a falling edge measures the high phase and, for a virtual keypad, runs
        the injector on the bit the panel is sending.  micros() and millis() are nowUs and
        nowMs; the pin's new level is the result. */
    method ClockChange(clockHigh: bool, nowUs: u32, nowMs: u32) returns (pin: Pin)
      requires WriterOk(writer)
      modifies this`previousClockHighTime, this`clockHighTime, this`writer
      ensures WriterOk(writer)
      ensures clockHigh ==>
                previousClockHighTime == nowUs && writer == old(writer)
                && clockHighTime == old(clockHighTime)
                && pin == (if virtualKeypad then Low else Untouched)
      ensures !clockHigh ==>
                clockHighTime == Since(nowUs, previousClockHighTime)
                && previousClockHighTime == old(previousClockHighTime)
      ensures !clockHigh && virtualKeypad ==>
                var e := FallingEdge(old(writer), panelCapture.bitTotal, nowMs, false);
                writer == e.r && pin == (if e.drive then High else Untouched)
      ensures !clockHigh && !virtualKeypad ==> writer == old(writer) && pin == Untouched
    {
      pin := Untouched;
      if clockHigh {
        if virtualKeypad {
          pin := Low;
        }
        previousClockHighTime := nowUs;
      } else {
        clockHighTime := Since(nowUs, previousClockHighTime);
        if virtualKeypad {
          FallingEdgeOk(writer, panelCapture.bitTotal, nowMs, false);
          var e := FallingEdge(writer, panelCapture.bitTotal, nowMs, false);
          writer := e.r;
          if e.drive {
            pin := High;
          }
        }
      }
    }

    // ------------------------------------------------------------ handlePanel

    /** handlePanel (lines 99-176): report a change of Keybus liveness, feed a pending key
        string, then take the oldest buffered command, filter it and, when it surfaces,
        run processHomeKey and processPanel_Zones on it.  The result says whether the
        sketch has something new to look at. */
    method HandlePanel(nowMs: u32) returns (r: bool)
      requires ArraysOk() && Valid()
      modifies this`keybusConnected, this`previousKeybus, this`keybusChanged, status,
               this`writer, buffer, panelData, this`panelBitCount, this`panelByteCount,
               this`firstClockCycle, previousCmd0A, previousCmdE6_20, previousCmdE6_03,
               previousCmd
      ensures Valid()
      ensures keybusConnected == (Since(nowMs, keybusTime) <= 3000)
      ensures previousKeybus == keybusConnected
      ensures keybusChanged == (old(keybusChanged) || old(previousKeybus) != keybusConnected)
      ensures old(previousKeybus) != keybusConnected && !keybusConnected ==>
                r && writer == old(writer) && unchanged(buffer)
                && status.Snapshot() == old(status.Snapshot()).(statusChanged := true)
                && Frame(panelData[..], panelBitCount, panelByteCount) == Frame(old(panelData[..]), old(panelBitCount), old(panelByteCount))
                && firstClockCycle == old(firstClockCycle) && Remembered() == old(Remembered())
      ensures !(old(previousKeybus) != keybusConnected && !keybusConnected) ==>
                var s := old(status.Snapshot()).(statusChanged := old(status.statusChanged)
                                                 || old(previousKeybus) != keybusConnected);
                Served(old(writer), old(buffer.Pending()), s, old(firstClockCycle),
                       old(Remembered()), old(moduleData[0]), nowMs, r,
                       old(buffer.frames), old(buffer.index), old(buffer.length),
                       Frame(old(panelData[..]), old(panelBitCount), old(panelByteCount)))
      ensures buffer.overflow == old(buffer.overflow)
    {
      var lost := CheckLiveness(nowMs);
      if lost {
        return true;
      }
      r := Serve(nowMs);
    }

    /** Lines 114-175: feed a pending key string, then consume one command. */
    method Serve(nowMs: u32) returns (r: bool)
      requires ArraysOk() && Valid()
      modifies status, this`writer, buffer, panelData, this`panelBitCount, this`panelByteCount,
               this`firstClockCycle, previousCmd0A, previousCmdE6_20, previousCmdE6_03,
               previousCmd
      ensures Valid()
      ensures Served(old(writer), old(buffer.Pending()), old(status.Snapshot()),
                     old(firstClockCycle), old(Remembered()), moduleData[0], nowMs, r,
                     old(buffer.frames), old(buffer.index), old(buffer.length),
                     Frame(old(panelData[..]), old(panelBitCount), old(panelByteCount)))
      ensures buffer.overflow == old(buffer.overflow)
    {
      WriteKeys(nowMs);
      r := Consume(nowMs);
    }

    /** Serve's result: the key injector has taken one step and the commands `q` have
        been consumed as Consumed says. */
    ghost predicate Served(w: Writer, q: seq<Frame>, s: Status, first: bool, t: Trackers,
                           homeKeyByte: bv8, now: u32, r: bool,
                           frames: seq<Frame>, index: nat, length: nat, loaded: Frame)
      requires WriterOk(w) && t.Ok() && forall i :: 0 <= i < |q| ==> |q[i].data| == ReadSize
      reads this, buffer, panelData, previousCmd0A, previousCmdE6_20, previousCmdE6_03,
            previousCmd, status
    {
      var ok := writer == WriteKeysStep(w, now, partitions)
                && Consumed(q, s, first, t, homeKeyByte, now, r, frames, index, length, loaded);
      ok
    }

    /** What the consumer does with the pending commands `q`: nothing when there are
        none (panelData and its counts keep the previously `loaded` command); otherwise
        the first is taken out, copied to panelData and filtered, and the status is
        updated when it surfaces.  In both cases the queue moves as QueueRead. */
    ghost predicate Consumed(q: seq<Frame>, s: Status, first: bool, t: Trackers, homeKeyByte: bv8,
                             now: u32, r: bool, frames: seq<Frame>, index: nat, length: nat,
                             loaded: Frame)
      requires t.Ok() && forall i :: 0 <= i < |q| ==> |q[i].data| == ReadSize
      reads this, buffer, panelData, previousCmd0A, previousCmdE6_20, previousCmdE6_03,
            previousCmd, status
    {
      QueueRead(frames, index, length, buffer.frames, buffer.index, buffer.length)
      && if q == [] then
        !r && buffer.Pending() == [] && firstClockCycle == first && Remembered() == t
        && status.Snapshot() == s
        && Frame(panelData[..], panelBitCount, panelByteCount) == loaded
      else
        var f := q[0];
        var v := FilterFrame(first, t, f.data, f.bitCount, partitions, processRedundantData);
        buffer.Pending() == q[1..]
        && panelData[..] == f.data && panelBitCount == f.bitCount
        && panelByteCount == f.byteCount
        && r == v.surface && firstClockCycle == v.firstClockCycle && Remembered() == v.trackers
        && status.Snapshot() == if r then Delivered(s, homeKeyByte, f, now) else s
    }

    /** Lines 102-111: the bus counts as connected when the last gap is at most 3000 ms
        old; a change is reported through keybusChanged and statusChanged, and a loss ends
        handlePanel. */
    method CheckLiveness(nowMs: u32) returns (lost: bool)
      requires ArraysOk() && Valid()
      modifies this`keybusConnected, this`previousKeybus, this`keybusChanged,
               status`statusChanged
      ensures keybusConnected == (Since(nowMs, keybusTime) <= 3000)
      ensures previousKeybus == keybusConnected
      ensures keybusChanged == (old(keybusChanged) || old(previousKeybus) != keybusConnected)
      ensures status.Snapshot() == old(status.Snapshot()).(statusChanged := old(status.statusChanged)
                                       || old(previousKeybus) != keybusConnected)
      ensures lost == (old(previousKeybus) != keybusConnected && !keybusConnected)
      ensures Valid()
    {
      keybusConnected := !(Since(nowMs, keybusTime) > 3000);
      lost := false;
      if previousKeybus != keybusConnected {
        previousKeybus := keybusConnected;
        keybusChanged := true;
        status.statusChanged := true;
        if !keybusConnected {
          lost := true;
        }
      }
    }

    /** Lines 117-175: take the oldest command, filter it, and on success process it. */
    method Consume(nowMs: u32) returns (r: bool)
      requires ArraysOk() && buffer.Valid()
      modifies status, buffer, panelData, this`panelBitCount, this`panelByteCount,
               this`firstClockCycle, previousCmd0A, previousCmdE6_20, previousCmdE6_03,
               previousCmd
      ensures buffer.Valid()
      ensures Consumed(old(buffer.Pending()), old(status.Snapshot()), old(firstClockCycle),
                       old(Remembered()), moduleData[0], nowMs, r,
                       old(buffer.frames), old(buffer.index), old(buffer.length),
                       Frame(old(panelData[..]), old(panelBitCount), old(panelByteCount)))
      ensures buffer.overflow == old(buffer.overflow)
    {
      buffer.PendingEmpty();
      if buffer.length == 0 {
        return false;
      }
      Load();
      r := Process(nowMs);
    }

    /** Lines 117-133: the oldest command into panelData. */
    method Load()
      requires ArraysOk() && buffer.Valid() && buffer.Pending() != []
      modifies buffer, panelData, this`panelBitCount, this`panelByteCount
      ensures buffer.Valid()
      ensures buffer.Pending() == old(buffer.Pending())[1..]
      ensures Frame(panelData[..], panelBitCount, panelByteCount) == old(buffer.Pending()[0])
      ensures QueueRead(old(buffer.frames), old(buffer.index), old(buffer.length),
                        buffer.frames, buffer.index, buffer.length)
      ensures buffer.overflow == old(buffer.overflow)
    {
      buffer.PendingEmpty();
      panelBitCount, panelByteCount := buffer.Take(panelData);
    }

    /** Lines 135-175 on the loaded command. */
    method Process(nowMs: u32) returns (r: bool)
      requires ArraysOk()
      modifies status, this`firstClockCycle, previousCmd0A, previousCmdE6_20, previousCmdE6_03,
               previousCmd
      ensures var v := FilterFrame(old(firstClockCycle), old(Remembered()), panelData[..],
                                   panelBitCount, partitions, processRedundantData);
              r == v.surface && firstClockCycle == v.firstClockCycle && Remembered() == v.trackers
      ensures status.Snapshot() == if r then Delivered(old(status.Snapshot()), moduleData[0],
                                       Frame(panelData[..], panelBitCount, panelByteCount), nowMs)
                                   else old(status.Snapshot())
    {
      r := FilterCommand();
      if r {
        status.ProcessHomeKey(moduleData[0]);
        status.ProcessPanelZones(panelData[..], panelBitCount, nowMs);
      }
    }

    /** Lines 136-167: the startup gate and the redundancy checks on panelData. */
    method FilterCommand() returns (surface: bool)
      requires ArraysOk()
      modifies this`firstClockCycle, previousCmd0A, previousCmdE6_20, previousCmdE6_03,
               previousCmd
      ensures var v := FilterFrame(old(firstClockCycle), old(Remembered()), panelData[..],
                                   panelBitCount, partitions, processRedundantData);
              surface == v.surface && firstClockCycle == v.firstClockCycle
              && Remembered() == v.trackers
    {
      if firstClockCycle {
        if ValidCrc(panelBitCount) || panelData[0] == 0x05 {
          firstClockCycle := false;
        } else {
          return false;
        }
      }
      var redundant := CheckProgramming();
      if redundant {
        return false;
      }
      redundant := CheckPartitionStatus();
      if redundant {
        return false;
      }
      if !processRedundantData {
        redundant := RedundantPanelData(previousCmd, panelData, ReadSize);
        if redundant {
          return false;
        }
      }
      return true;
    }

    /** Lines 143-153: the programming-loop commands 0x0A and 0xE6 with 0x20 in byte 2
        are compared over dscReadSize bytes with the last one of their kind. */
    method CheckProgramming() returns (redundant: bool)
      requires ArraysOk()
      modifies previousCmd0A, previousCmdE6_20
      ensures var d := panelData[..];
              redundant == ((Is0A(d) && SamePrefix(old(previousCmd0A[..]), d, ReadSize))
                            || (IsE6_20(d) && SamePrefix(old(previousCmdE6_20[..]), d, ReadSize)))
              && previousCmd0A[..] == (if Is0A(d) then Remember(old(previousCmd0A[..]), d, ReadSize)
                                       else old(previousCmd0A[..]))
              && previousCmdE6_20[..] == (if IsE6_20(d)
                                          then Remember(old(previousCmdE6_20[..]), d, ReadSize)
                                          else old(previousCmdE6_20[..]))
    {
      redundant := false;
      if panelData[0] == 0x0A {
        redundant := RedundantPanelData(previousCmd0A, panelData, ReadSize);
      } else if panelData[0] == 0xE6 {
        if panelData[2] == 0x20 {
          redundant := RedundantPanelData(previousCmdE6_20, panelData, ReadSize);
        }
      }
    }

    /** Lines 154-157: with more than four partitions, 0xE6 with 0x03 in byte 2 is
        compared over its first 8 bytes. */
    method CheckPartitionStatus() returns (redundant: bool)
      requires ArraysOk()
      modifies previousCmdE6_03
      ensures var d := panelData[..];
              redundant == (IsE6_03(d, partitions) && SamePrefix(old(previousCmdE6_03[..]), d, 8))
              && previousCmdE6_03[..] == (if IsE6_03(d, partitions)
                                          then Remember(old(previousCmdE6_03[..]), d, 8)
                                          else old(previousCmdE6_03[..]))
    {
      redundant := false;
      if partitions > 4 {
        if panelData[0] == 0xE6 && panelData[2] == 0x03 {
          redundant := RedundantPanelData(previousCmdE6_03, panelData, 8);
        }
      }
    }

    // ------------------------------------------------------------ handleModule

    /** handleModule (lines 179-183): report a captured module command once. */
    method HandleModule() returns (r: bool)
      modifies this`moduleDataCaptured
      ensures r == old(moduleDataCaptured) && !moduleDataCaptured
    {
      if !moduleDataCaptured {
        return false;
      }
      moduleDataCaptured := false;
      return true;
    }

    // ------------------------------------------------------------ virtual keypad

    /** write(char) (lines 213-260): stage the key for c, as StageKey describes. */
    method Write(c: char, nowMs: u32)
      requires WriterOk(writer)
      modifies this`writer
      ensures WriterOk(writer)
      ensures writer == StageKey(old(writer), KeyFor(c), nowMs, partitions)
    {
      writer := StageKey(writer, KeyFor(c), nowMs, partitions);
    }

    /** write(const char*) (lines 187-192): take a key string and make the first step. */
    method WriteKeyString(s: seq<char>, nowMs: u32)
      requires WriterOk(writer)
      modifies this`writer
      ensures WriterOk(writer)
      ensures writer == WriteString(old(writer), s, nowMs, partitions)
    {
      writer := WriteString(writer, s, nowMs, partitions);
    }

    /** writeKeys (lines 196-208): one step of the pending key string. */
    method WriteKeys(nowMs: u32)
      requires WriterOk(writer)
      modifies this`writer
      ensures WriterOk(writer)
      ensures writer == WriteKeysStep(old(writer), nowMs, partitions)
    {
      writer := WriteKeysStep(writer, nowMs, partitions);
    }
  }
}
