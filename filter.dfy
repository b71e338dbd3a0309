/** The two places where the engine drops frames it has already seen: the capture stage
    at the end of a command (src/dscKeybusInterface.cpp:486-497) and the consumer in
    handlePanel (src/dscKeybusInterface.cpp:135-167). */
module Filter {
  import opened Framing
  import opened Redundancy

  // ---------------------------------------------------------------- capture stage

  /** At the gap a status command (0x05 for partitions 1-4, 0x1B for 5-8) is dropped when
      it repeats the previous one byte for byte over its byte count; a frame of fewer
      than eight bits is dropped outright. */
  predicate CaptureDiscards(prev05: seq<bv8>, prev1B: seq<bv8>, data: seq<bv8>,
                            bitTotal: nat, byteCount: nat)
    requires |prev05| == ReadSize && |prev1B| == ReadSize && |data| == ReadSize
    requires byteCount <= ReadSize
  {
    bitTotal < 8
    || (data[0] == 0x05 && SamePrefix(prev05, data, byteCount))
    || (data[0] == 0x1B && SamePrefix(prev1B, data, byteCount))
  }

  /** The copy of the last 0x05 (cmd == 0x05) or 0x1B (cmd == 0x1B) command after the gap. */
  function TrackStatus(cmd: bv8, prev: seq<bv8>, data: seq<bv8>, bitTotal: nat, byteCount: nat)
      : (r: seq<bv8>)
    requires |prev| == ReadSize && |data| == ReadSize && byteCount <= ReadSize
    ensures |r| == ReadSize
    ensures bitTotal >= 8 && data[0] == cmd ==> SamePrefix(r, data, byteCount)
    ensures !(bitTotal >= 8 && data[0] == cmd) ==> r == prev
  {
    if bitTotal >= 8 && data[0] == cmd then Remember(prev, data, byteCount) else prev
  }

  /** Once a status command was seen, the very same command at the next gap is dropped;
      a status command that differs in its first byteCount bytes is not. */
  lemma StatusRepeatDropped(prev05: seq<bv8>, prev1B: seq<bv8>, data: seq<bv8>,
                            bitTotal: nat, byteCount: nat)
    requires |prev05| == ReadSize && |prev1B| == ReadSize && |data| == ReadSize
    requires byteCount <= ReadSize && bitTotal >= 8
    requires data[0] == 0x05 || data[0] == 0x1B
    ensures CaptureDiscards(TrackStatus(0x05, prev05, data, bitTotal, byteCount),
                            TrackStatus(0x1B, prev1B, data, bitTotal, byteCount),
                            data, bitTotal, byteCount)
    ensures !SamePrefix(if data[0] == 0x05 then prev05 else prev1B, data, byteCount) ==>
              !CaptureDiscards(prev05, prev1B, data, bitTotal, byteCount)
  {
  }

  // ---------------------------------------------------------------- consumer stage

  /** The consumer's remembered copies: previousCmd0A, previousCmdE6_20, previousCmdE6_03
      and previousCmd (the general one). */
  datatype Trackers = Trackers(cmd0A: seq<bv8>, cmdE6_20: seq<bv8>, cmdE6_03: seq<bv8>,
                               cmd: seq<bv8>)
  {
    predicate Ok()
    {
      |cmd0A| == ReadSize && |cmdE6_20| == ReadSize && |cmdE6_03| == ReadSize
      && |cmd| == ReadSize
    }
  }

  /** What handlePanel decides about one dequeued frame, and the state it leaves. */
  datatype Verdict = Verdict(surface: bool, firstClockCycle: bool, trackers: Trackers)

  /** validCRC(): the frame has at least 24 bits. */
  predicate ValidCrc(bitCount: nat)
  {
    bitCount >= 24
  }

  /** The startup gate: while it is closed, a frame with a valid CRC opens it whatever
      its first byte; a frame without one that is not a 0x05 status command is dropped
      and leaves gate and trackers as they were. */
  lemma GateWaitsForValidCrc(t: Trackers, data: seq<bv8>, bitCount: nat, partitions: nat,
                             processRedundantData: bool)
    requires t.Ok() && |data| == ReadSize
    ensures ValidCrc(bitCount) ==>
              !FilterFrame(true, t, data, bitCount, partitions, processRedundantData).firstClockCycle
    ensures !ValidCrc(bitCount) && data[0] != 0x05 ==>
              FilterFrame(true, t, data, bitCount, partitions, processRedundantData)
              == Verdict(false, true, t)
  {
  }

  /** The startup gate lets this frame through. */
  predicate GatePasses(data: seq<bv8>, bitCount: nat)
    requires |data| == ReadSize
  {
    ValidCrc(bitCount) || data[0] == 0x05
  }

  predicate Is0A(data: seq<bv8>)
    requires |data| == ReadSize
  {
    data[0] == 0x0A
  }

  predicate IsE6_20(data: seq<bv8>)
    requires |data| == ReadSize
  {
    data[0] == 0xE6 && data[2] == 0x20
  }

  predicate IsE6_03(data: seq<bv8>, partitions: nat)
    requires |data| == ReadSize
  {
    partitions > 4 && data[0] == 0xE6 && data[2] == 0x03
  }

  /** Lines 135-167, in order: the startup gate, the 0x0A and 0xE6/0x20 programming-loop
      checks, the 0xE6/0x03 check over 8 bytes when more than four partitions are
      configured, and the general check when processRedundantData is off. */
  function FilterFrame(first: bool, t: Trackers, data: seq<bv8>, bitCount: nat,
                       partitions: nat, processRedundantData: bool): (v: Verdict)
    requires t.Ok() && |data| == ReadSize
    ensures v.trackers.Ok()
    ensures v.firstClockCycle == (first && !GatePasses(data, bitCount))
    ensures v.firstClockCycle ==> !v.surface && v.trackers == t
  {
    if first && !GatePasses(data, bitCount) then Verdict(false, true, t)
    else if Is0A(data) && SamePrefix(t.cmd0A, data, ReadSize) then Verdict(false, false, t)
    else
      var t1 := if Is0A(data) then t.(cmd0A := data) else t;
      if IsE6_20(data) && SamePrefix(t1.cmdE6_20, data, ReadSize) then Verdict(false, false, t1)
      else
        var t2 := if IsE6_20(data) then t1.(cmdE6_20 := data) else t1;
        if IsE6_03(data, partitions) && SamePrefix(t2.cmdE6_03, data, 8) then Verdict(false, false, t2)
        else
          var t3 := if IsE6_03(data, partitions) then t2.(cmdE6_03 := data) else t2;
          if !processRedundantData && SamePrefix(t3.cmd, data, ReadSize) then Verdict(false, false, t3)
          else Verdict(true, false, if !processRedundantData then t3.(cmd := data) else t3)
  }

  /** Each tracker moves exactly as one redundantPanelData call on it would move it, or not
      at all when its check is not reached. */
  lemma FilterTracks(first: bool, t: Trackers, data: seq<bv8>, bitCount: nat,
                     partitions: nat, processRedundantData: bool)
    requires t.Ok() && |data| == ReadSize
    ensures var v := FilterFrame(first, t, data, bitCount, partitions, processRedundantData);
            (v.trackers.cmd0A == t.cmd0A || v.trackers.cmd0A == Remember(t.cmd0A, data, ReadSize))
            && (v.trackers.cmdE6_20 == t.cmdE6_20
                || v.trackers.cmdE6_20 == Remember(t.cmdE6_20, data, ReadSize))
            && (v.trackers.cmdE6_03 == t.cmdE6_03 || v.trackers.cmdE6_03 == Remember(t.cmdE6_03, data, 8))
            && (v.trackers.cmd == t.cmd || v.trackers.cmd == Remember(t.cmd, data, ReadSize))
            && (!Is0A(data) ==> v.trackers.cmd0A == t.cmd0A)
            && (!IsE6_20(data) ==> v.trackers.cmdE6_20 == t.cmdE6_20)
            && (!IsE6_03(data, partitions) ==> v.trackers.cmdE6_03 == t.cmdE6_03)
            && (processRedundantData ==> v.trackers.cmd == t.cmd)
  {
  }

  /** Once open, the startup gate never closes again. */
  lemma GateStaysOpen(t: Trackers, data: seq<bv8>, bitCount: nat, partitions: nat,
                      processRedundantData: bool)
    requires t.Ok() && |data| == ReadSize
    ensures !FilterFrame(false, t, data, bitCount, partitions, processRedundantData).firstClockCycle
  {
  }

  /** A programming-loop frame (0x0A, or 0xE6 with 0x20 in byte 2) that the consumer has
      just looked at is suppressed when it comes again, whatever processRedundantData says
      and however the first one fared after the gate. */
  lemma ProgrammingRepeatSuppressed(first: bool, t: Trackers, data: seq<bv8>, bitCount: nat,
                                    partitions: nat, processRedundantData: bool)
    requires t.Ok() && |data| == ReadSize
    requires Is0A(data) || IsE6_20(data)
    requires !FilterFrame(first, t, data, bitCount, partitions, processRedundantData).firstClockCycle
    ensures var v := FilterFrame(first, t, data, bitCount, partitions, processRedundantData);
            !FilterFrame(false, v.trackers, data, bitCount, partitions, processRedundantData).surface
  {
    var v := FilterFrame(first, t, data, bitCount, partitions, processRedundantData);
    if Is0A(data) {
      assert SamePrefix(v.trackers.cmd0A, data, ReadSize);
    } else {
      assert SamePrefix(v.trackers.cmdE6_20, data, ReadSize);
    }
  }

  /** The consumer's state after filtering the frames `fs` one by one, starting from the
      gate flag `first` and the trackers `t`; `surface` is the verdict on the last frame. */
  function FilterRun(first: bool, t: Trackers, fs: seq<Frame>, partitions: nat,
                     processRedundantData: bool): (v: Verdict)
    requires t.Ok() && forall i :: 0 <= i < |fs| ==> |fs[i].data| == ReadSize
    ensures v.trackers.Ok()
    ensures fs == [] ==> v == Verdict(false, first, t)
    decreases |fs|
  {
    if fs == [] then Verdict(false, first, t)
    else
      var v := FilterFrame(first, t, fs[0].data, fs[0].bitCount, partitions, processRedundantData);
      FilterRun(v.firstClockCycle, v.trackers, fs[1..], partitions, processRedundantData)
  }

  /** Frames that are not 0x0A leave the 0x0A copy alone, frames that are not 0xE6/0x20
      leave the 0xE6/0x20 copy alone, and an open gate stays open. */
  lemma {:induction false} RunKeepsProgramming(first: bool, t: Trackers, fs: seq<Frame>,
                                               partitions: nat, processRedundantData: bool)
    requires t.Ok() && forall i :: 0 <= i < |fs| ==> |fs[i].data| == ReadSize
    ensures var v := FilterRun(first, t, fs, partitions, processRedundantData);
            (!first ==> !v.firstClockCycle)
            && ((forall i :: 0 <= i < |fs| ==> !Is0A(fs[i].data)) ==> v.trackers.cmd0A == t.cmd0A)
            && ((forall i :: 0 <= i < |fs| ==> !IsE6_20(fs[i].data))
                ==> v.trackers.cmdE6_20 == t.cmdE6_20)
    decreases |fs|
  {
    if fs != [] {
      var v := FilterFrame(first, t, fs[0].data, fs[0].bitCount, partitions, processRedundantData);
      FilterTracks(first, t, fs[0].data, fs[0].bitCount, partitions, processRedundantData);
      assert forall i :: 0 <= i < |fs[1..]| ==> fs[1..][i] == fs[i + 1];
      RunKeepsProgramming(v.firstClockCycle, v.trackers, fs[1..], partitions, processRedundantData);
    }
  }

  /** Repeats of 0x0A and 0xE6/0x20 are always suppressed: once such a frame got past the
      gate, it is suppressed when it comes again after any run of frames of other
      commands, whatever its bit count and processRedundantData say. */
  lemma InterleavedRepeat(first: bool, t: Trackers, data: seq<bv8>, bitCount: nat,
                          between: seq<Frame>, bitCount2: nat, partitions: nat,
                          processRedundantData: bool)
    requires t.Ok() && |data| == ReadSize
    requires forall i :: 0 <= i < |between| ==> |between[i].data| == ReadSize
    requires Is0A(data) || IsE6_20(data)
    requires !FilterFrame(first, t, data, bitCount, partitions, processRedundantData).firstClockCycle
    requires forall i :: 0 <= i < |between| ==>
               !(Is0A(data) && Is0A(between[i].data)) && !(IsE6_20(data) && IsE6_20(between[i].data))
    ensures var v := FilterFrame(first, t, data, bitCount, partitions, processRedundantData);
            var w := FilterRun(v.firstClockCycle, v.trackers, between, partitions,
                               processRedundantData);
            !FilterFrame(w.firstClockCycle, w.trackers, data, bitCount2, partitions,
                         processRedundantData).surface
  {
    var v := FilterFrame(first, t, data, bitCount, partitions, processRedundantData);
    RunKeepsProgramming(v.firstClockCycle, v.trackers, between, partitions, processRedundantData);
    if Is0A(data) {
      assert SamePrefix(v.trackers.cmd0A, data, ReadSize);
    } else {
      assert SamePrefix(v.trackers.cmdE6_20, data, ReadSize);
    }
  }

  /** With processRedundantData off, no frame surfaces twice in a row. */
  lemma NoRepeatWithoutRedundant(first: bool, t: Trackers, data: seq<bv8>, bitCount: nat,
                                 partitions: nat)
    requires t.Ok() && |data| == ReadSize
    requires FilterFrame(first, t, data, bitCount, partitions, false).surface
    ensures var v := FilterFrame(first, t, data, bitCount, partitions, false);
            !FilterFrame(false, v.trackers, data, bitCount, partitions, false).surface
  {
    var v := FilterFrame(first, t, data, bitCount, partitions, false);
    assert SamePrefix(v.trackers.cmd, data, ReadSize);
  }

  /** With the constructor's defaults (processRedundantData on) and at most four
      partitions, a frame past the gate surfaces unless it is a programming-loop repeat. */
  lemma DefaultsSurface(first: bool, t: Trackers, data: seq<bv8>, bitCount: nat,
                        partitions: nat)
    requires t.Ok() && |data| == ReadSize && partitions <= 4
    ensures FilterFrame(first, t, data, bitCount, partitions, true).surface <==>
              (!first || GatePasses(data, bitCount))
              && !(Is0A(data) && t.cmd0A == data)
              && !(IsE6_20(data) && t.cmdE6_20 == data)
  {
    FullMatchIsEqual(t.cmd0A, data);
    FullMatchIsEqual(t.cmdE6_20, data);
  }

  /** With more than four partitions, a 0xE6/0x03 frame whose first eight bytes repeat the
      last one is suppressed, even if later bytes differ. */
  lemma PartitionStatusCompares8(t: Trackers, data: seq<bv8>, bitCount: nat, partitions: nat,
                                 processRedundantData: bool)
    requires t.Ok() && |data| == ReadSize
    requires IsE6_03(data, partitions) && SamePrefix(t.cmdE6_03, data, 8)
    ensures !FilterFrame(false, t, data, bitCount, partitions, processRedundantData).surface
  {
  }
}
