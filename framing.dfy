/** Where each sampled bit of a Keybus command lands in the 16-byte capture buffers
    (src/dscKeybusInterface.cpp:400-477).  Byte 0 is the command, byte 1 the stop bit on
    its own, bytes 2.. the payload.  A "layout" maps t, the number of bits already taken
    this frame, to the byte and bit counters the interrupt holds at that moment. */
module Framing {
  import opened Bits

  /** dscReadSize: the capacity of a capture buffer, in bytes. */
  const ReadSize: nat := 16
  /** Panel bits that fit before the byte counter reaches ReadSize: 8 + 1 + 14 * 8. */
  const MaxPanelBits: nat := 121
  /** Module bits that fit before the byte counter reaches ReadSize: 8 + 14 * 8. */
  const MaxModuleBits: nat := 120

  /** A completed capture: the bytes, the bit total and the byte counter at the gap. */
  datatype Frame = Frame(data: seq<bv8>, bitCount: nat, byteCount: nat)

  /** A cleared capture buffer. */
  function Zeros(): (z: seq<bv8>)
    ensures |z| == ReadSize
    ensures forall j :: 0 <= j < ReadSize ==> z[j] == 0
  {
    seq(ReadSize, _ => 0)
  }

  // ---------------------------------------------------------------- panel layout

  /** isrPanelByteCount after t panel bits. */
  function PanelByte(t: nat): nat
  {
    if t < 8 then 0 else if t == 8 then 1 else 2 + (t - 9) / 8
  }

  /** isrPanelBitCount after t panel bits. */
  function PanelBitPos(t: nat): nat
  {
    if t < 8 then t else if t == 8 then 0 else (t - 9) % 8
  }

  /** The bits [PanelStart(j), PanelEnd(j)) of a frame belong to byte j. */
  function PanelStart(j: nat): nat
  {
    if j == 0 then 0 else if j == 1 then 8 else 9 + 8 * (j - 2)
  }

  function PanelEnd(j: nat): (e: nat)
    ensures PanelStart(j) <= e
  {
    if j == 0 then 8 else if j == 1 then 9 else 9 + 8 * (j - 1)
  }

  /** The byte counter picks out exactly the bit range of its byte: byte 0 takes the first
      eight bits, byte 1 only the ninth (the stop bit), every later byte eight bits. */
  lemma PanelByteRange(t: nat, j: nat)
    ensures PanelByte(t) == j <==> PanelStart(j) <= t < PanelEnd(j)
  {
    if j >= 2 && PanelStart(j) <= t < PanelEnd(j) {
      assert 8 * (j - 2) <= t - 9 < 8 * (j - 2) + 8;
    }
  }

  /** The counters after t + 1 bits follow from those after t exactly as the three
      branches of the interrupt update them (src/dscKeybusInterface.cpp:414-439). */
  lemma PanelCounterStep(t: nat)
    ensures PanelBitPos(t) < 8
    ensures t == 8 ==> PanelByte(t + 1) == PanelByte(t) + 1 && PanelBitPos(t + 1) == 0
    ensures t != 8 && PanelBitPos(t) < 7 ==>
              PanelByte(t + 1) == PanelByte(t) && PanelBitPos(t + 1) == PanelBitPos(t) + 1
    ensures t != 8 && PanelBitPos(t) >= 7 ==>
              PanelByte(t + 1) == PanelByte(t) + 1 && PanelBitPos(t + 1) == 0
  {
  }

  /** A panel frame fits in the buffer exactly while fewer than MaxPanelBits bits were taken. */
  lemma PanelByteBound(t: nat)
    ensures PanelByte(t) < ReadSize <==> t < MaxPanelBits
    ensures t <= MaxPanelBits ==> PanelByte(t) <= ReadSize
  {
  }

  /** The bits that belong to panel byte j, as far as they have been captured. */
  function PanelSlice(bits: seq<bool>, j: nat): seq<bool>
  {
    var lo := if PanelStart(j) < |bits| then PanelStart(j) else |bits|;
    var hi := if PanelEnd(j) < |bits| then PanelEnd(j) else |bits|;
    bits[lo..hi]
  }

  /** The panel capture buffer once `bits` were taken: every byte holds its own bits
      packed most significant bit first. */
  function PanelFrame(bits: seq<bool>): (f: seq<bv8>)
    ensures |f| == ReadSize
  {
    seq(ReadSize, (j: nat) => Pack(PanelSlice(bits, j)))
  }

  lemma SliceGrows(bits: seq<bool>, lo: nat)
    requires lo < |bits|
    ensures bits[lo..|bits|] == bits[..|bits| - 1][lo..|bits| - 1] + [bits[|bits| - 1]]
  {
  }

  /** One more bit extends the slice of the byte it lands in and leaves the others. */
  lemma PanelSliceStep(bits: seq<bool>, x: bool, j: nat)
    ensures PanelSlice(bits + [x], j) ==
              if PanelByte(|bits|) == j then PanelSlice(bits, j) + [x] else PanelSlice(bits, j)
  {
    var b := bits + [x];
    var t := |bits|;
    assert b[..t] == bits;
    PanelByteRange(t, j);
    if PanelByte(t) == j {
      assert PanelSlice(bits, j) == bits[PanelStart(j)..t];
      assert PanelSlice(b, j) == b[PanelStart(j)..|b|];
      SliceGrows(b, PanelStart(j));
    } else if PanelEnd(j) <= t {
      assert PanelSlice(b, j) == b[PanelStart(j)..PanelEnd(j)];
      assert PanelSlice(bits, j) == bits[PanelStart(j)..PanelEnd(j)];
    } else {
      assert PanelSlice(b, j) == [];
      assert PanelSlice(bits, j) == [];
    }
  }

  /** Packing one more bit is one shift-in step. */
  lemma PackStep(s: seq<bool>, x: bool)
    ensures Pack(s + [x]) == ShiftIn(Pack(s), x)
  {
    assert (s + [x])[..|s|] == s;
  }

  /** A cleared buffer is the frame of no bits. */
  lemma PanelFrameEmpty()
    ensures PanelFrame([]) == Zeros()
  {
    assert forall j :: 0 <= j < ReadSize ==> PanelSlice([], j) == [];
  }

  /** The interrupt's update of byte isrPanelByteCount (shift left, or in the new bit)
      turns the frame of `bits` into the frame of `bits + [x]`. */
  lemma PanelFrameStep(bits: seq<bool>, x: bool)
    requires |bits| < MaxPanelBits
    ensures PanelByte(|bits|) < ReadSize
    ensures PanelFrame(bits + [x]) ==
              PanelFrame(bits)[PanelByte(|bits|) := ShiftIn(PanelFrame(bits)[PanelByte(|bits|)], x)]
  {
    PanelByteBound(|bits|);
    var k := PanelByte(|bits|);
    var f := PanelFrame(bits);
    forall j | 0 <= j < ReadSize
      ensures PanelFrame(bits + [x])[j] == f[k := ShiftIn(f[k], x)][j]
    {
      PanelSliceStep(bits, x, j);
      if j == k {
        PackStep(PanelSlice(bits, j), x);
      }
    }
  }

  /** Byte 1 of a panel frame holds the stop bit alone: 0 or 1, and 0 until nine bits are in. */
  lemma PanelStopByte(bits: seq<bool>)
    ensures PanelFrame(bits)[1] == if |bits| > 8 && bits[8] then 1 else 0
  {
    var s := PanelSlice(bits, 1);
    assert s == if |bits| > 8 then [bits[8]] else [];
    if |bits| > 8 {
      assert s[..0] == [];
      assert Pack(s) == ShiftIn(0, bits[8]);
    }
  }

  // ---------------------------------------------------------------- module layout

  /** isrModuleByteCount after t module bits: the counter jumps from 0 to 2 after the
      eighth bit, so no module bit is ever stored in byte 1. */
  function ModuleByte(t: nat): nat
  {
    if t < 8 then 0 else 2 + (t - 8) / 8
  }

  /** isrModuleBitCount after t module bits. */
  function ModuleBitPos(t: nat): nat
  {
    if t < 8 then t else (t - 8) % 8
  }

  function ModuleStart(j: nat): nat
  {
    if j == 0 then 0 else if j == 1 then 8 else 8 + 8 * (j - 2)
  }

  function ModuleEnd(j: nat): (e: nat)
    ensures ModuleStart(j) <= e
  {
    if j == 0 then 8 else if j == 1 then 8 else 8 + 8 * (j - 1)
  }

  lemma ModuleByteRange(t: nat, j: nat)
    ensures ModuleByte(t) != 1
    ensures ModuleByte(t) == j <==> ModuleStart(j) <= t < ModuleEnd(j)
  {
    if j >= 2 && ModuleStart(j) <= t < ModuleEnd(j) {
      assert 8 * (j - 2) <= t - 8 < 8 * (j - 2) + 8;
    }
  }

  /** The module counters follow the three branches of the interrupt
      (src/dscKeybusInterface.cpp:460-477). */
  lemma ModuleCounterStep(t: nat)
    ensures ModuleBitPos(t) < 8
    ensures t == 7 ==> ModuleByte(t + 1) == ModuleByte(t) + 2 && ModuleBitPos(t + 1) == 0
    ensures t != 7 && ModuleBitPos(t) < 7 ==>
              ModuleByte(t + 1) == ModuleByte(t) && ModuleBitPos(t + 1) == ModuleBitPos(t) + 1
    ensures t != 7 && ModuleBitPos(t) >= 7 ==>
              ModuleByte(t + 1) == ModuleByte(t) + 1 && ModuleBitPos(t + 1) == 0
  {
  }

  lemma ModuleByteBound(t: nat)
    ensures ModuleByte(t) < ReadSize <==> t < MaxModuleBits
    ensures t <= MaxModuleBits ==> ModuleByte(t) <= ReadSize
  {
  }

  /** The bits that belong to module byte j (none for byte 1), as far as captured. */
  function ModuleSlice(bits: seq<bool>, j: nat): seq<bool>
  {
    var lo := if ModuleStart(j) < |bits| then ModuleStart(j) else |bits|;
    var hi := if ModuleEnd(j) < |bits| then ModuleEnd(j) else |bits|;
    bits[lo..hi]
  }

  /** The module capture buffer once `bits` were taken: byte 1 is the stop value 1 once the
      first byte is complete (0 before), every other byte holds its own bits packed most
      significant bit first. */
  function ModuleFrame(bits: seq<bool>): (f: seq<bv8>)
    ensures |f| == ReadSize
  {
    seq(ReadSize, (j: nat) => if j == 1 then (if |bits| >= 8 then 1 else 0) else Pack(ModuleSlice(bits, j)))
  }

  lemma ModuleSliceStep(bits: seq<bool>, x: bool, j: nat)
    ensures ModuleSlice(bits + [x], j) ==
              if ModuleByte(|bits|) == j then ModuleSlice(bits, j) + [x] else ModuleSlice(bits, j)
  {
    var b := bits + [x];
    var t := |bits|;
    assert b[..t] == bits;
    ModuleByteRange(t, j);
    if ModuleByte(t) == j {
      assert ModuleSlice(bits, j) == bits[ModuleStart(j)..t];
      assert ModuleSlice(b, j) == b[ModuleStart(j)..|b|];
      SliceGrows(b, ModuleStart(j));
    } else if ModuleEnd(j) <= t {
      assert ModuleSlice(b, j) == b[ModuleStart(j)..ModuleEnd(j)];
      assert ModuleSlice(bits, j) == bits[ModuleStart(j)..ModuleEnd(j)];
    } else {
      assert ModuleSlice(b, j) == [];
      assert ModuleSlice(bits, j) == [];
    }
  }

  lemma ModuleFrameEmpty()
    ensures ModuleFrame([]) == Zeros()
  {
    assert forall j :: 0 <= j < ReadSize ==> ModuleSlice([], j) == [];
  }

  /** The interrupt's update (shift into byte isrModuleByteCount, and after the eighth bit
      `isrModuleData[1] = 1`) turns the frame of `bits` into the frame of `bits + [x]`. */
  lemma ModuleFrameStep(bits: seq<bool>, x: bool)
    requires |bits| < MaxModuleBits
    ensures ModuleByte(|bits|) < ReadSize && ModuleByte(|bits|) != 1
    ensures var f := ModuleFrame(bits);
            var k := ModuleByte(|bits|);
            var q := f[k := ShiftIn(f[k], x)];
            ModuleFrame(bits + [x]) == if |bits| == 7 then q[1 := 1] else q
  {
    ModuleByteBound(|bits|);
    ModuleByteRange(|bits|, 1);
    var k := ModuleByte(|bits|);
    var f := ModuleFrame(bits);
    var q := f[k := ShiftIn(f[k], x)];
    var r := if |bits| == 7 then q[1 := 1] else q;
    forall j | 0 <= j < ReadSize
      ensures ModuleFrame(bits + [x])[j] == r[j]
    {
      if j != 1 {
        ModuleSliceStep(bits, x, j);
        if j == k {
          PackStep(ModuleSlice(bits, j), x);
        }
      }
    }
  }
}
