/** The interrupt side of src/dscKeybusInterface.cpp: the two capture buffers that
    dscDataInterrupt fills bit by bit (isrPanelData and isrModuleData with their counters)
    and the bounded command buffer (panelBuffer, panelBufferBitCount, panelBufferByteCount,
    panelBufferLength) that carries panel commands to handlePanel.  In the source these
    are static members of one class; here each group is an object of its own, owned by
    Keybus.KeybusInterface. */
module Capture {
  import opened Bits
  import opened Framing

  // ------------------------------------------------------------ byte-buffer loops

  /** The clearing loops `for (...) buffer[i] = 0`. */
  method ZeroBytes(a: array<bv8>)
    requires a.Length == ReadSize
    modifies a
    ensures a[..] == Zeros()
  {
    for i := 0 to ReadSize
      invariant forall j :: 0 <= j < i ==> a[j] == 0
    {
      a[i] := 0;
    }
    assert a[..] == Zeros();
  }

  /** The copying loops `for (...) dst[i] = src[i]`. */
  method CopyBytes(dst: array<bv8>, src: array<bv8>)
    requires dst.Length == ReadSize && src.Length == ReadSize && dst != src
    modifies dst
    ensures dst[..] == src[..]
  {
    for i := 0 to ReadSize
      invariant forall j :: 0 <= j < i ==> dst[j] == src[j]
    {
      dst[i] := src[i];
    }
    assert dst[..] == src[..];
  }

  /** Copy a buffer into row `row` of the command buffer; the other rows keep their bytes. */
  method CopyToRow(buffer: array2<bv8>, row: nat, src: array<bv8>)
    requires row < buffer.Length0 && buffer.Length1 == ReadSize && src.Length == ReadSize
    modifies buffer
    ensures forall j :: 0 <= j < ReadSize ==> buffer[row, j] == src[j]
    ensures forall r, j :: 0 <= r < buffer.Length0 && r != row && 0 <= j < ReadSize ==>
              buffer[r, j] == old(buffer[r, j])
  {
    for i := 0 to ReadSize
      invariant forall j :: 0 <= j < i ==> buffer[row, j] == src[j]
      invariant forall r, j :: 0 <= r < buffer.Length0 && r != row && 0 <= j < ReadSize ==>
                  buffer[r, j] == old(buffer[r, j])
    {
      buffer[row, i] := src[i];
    }
  }

  /** Copy row `row` of the command buffer into a buffer. */
  method CopyFromRow(dst: array<bv8>, buffer: array2<bv8>, row: nat)
    requires row < buffer.Length0 && buffer.Length1 == ReadSize && dst.Length == ReadSize
    modifies dst
    ensures forall j :: 0 <= j < ReadSize ==> dst[j] == buffer[row, j]
  {
    for i := 0 to ReadSize
      invariant forall j :: 0 <= j < i ==> dst[j] == buffer[row, j]
    {
      dst[i] := buffer[row, i];
    }
  }

  // ------------------------------------------------------------ panel capture

  /** isrPanelData, its three counters and the static skipData of dscDataInterrupt. */
  class PanelCapture {
    const data: array<bv8>
    var bitTotal: nat
    var bitCount: nat
    var byteCount: nat
    var skipData: bool
    /** The bits taken since the buffer was last cleared. */
    ghost var bits: seq<bool>

    /** The buffer and the counters are the layout of the bits taken. */
    ghost predicate Valid()
      reads this, data
    {
      data.Length == ReadSize
      && |bits| <= MaxPanelBits
      && bitTotal == |bits|
      && byteCount == PanelByte(|bits|)
      && bitCount == PanelBitPos(|bits|)
      && data[..] == PanelFrame(bits)
    }

    constructor ()
      ensures Valid() && bits == [] && !skipData && fresh(data)
    {
      data := new bv8[ReadSize](_ => 0);
      bitTotal, bitCount, byteCount, skipData := 0, 0, 0, false;
      bits := [];
      new;
      PanelFrameEmpty();
      assert data[..] == Zeros();
    }

    /** Lines 403-440, one panel bit while the clock is high: shifted into byte
        byteCount; at the dscReadSize limit nothing is taken and skipData is raised. */
    method Sample(dataHigh: bool)
      requires Valid()
      modifies this, data
      ensures Valid()
      ensures old(byteCount) < ReadSize ==>
                bits == old(bits) + [dataHigh] && skipData == old(skipData)
      ensures old(byteCount) >= ReadSize ==> bits == old(bits) && skipData
    {
      PanelByteBound(|bits|);
      if byteCount >= ReadSize {
        skipData := true;
      } else {
        PanelFrameStep(bits, dataHigh);
        PanelCounterStep(|bits|);
        if bitCount < 8 {
          data[byteCount] := ShiftIn(data[byteCount], dataHigh);
        }
        if bitTotal == 8 {
          bitCount := 0;
          byteCount := byteCount + 1;
        } else if bitCount < 7 {
          bitCount := bitCount + 1;
        } else {
          bitCount := 0;
          byteCount := byteCount + 1;
        }
        bitTotal := bitTotal + 1;
        bits := bits + [dataHigh];
      }
    }

    /** Lines 510-514: clear the buffer, the counters and skipData. */
    method Reset()
      requires data.Length == ReadSize
      modifies this, data
      ensures Valid() && bits == [] && data[..] == Zeros() && !skipData
    {
      ZeroBytes(data);
      bitTotal, bitCount, byteCount := 0, 0, 0;
      skipData := false;
      bits := [];
      PanelFrameEmpty();
    }
  }

  // ------------------------------------------------------------ module capture

  /** isrModuleData, its counters and the static moduleDataDetected. */
  class ModuleCapture {
    const data: array<bv8>
    var bitTotal: nat
    var bitCount: nat
    var byteCount: nat
    /** A keypad or module pulled the line low. */
    var detected: bool
    ghost var bits: seq<bool>

    /** The buffer and the counters are the layout of the bits taken, and `detected`
        records a low bit among them. */
    ghost predicate Valid()
      reads this, data
    {
      data.Length == ReadSize
      && |bits| <= MaxModuleBits
      && bitTotal == |bits|
      && byteCount == ModuleByte(|bits|)
      && bitCount == ModuleBitPos(|bits|)
      && data[..] == ModuleFrame(bits)
      && (detected <==> false in bits)
    }

    constructor ()
      ensures Valid() && bits == [] && fresh(data)
    {
      data := new bv8[ReadSize](_ => 0);
      bitTotal, bitCount, byteCount, detected := 0, 0, 0, false;
      bits := [];
      new;
      ModuleFrameEmpty();
      assert data[..] == Zeros();
    }

    /** Lines 451-477, one keypad/module bit while the clock is low (the caller checks
        that there is room); after the eighth bit byte 1 is set to the stop value 1 and
        skipped. */
    method Sample(dataHigh: bool)
      requires Valid() && byteCount < ReadSize
      modifies this, data
      ensures Valid() && bits == old(bits) + [dataHigh]
    {
      ModuleByteBound(|bits|);
      ModuleFrameStep(bits, dataHigh);
      ModuleCounterStep(|bits|);
      ghost var next := bits + [dataHigh];
      if bitCount < 8 {
        data[byteCount] := ShiftIn(data[byteCount], dataHigh);
        if !dataHigh {
          detected := true;
        }
      }
      if bitTotal == 7 {
        data[1] := 1;
        bitCount := 0;
        byteCount := byteCount + 2;
      } else if bitCount < 7 {
        bitCount := bitCount + 1;
      } else {
        bitCount := 0;
        byteCount := byteCount + 1;
      }
      bitTotal := bitTotal + 1;
      bits := next;
      assert detected <==> false in bits by {
        assert false in bits <==> false in old(bits) || !dataHigh;
      }
    }

    /** Lines 520 and 528-531: clear the buffer, the counters and the detection flag. */
    method Reset()
      requires data.Length == ReadSize
      modifies this, data
      ensures Valid() && bits == [] && data[..] == Zeros()
    {
      ZeroBytes(data);
      bitTotal, bitCount, byteCount := 0, 0, 0;
      detected := false;
      bits := [];
      ModuleFrameEmpty();
    }
  }

  // ------------------------------------------------------------ the command buffer

  /** A buffered command as the gap handling stores it: at least eight bits, no more than
      fit, and the byte counter of its layout. */
  predicate Captured(f: Frame)
  {
    8 <= f.bitCount <= MaxPanelBits && f.byteCount == PanelByte(f.bitCount)
  }

  /** The read cursor and panelBufferLength after handlePanel takes the command under the
      cursor (lines 125-132): the cursor moves on, and after the last command both are
      reset.  The next read is then always a stored row, or the buffer is empty with the
      cursor back at 1. */
  function CursorStep(index: nat, length: nat): (r: (nat, nat))
    requires 1 <= index <= length
    ensures r.1 == 0 || r.1 == length
    ensures r.1 == 0 ==> r.0 == 1 && index == length
    ensures r.1 == length ==> 1 <= r.0 <= length && r.0 == index + 1
  {
    if index + 1 > length then (1, 0) else (index + 1, length)
  }

  /** The same step as written, with panelBufferIndex a byte: `panelBufferIndex++` wraps
      from 255 to 0. */
  function ByteCursorStep(index: nat, length: nat): (r: (nat, nat))
    requires index < 256
    ensures r.0 < 256
  {
    var next := (index + 1) % 256;
    if next > length then (1, 0) else (next, length)
  }

  /** With dscBufferSize 255 and a full buffer, reading the last command wraps the byte
      cursor to 0: the buffer is not reset, and the next read is row (0 - 1) mod 256 =
      255, one past the last row. */
  lemma ByteCursorWraps()
    ensures var (i, l) := ByteCursorStep(255, 255);
            l == 255 && i == 0 && (i + 255) % 256 >= l
    ensures CursorStep(255, 255) == (1, 0)
  {
  }

  /** Below 255 buffered commands the byte cursor never wraps and agrees with CursorStep. */
  lemma ByteCursorAgrees(index: nat, length: nat)
    requires 1 <= index <= length <= 254
    ensures ByteCursorStep(index, length) == CursorStep(index, length)
  {
  }

  /** The queue after one handlePanel read: nothing moves when it is empty; otherwise the
      cursor and length move as CursorStep and the stored commands stay until the last
      one was read. */
  predicate QueueRead(frames0: seq<Frame>, index0: nat, length0: nat,
                      frames: seq<Frame>, index: nat, length: nat)
  {
    var ok :=
      if length0 == 0 then frames == frames0 && index == index0 && length == 0
      else 1 <= index0 <= length0 && (index, length) == CursorStep(index0, length0)
           && (length == length0 ==> frames == frames0);
    ok
  }

  /** panelBufferLength is kept until the last buffered command was read: a read before
      the last keeps the commands and the length and moves the cursor on by one; the last
      read resets the length to 0 and the cursor to 1. */
  lemma QueueReadCases(frames0: seq<Frame>, index0: nat, length0: nat,
                       frames: seq<Frame>, index: nat, length: nat)
    requires QueueRead(frames0, index0, length0, frames, index, length) && length0 > 0
    ensures index0 < length0 ==> frames == frames0 && length == length0 && index == index0 + 1
    ensures index0 == length0 ==> length == 0 && index == 1
  {
  }

  /** panelBuffer with its count arrays, panelBufferLength, bufferOverflow and the read
      cursor panelBufferIndex (a static of handlePanel, 1-based). */
  class CommandBuffer {
    /** dscBufferSize. */
    const size: nat
    const rows: array2<bv8>
    const bitCounts: array<nat>
    const byteCounts: array<nat>
    var length: nat
    var overflow: bool
    var index: nat
    /** The commands held in rows 0 .. length - 1. */
    ghost var frames: seq<Frame>

    /** Row i holds frame i. */
    ghost predicate RowHolds(i: nat, f: Frame)
      reads rows, bitCounts, byteCounts
      requires i < rows.Length0 && i < bitCounts.Length && i < byteCounts.Length
      requires rows.Length1 == ReadSize
    {
      |f.data| == ReadSize
      && (forall j :: 0 <= j < ReadSize ==> rows[i, j] == f.data[j])
      && bitCounts[i] == f.bitCount && byteCounts[i] == f.byteCount
    }

    /** At most `size` commands are held, each in its row, and the cursor points into
        them (or is 1 when the buffer is empty). */
    ghost predicate Valid()
      reads this, rows, bitCounts, byteCounts
    {
      rows.Length0 == size && rows.Length1 == ReadSize
      && bitCounts.Length == size && byteCounts.Length == size && bitCounts != byteCounts
      && |frames| == length <= size
      && (forall i :: 0 <= i < |frames| ==> RowHolds(i, frames[i]) && Captured(frames[i]))
      && 1 <= index
      && (length == 0 ==> index == 1)
      && (length > 0 ==> index <= length)
    }

    /** The commands the next handlePanel calls hand out, oldest first. */
    ghost function Pending(): seq<Frame>
      reads this
    {
      if 1 <= index <= |frames| + 1 then frames[index - 1..] else []
    }

    constructor (setSize: nat)
      requires 1 <= setSize <= 255
      ensures Valid() && size == setSize && Pending() == [] && index == 1 && !overflow
      ensures fresh(rows) && fresh(bitCounts) && fresh(byteCounts)
    {
      size := setSize;
      rows := new bv8[setSize, ReadSize]((_, _) => 0);
      bitCounts := new nat[setSize](_ => 0);
      byteCounts := new nat[setSize](_ => 0);
      length, overflow, index := 0, false, 1;
      frames := [];
    }

    /** An empty buffer has nothing pending, and a non-empty one has. */
    lemma PendingEmpty()
      requires Valid()
      ensures Pending() == [] <==> length == 0
    {
    }

    /** Lines 501-507: a full buffer raises bufferOverflow; otherwise a command that was
        not skipped goes into row `length`. */
    method Store(skip: bool, data: array<bv8>, bitTotal: nat, byteCount: nat)
      requires Valid() && data.Length == ReadSize
      requires data as object != bitCounts && data as object != byteCounts
      requires !skip ==> Captured(Frame(data[..], bitTotal, byteCount))
      modifies this, rows, bitCounts, byteCounts
      ensures Valid()
      ensures frames == if old(length) == size || skip then old(frames)
                        else old(frames) + [Frame(data[..], bitTotal, byteCount)]
      ensures overflow == (old(overflow) || old(length) == size)
      ensures index == old(index)
    {
      if length == size {
        overflow := true;
      } else if !skip && length < size {
        var row := length;
        var f := Frame(data[..], bitTotal, byteCount);
        CopyToRow(rows, row, data);
        bitCounts[row] := bitTotal;
        byteCounts[row] := byteCount;
        frames := frames + [f];
        length := length + 1;
        forall i | 0 <= i < |frames|
          ensures RowHolds(i, frames[i]) && Captured(frames[i])
        {
          if i < row {
            assert old(RowHolds(i, frames[i]));
          }
        }
      }
    }

    /** Lines 121-133 of handlePanel: copy the command under the cursor into `dst`,
        advance the cursor, and empty the buffer once every command was handed out. */
    method Take(dst: array<bv8>) returns (bitCount: nat, byteCount: nat)
      requires Valid() && length > 0 && dst.Length == ReadSize
      requires dst as object != bitCounts && dst as object != byteCounts
      modifies this, dst
      ensures Valid()
      ensures old(Pending()) != [] && Pending() == old(Pending())[1..]
      ensures dst[..] == old(Pending())[0].data
      ensures bitCount == old(Pending())[0].bitCount && byteCount == old(Pending())[0].byteCount
      ensures Captured(old(Pending())[0])
      ensures QueueRead(old(frames), old(index), old(length), frames, index, length)
      ensures overflow == old(overflow)
    {
      var row := index - 1;
      CopyFromRow(dst, rows, row);
      assert RowHolds(row, frames[row]);
      assert dst[..] == frames[row].data;
      bitCount := bitCounts[row];
      byteCount := byteCounts[row];
      index := index + 1;
      if index > length {
        index := 1;
        length := 0;
        frames := [];
      }
    }
  }
}
