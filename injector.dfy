/** The virtual keypad: staging a key (write(char), src/dscKeybusInterface.cpp:213-260),
    feeding a string one key at a time (write(const char*) and writeKeys, :187-208), and
    the injector that drives the write pin on falling clock edges while the panel counts
    its bits (:317-373).  The pin is driven HIGH to pull the Keybus data line low; the
    next rising edge releases it. */
module Injector {
  import opened Bits
  import opened Keys
  import opened Wrappers

  const NUL: char := '\0'

  /** The writer's state: the members and statics that write(char), writeKeys and the
      injector share. */
  datatype Writer = Writer(
    writeKey: bv8,          // pattern on the line (a `char` in the source)
    writeCmd: bool,         // a command key was staged
    writeReady: bool,       // a new key may be staged
    writeAlarm: bool,       // never set in this code
    alarmTime: u32,         // previousTime of write(char)
    writePartition: nat,
    keys: seq<char>,        // writeKeysArray, a C string
    pending: bool,          // writeKeysPending
    counter: nat,           // writeCounter, a byte
    injectTime: u32,        // previousTime of the injector
    setWriteReady: bool,    // the pass is over, writeReady is due
    writeStart: bool,       // bit 1 of this pass was written
    writeRepeat: bool,      // the second pass of a command key is due
    originalKey: bv8)       // the command key held back during the first pass

  /** The writer after construction: ready, partition 1, everything else zero. */
  function Idle(): Writer
  {
    Writer(0, false, true, false, 0, 1, [], false, 0, 0, false, false, false, 0)
  }

  /** Facts the writer keeps between calls: a pending second pass and a pending release
      never coexist, and a ready writer has neither; the counter is a byte. */
  predicate WriterOk(w: Writer)
  {
    !(w.setWriteReady && w.writeRepeat)
    && (w.writeReady ==> !w.setWriteReady && !w.writeRepeat)
    && w.counter < 256
  }

  lemma IdleOk()
    ensures WriterOk(Idle()) && Idle().writeReady
  {
  }

  // ---------------------------------------------------------------- key staging

  /** write(char) accepts a key only when ready and more than 500 ms after alarmTime. */
  predicate Accepts(w: Writer, now: u32)
  {
    w.writeReady && Since(now, w.alarmTime) > 500
  }

  /** Lines 252-258 of write(char), once the switch has looked the character up (key is
      KeyFor(c)): stage the pattern of a known key and clear writeReady; a command key
      also raises writeCmd.  An unknown key changes only the partition and alarm time. */
  function StageKey(w: Writer, key: Option<KeyCode>, now: u32, partitions: nat): (r: Writer)
    ensures !Accepts(w, now) ==> r == w
    ensures Accepts(w, now) ==>
              (r.writeReady <==> key.None?)
              && r.writeKey == (if key.Some? then key.value.pattern else w.writeKey)
              && r.writeCmd == (w.writeCmd || (key.Some? && key.value.command))
              && r.writePartition == (if partitions < w.writePartition then 1 else w.writePartition)
              && (r.writePartition <= partitions || r.writePartition == 1)
              && r.alarmTime == (if w.writeAlarm then now else w.alarmTime)
    ensures WriterOk(w) ==> WriterOk(r)
    ensures r.keys == w.keys && r.pending == w.pending && r.counter == w.counter
    ensures r.injectTime == w.injectTime && r.setWriteReady == w.setWriteReady
    ensures r.writeStart == w.writeStart && r.writeRepeat == w.writeRepeat
    ensures r.originalKey == w.originalKey && r.writeAlarm == w.writeAlarm
  {
    if !Accepts(w, now) then w
    else
      w.(writeKey := if key.Some? then key.value.pattern else w.writeKey,
         writeCmd := w.writeCmd || (key.Some? && key.value.command),
         writePartition := if partitions < w.writePartition then 1 else w.writePartition,
         alarmTime := if w.writeAlarm then now else w.alarmTime,
         writeReady := key.None?)
  }

  /** Since writeAlarm is never raised, alarmTime stays 0 and the only effect of the
      500 ms guard is that no key is accepted in the first 500 ms after power-up. */
  lemma AlarmGuardAtStartup(w: Writer, key: Option<KeyCode>, now: u32, partitions: nat)
    requires !w.writeAlarm && w.alarmTime == 0
    ensures StageKey(w, key, now, partitions).alarmTime == 0
    ensures now <= 500 ==> StageKey(w, key, now, partitions) == w
  {
  }

  // ---------------------------------------------------------------- key strings

  /** The character at index i of a C string kept as a sequence: past the end is NUL. */
  function CharAt(s: seq<char>, i: nat): char
  {
    if i < |s| then s[i] else NUL
  }

  /** strlen: the index of the first NUL, or the whole sequence. */
  function StrLen(s: seq<char>): (n: nat)
    ensures n <= |s|
    ensures forall i :: 0 <= i < n ==> s[i] != NUL
    ensures CharAt(s, n) == NUL
  {
    if s == [] || s[0] == NUL then 0 else 1 + StrLen(s[1..])
  }

  /** writeKeys: when a string is pending, the writer is ready and the counter is inside
      the string, stage the counter's character and advance; finish (pending off, counter
      back to 0) when the next character is the terminator. */
  function WriteKeysStep(w: Writer, now: u32, partitions: nat): (r: Writer)
    requires WriterOk(w)
    ensures WriterOk(r)
    ensures !(w.pending && w.writeReady && w.counter < StrLen(w.keys)) ==> r == w
    ensures w.pending && w.writeReady && w.counter < StrLen(w.keys) ==>
              var next := (w.counter + 1) % 256;
              var staged := StageKey(w, KeyFor(w.keys[w.counter]), now, partitions);
              r.keys == w.keys
              && r.pending == (CharAt(w.keys, next) != NUL)
              && r.counter == (if r.pending then next else 0)
              && r.writeKey == staged.writeKey && r.writeReady == staged.writeReady
              && r.writeCmd == staged.writeCmd && r.writePartition == staged.writePartition
              && r.alarmTime == staged.alarmTime
  {
    if w.pending && w.writeReady && w.counter < StrLen(w.keys) then
      if CharAt(w.keys, w.counter) != NUL then
        var w1 := StageKey(w, KeyFor(w.keys[w.counter]), now, partitions);
        var next := (w.counter + 1) % 256;
        if CharAt(w.keys, next) == NUL then w1.(pending := false, counter := 0)
        else w1.(counter := next)
      else w
    else w
  }

  /** write(const char*): take the new string, mark it pending unless it is empty, and
      make the first writeKeys step.  The counter is not reset. */
  function WriteString(w: Writer, s: seq<char>, now: u32, partitions: nat): (r: Writer)
    requires WriterOk(w)
    ensures WriterOk(r)
    ensures r.keys == s
    ensures CharAt(s, 0) == NUL ==> r.pending == w.pending && r.counter == w.counter
  {
    var w1 := w.(keys := s, pending := if CharAt(s, 0) != NUL then true else w.pending);
    WriteKeysStep(w1, now, partitions)
  }

  /** Key strings are fed in order: from the start of a string of at most 255 characters,
      each step taken while ready stages the next character, and the step after the last
      one ends the string. */
  lemma StringAdvances(w: Writer, now: u32, partitions: nat)
    requires WriterOk(w) && w.pending && w.writeReady
    requires NUL !in w.keys && |w.keys| < 256 && w.counter < |w.keys|
    ensures var r := WriteKeysStep(w, now, partitions);
            r == (var s := StageKey(w, KeyFor(w.keys[w.counter]), now, partitions);
                  if w.counter + 1 == |w.keys| then s.(pending := false, counter := 0)
                  else s.(counter := w.counter + 1))
  {
    StrLenNoNul(w.keys);
  }

  lemma {:induction false} StrLenNoNul(s: seq<char>)
    requires NUL !in s
    ensures StrLen(s) == |s|
  {
    if s != [] {
      StrLenNoNul(s[1..]);
    }
  }

  /** A string that starts while another one is pending continues at the old counter. */
  lemma StringKeepsCounter(w: Writer, s: seq<char>, now: u32, partitions: nat)
    requires WriterOk(w) && !w.writeReady
    ensures WriteString(w, s, now, partitions).counter == w.counter
  {
  }

  // ---------------------------------------------------------------- injector

  /** `writeKey == 0xFF` as the source evaluates it, writeKey being a `char`: when `char` is
      signed the stored 0xFF reads as -1 and the test is false. */
  predicate IsPlaceholder(k: bv8, signedChar: bool)
  {
    !signedChar && k == Placeholder
  }

  /** The injector acts on this edge (line 326). */
  predicate Injecting(w: Writer)
  {
    (!w.writeReady && !w.setWriteReady) || w.writeRepeat
  }

  /** One falling edge's outcome: the new state and whether the write pin was driven. */
  datatype Edge = Edge(r: Writer, drive: bool)

  /** Lines 328-335: a staged command key is claimed, and on its first pass its pattern
      is held back in originalKey while the placeholder goes on the line. */
  function TakeCommand(w: Writer): (r: Writer)
    ensures !r.writeCmd && r.writeReady == w.writeReady && r.writeStart == w.writeStart
    ensures r.setWriteReady == w.setWriteReady && r.writeRepeat == w.writeRepeat
    ensures r.keys == w.keys && r.pending == w.pending && r.counter == w.counter
    ensures r.injectTime == w.injectTime
  {
    if !w.writeCmd then w
    else if w.writeRepeat then w.(writeCmd := false)
    else w.(writeCmd := false, originalKey := w.writeKey, writeKey := Placeholder)
  }

  /** Lines 347-365, the edge of bit 24: the pass ends; after a first pass that carried a
      command or the placeholder the held-back key is put back for a second pass,
      otherwise writeReady is scheduled. */
  function EndPass(w: Writer, isCommand: bool, now: u32, signedChar: bool): (r: Writer)
    ensures !r.writeStart && r.injectTime == now && r.writeReady == w.writeReady
    ensures w.writeRepeat || !(isCommand || IsPlaceholder(w.writeKey, signedChar)) ==>
              r.setWriteReady && !r.writeRepeat && r.writeKey == w.writeKey
    ensures !(w.writeRepeat || !(isCommand || IsPlaceholder(w.writeKey, signedChar))) ==>
              r.writeRepeat && r.setWriteReady == w.setWriteReady && r.writeKey == w.originalKey
    ensures r.keys == w.keys && r.pending == w.pending && r.counter == w.counter
  {
    var w2 := w.(writeStart := false, injectTime := now);
    if w.writeRepeat then w2.(writeRepeat := false, setWriteReady := true)
    else if isCommand || IsPlaceholder(w.writeKey, signedChar) then
      w2.(writeRepeat := true, writeKey := w.originalKey)
    else w2.(setWriteReady := true)
  }

  /** Lines 326-367 on the writer's state.  isCommand is copied from writeCmd at the start
      of every acting edge and read only within it, so it is a local here. */
  function InjectState(w: Writer, bitTotal: nat, now: u32, signedChar: bool): Writer
  {
    if !Injecting(w) then w
    else
      var w1 := TakeCommand(w);
      if bitTotal == 1 then w1.(writeStart := true)
      else if w1.writeStart && 1 < bitTotal <= 8 then w1
      else if w1.writeStart && bitTotal == 24 then EndPass(w1, w.writeCmd, now, signedChar)
      else w1
  }

  /** Lines 326-367 on the write pin: bits 1-8 pull the line for each 0 bit of the key
      on the line, most significant first (bit 1 also starts the pass), and bit 24 pulls
      it for a command or the placeholder. */
  predicate InjectDrive(w: Writer, bitTotal: nat, signedChar: bool)
  {
    Injecting(w)
    && var key := LineKey(w);
       if bitTotal == 1 then !Bit(key, 7)
       else if w.writeStart && 1 < bitTotal <= 8 then !Bit(key, 8 - bitTotal)
       else w.writeStart && bitTotal == 24 && (w.writeCmd || IsPlaceholder(key, signedChar))
  }

  /** Lines 326-367: the acting edge's new state and pin. */
  function Inject(w: Writer, bitTotal: nat, now: u32, signedChar: bool): Edge
  {
    Edge(InjectState(w, bitTotal, now, signedChar), InjectDrive(w, bitTotal, signedChar))
  }

  /** Lines 369-373: writeReady returns more than 300 ms after the pass ended. */
  function Release(w: Writer, now: u32): Writer
  {
    if w.setWriteReady && Since(now, w.injectTime) > 300 then
      w.(writeReady := true, injectTime := now, setWriteReady := false)
    else w
  }

  /** The falling-edge branch of dscClockInterrupt for a virtual keypad. */
  function FallingEdge(w: Writer, bitTotal: nat, now: u32, signedChar: bool): (e: Edge)
    ensures e.drive ==> Injecting(w) && (1 <= bitTotal <= 8 || bitTotal == 24)
  {
    var i := Inject(w, bitTotal, now, signedChar);
    Edge(Release(i.r, now), i.drive)
  }

  /** The injector leaves the string feed alone. */
  lemma FallingEdgeKeepsString(w: Writer, bitTotal: nat, now: u32, signedChar: bool)
    ensures var e := FallingEdge(w, bitTotal, now, signedChar);
            e.r.keys == w.keys && e.r.pending == w.pending && e.r.counter == w.counter
  {
    InjectKeepsString(w, bitTotal, now, signedChar);
    ReleaseKeepsString(Inject(w, bitTotal, now, signedChar).r, now);
  }

  lemma InjectKeepsString(w: Writer, bitTotal: nat, now: u32, signedChar: bool)
    ensures var r := InjectState(w, bitTotal, now, signedChar);
            r.keys == w.keys && r.pending == w.pending && r.counter == w.counter
  {
  }

  lemma ReleaseKeepsString(w: Writer, now: u32)
    ensures var r := Release(w, now);
            r.keys == w.keys && r.pending == w.pending && r.counter == w.counter
  {
  }

  /** The writer's facts survive every falling edge. */
  lemma FallingEdgeOk(w: Writer, bitTotal: nat, now: u32, signedChar: bool)
    requires WriterOk(w)
    ensures WriterOk(FallingEdge(w, bitTotal, now, signedChar).r)
  {
  }

  /** writeReady comes back only on an edge more than 300 ms after the one that ended the
      pass, and a pass ends (scheduling the release) only on a bit-24 edge, which stamps
      the time. */
  lemma ReadyOnlyAfterDelay(w: Writer, bitTotal: nat, now: u32, signedChar: bool)
    requires WriterOk(w)
    ensures var e := FallingEdge(w, bitTotal, now, signedChar);
            (e.r.writeReady && !w.writeReady ==> w.setWriteReady && Since(now, w.injectTime) > 300)
            && (e.r.setWriteReady && !w.setWriteReady ==> bitTotal == 24 && e.r.injectTime == now)
  {
  }

  /** A ready writer is left alone by the injector. */
  lemma ReadyIdle(w: Writer, bitTotal: nat, now: u32, signedChar: bool)
    requires WriterOk(w) && w.writeReady
    ensures FallingEdge(w, bitTotal, now, signedChar) == Edge(w, false)
  {
  }

  /** A falling edge as the panel's bit counter and the millisecond clock show it. */
  datatype Tick = Tick(bitTotal: nat, now: u32)

  /** A run of falling edges: the final state and the pin driven at each edge. */
  function Run(w: Writer, ts: seq<Tick>, signedChar: bool): (res: (Writer, seq<bool>))
    ensures |res.1| == |ts|
    decreases |ts|
  {
    if ts == [] then (w, [])
    else
      var prev := Run(w, ts[..|ts| - 1], signedChar);
      var e := FallingEdge(prev.0, ts[|ts| - 1].bitTotal, ts[|ts| - 1].now, signedChar);
      (e.r, prev.1 + [e.drive])
  }

  /** The falling edges of one 24-bit frame: the panel has sampled 1, 2, ..., 24 bits. */
  predicate FrameTicks(ts: seq<Tick>)
  {
    |ts| == 24 && forall i :: 0 <= i < 24 ==> ts[i].bitTotal == i + 1
  }

  /** The pattern that goes on the line in a pass that starts from w. */
  function LineKey(w: Writer): bv8
  {
    if w.writeCmd && !w.writeRepeat then Placeholder else w.writeKey
  }

  /** The pins of a pass carrying key k, before its 24th edge. */
  function PassPins(k: bv8, n: nat): (p: seq<bool>)
    requires n <= 24
    ensures |p| == n
  {
    seq(n, (i: int) requires 0 <= i < n => i < 8 && !Bit(k, 7 - i))
  }

  /** The state in the middle of a pass, after bit 1 and before bit 24. */
  function MidPass(w: Writer): Writer
  {
    TakeCommand(w).(writeStart := true)
  }

  lemma RunStep(w: Writer, ts: seq<Tick>, k: nat, signedChar: bool)
    requires 0 <= k < |ts|
    ensures Run(w, ts[..k + 1], signedChar) ==
              (var prev := Run(w, ts[..k], signedChar);
               var e := FallingEdge(prev.0, ts[k].bitTotal, ts[k].now, signedChar);
               (e.r, prev.1 + [e.drive]))
  {
    assert ts[..k + 1][..k] == ts[..k];
  }

  /** The conditions under which a pass starts at the next frame. */
  predicate PassDue(w: Writer)
  {
    WriterOk(w) && !w.setWriteReady && (!w.writeReady || w.writeRepeat)
  }

  /** Bit 1 starts the pass and carries the key's top bit. */
  lemma FirstEdge(w: Writer, now: u32, signedChar: bool)
    requires PassDue(w)
    ensures FallingEdge(w, 1, now, signedChar) == Edge(MidPass(w), !Bit(LineKey(w), 7))
  {
    var i := Inject(w, 1, now, signedChar);
    assert i == Edge(MidPass(w), !Bit(LineKey(w), 7));
  }

  /** Bits 2-8 carry the key's remaining bits; bits 9-23 leave the line alone. */
  lemma MiddleEdge(w: Writer, bitTotal: nat, now: u32, signedChar: bool)
    requires PassDue(w) && 2 <= bitTotal <= 23
    ensures FallingEdge(MidPass(w), bitTotal, now, signedChar) ==
              Edge(MidPass(w), bitTotal <= 8 && !Bit(LineKey(w), 8 - bitTotal))
  {
    var m := MidPass(w);
    var i := Inject(m, bitTotal, now, signedChar);
    assert i == Edge(m, bitTotal <= 8 && !Bit(LineKey(w), 8 - bitTotal));
  }

  lemma PassStart(w: Writer, ts: seq<Tick>, signedChar: bool)
    requires PassDue(w) && FrameTicks(ts)
    ensures Run(w, ts[..1], signedChar) == (MidPass(w), PassPins(LineKey(w), 1))
  {
    RunStep(w, ts, 0, signedChar);
    assert ts[0].bitTotal == 1;
    assert ts[..0] == [];
    FirstEdge(w, ts[0].now, signedChar);
    assert [] + [!Bit(LineKey(w), 7)] == PassPins(LineKey(w), 1);
  }

  lemma PassContinues(w: Writer, ts: seq<Tick>, k: nat, signedChar: bool)
    requires PassDue(w) && FrameTicks(ts) && 2 <= k <= 23
    requires Run(w, ts[..k - 1], signedChar) == (MidPass(w), PassPins(LineKey(w), k - 1))
    ensures Run(w, ts[..k], signedChar) == (MidPass(w), PassPins(LineKey(w), k))
  {
    RunStep(w, ts, k - 1, signedChar);
    assert ts[k - 1].bitTotal == k;
    MiddleEdge(w, k, ts[k - 1].now, signedChar);
    PassPinsGrow(LineKey(w), k);
  }

  lemma PassPinsGrow(key: bv8, n: nat)
    requires 1 <= n <= 24
    ensures PassPins(key, n - 1) + [n <= 8 && !Bit(key, 8 - n)] == PassPins(key, n)
  {
    var a := PassPins(key, n - 1) + [n <= 8 && !Bit(key, 8 - n)];
    var b := PassPins(key, n);
    forall i | 0 <= i < n
      ensures a[i] == b[i]
    {
      if i < n - 1 {
        assert a[i] == PassPins(key, n - 1)[i];
      }
    }
  }

  /** The first 23 edges of a pass: bit 1 starts it, bits 1-8 carry the key's bits from
      the most significant down, and bits 9-23 leave the line alone. */
  lemma {:induction false} PassPrefix(w: Writer, ts: seq<Tick>, k: nat, signedChar: bool)
    requires PassDue(w)
    requires FrameTicks(ts) && 1 <= k <= 23
    ensures Run(w, ts[..k], signedChar) == (MidPass(w), PassPins(LineKey(w), k))
  {
    if k == 1 {
      PassStart(w, ts, signedChar);
    } else {
      PassPrefix(w, ts, k - 1, signedChar);
      PassContinues(w, ts, k, signedChar);
    }
  }

  /** A whole pass over one 24-bit frame.  The 24th edge drives the line iff the key on
      the line is the placeholder (as the source compares it); it then either arms the
      second pass with the held-back key, or ends the write and schedules writeReady. */
  lemma Pass(w: Writer, ts: seq<Tick>, signedChar: bool)
    requires PassDue(w)
    requires FrameTicks(ts)
    ensures var (r, pins) := Run(w, ts, signedChar);
            var k := LineKey(w);
            var finish := IsPlaceholder(k, signedChar);
            pins == PassPins(k, 23) + [finish]
            && WriterOk(r) && r.counter == w.counter
            && !r.writeReady && !r.writeCmd && !r.writeStart && r.injectTime == ts[23].now
            && (if w.writeRepeat || !finish then
                  r.setWriteReady && !r.writeRepeat && r.writeKey == k
                else
                  r.writeRepeat && !r.setWriteReady && r.writeKey == MidPass(w).originalKey)
  {
    PassPrefix(w, ts, 23, signedChar);
    RunStep(w, ts, 23, signedChar);
    assert ts[..24] == ts;
    assert ts[23].bitTotal == 24;
  }

  /** A plain key: one pass, pins 1-8 pulled exactly where the pattern has a 0 bit, then
      the release is scheduled. */
  lemma PlainKeyPass(w: Writer, ts: seq<Tick>, signedChar: bool)
    requires WriterOk(w) && !w.writeReady && !w.setWriteReady && !w.writeRepeat
    requires !w.writeCmd && w.writeKey != Placeholder
    requires FrameTicks(ts)
    ensures var (r, pins) := Run(w, ts, signedChar);
            (forall i :: 0 <= i < 24 ==> (pins[i] <==> i < 8 && !Bit(w.writeKey, 7 - i)))
            && r.setWriteReady && !r.writeRepeat && r.writeKey == w.writeKey
  {
    Pass(w, ts, signedChar);
  }

  /** The placeholder has every bit set, so a pass carrying it pulls none of bits 1-8. */
  lemma PlaceholderPinsIdle()
    ensures forall i :: 0 <= i < 23 ==> !PassPins(Placeholder, 23)[i]
  {
    forall k | 0 <= k < 8
      ensures Bit(Placeholder, k)
    {
      // One empty case per bit position: each fixes k, so Bit(0xFF, k) becomes a
      // constant the solver evaluates.
      if k == 0 {
      } else if k == 1 {
      } else if k == 2 {
      } else if k == 3 {
      } else if k == 4 {
      } else if k == 5 {
      } else if k == 6 {
      }
    }
  }

  /** The first frame of a command key: only bit 24 is pulled, and the key itself is put
      back for a second pass. */
  lemma CommandFirstPass(w: Writer, ts: seq<Tick>)
    requires WriterOk(w) && !w.writeReady && !w.setWriteReady && !w.writeRepeat
    requires w.writeCmd && w.writeKey != Placeholder
    requires FrameTicks(ts)
    ensures var (m, pins) := Run(w, ts, false);
            (forall i :: 0 <= i < 24 ==> (pins[i] <==> i == 23))
            && PassDue(m) && m.writeRepeat && !m.writeCmd && m.writeKey == w.writeKey
  {
    Pass(w, ts, false);
    PlaceholderPinsIdle();
  }

  /** The second pass carries the key in writeKey and then schedules the release. */
  lemma RepeatPass(w: Writer, ts: seq<Tick>)
    requires PassDue(w) && w.writeRepeat && !w.writeCmd && w.writeKey != Placeholder
    requires FrameTicks(ts)
    ensures var (r, pins) := Run(w, ts, false);
            (forall i :: 0 <= i < 24 ==> (pins[i] <==> i < 8 && !Bit(w.writeKey, 7 - i)))
            && r.setWriteReady && !r.writeRepeat && r.writeKey == w.writeKey
  {
    Pass(w, ts, false);
  }

  /** A command key with `writeKey == 0xFF` read as unsigned: the first frame carries the
      placeholder and pulls bit 24, the next frame carries the key itself, and only then
      is the release scheduled. */
  lemma CommandKeyHandshake(w: Writer, ts1: seq<Tick>, ts2: seq<Tick>)
    requires WriterOk(w) && !w.writeReady && !w.setWriteReady && !w.writeRepeat
    requires w.writeCmd && w.writeKey != Placeholder
    requires FrameTicks(ts1) && FrameTicks(ts2)
    ensures var (m, pins1) := Run(w, ts1, false);
            var (r, pins2) := Run(m, ts2, false);
            (forall i :: 0 <= i < 24 ==> (pins1[i] <==> i == 23))
            && m.writeRepeat && m.writeKey == w.writeKey
            && (forall i :: 0 <= i < 24 ==> (pins2[i] <==> i < 8 && !Bit(w.writeKey, 7 - i)))
            && r.setWriteReady && !r.writeRepeat && r.writeKey == w.writeKey
  {
    CommandFirstPass(w, ts1);
    RepeatPass(Run(w, ts1, false).0, ts2);
  }

  /** The same command key where `char` is signed: the comparison with 0xFF fails, the
      write ends after the placeholder pass, and the key itself is never put on the
      line. */
  lemma CommandKeySignedChar(w: Writer, ts: seq<Tick>)
    requires WriterOk(w) && !w.writeReady && !w.setWriteReady && !w.writeRepeat
    requires w.writeCmd && w.writeKey != Placeholder
    requires FrameTicks(ts)
    ensures var (r, pins) := Run(w, ts, true);
            (forall i :: 0 <= i < 24 ==> !pins[i])
            && r.setWriteReady && !r.writeRepeat && r.writeKey == Placeholder
  {
    Pass(w, ts, true);
  }

  /** Once the pass is over, later edges drive nothing, and writeReady returns on the
      first edge more than 300 ms after the pass's last edge. */
  lemma ReleaseAfterPass(w: Writer, bitTotal: nat, now: u32, signedChar: bool)
    requires WriterOk(w) && w.setWriteReady
    ensures var e := FallingEdge(w, bitTotal, now, signedChar);
            !e.drive && (e.r.writeReady <==> Since(now, w.injectTime) > 300)
  {
  }
}
