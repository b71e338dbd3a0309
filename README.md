# DSC Keybus interface: a Dafny model of the frame engine

This project models the core of an Arduino/esp8266 library that listens to a DSC alarm
panel's Keybus. The Keybus is a two-wire bus: a clock line driven by the panel, and a data
line shared by the panel, keypads and modules. The model covers
`src/dscKeybusInterface.cpp` and `src/dscKeybusProcessData.cpp`:

- the data interrupt, which samples one bit 250 us after every clock change. Panel bits are
  sampled while the clock is high, keypad and module bits while it is low. The stop bit is
  stored alone in byte 1. At the gap between commands (clock high for more than 1 ms) the
  command is queued or dropped;
- the clock interrupt, which measures the clock's high time and acts as a virtual keypad.
  It drives the write pin on the falling edges of the 8-bit window, and of the 24th bit for
  the two-pass command-key handshake;
- `handlePanel`: the 3-second liveness check, feeding a pending key string, taking one queued
  command per call, the startup gate, and the programming-loop and general redundancy filters;
- `handleModule`, `write(char)`, `write(const char*)`, `writeKeys`, `redundantPanelData`
  and `validCRC`;
- `processHomeKey` and `processPanel_Zones`: the home-key latch and the trouble, power,
  armed and open-zone status of partition 1.

## How it is modelled

- **The object.** `Keybus.KeybusInterface` holds the library's static members.
  - The interrupt-side capture state lives in small sub-objects. `Capture.PanelCapture` and
    `Capture.ModuleCapture` are `isrPanelData` and `isrModuleData` with their counters.
    `Capture.CommandBuffer` is `panelBuffer` with its counters and the read cursor of
    `handlePanel`.
  - The status fields live in `ProcessData.PanelStatus`.
  - All writer members and statics form one value, `Injector.Writer`.
  - Byte buffers are `array<bv8>` of `dscReadSize` (16) bytes. `ArraysOk()` states their
    sizes and that they are pairwise distinct; `Valid()` states the capture and queue
    invariants.
- **Ghost meaning of the arrays.** Every capture object carries the bits sampled so far in
  this frame (ghost `bits`). Its invariant says the array and counters equal the pure layout
  `Framing.PanelFrame(bits)` / `Framing.ModuleFrame(bits)`. The queue carries the frames it
  holds (ghost `frames`), and `Pending()` is the part `handlePanel` has not taken yet.
- **Interrupts and the sketch's calls are methods.** Each runs to completion, in any order,
  and keeps `Valid()`. Hardware reads become parameters: the clock and data line levels,
  `micros()` and `millis()`. The level the clock interrupt gives the write pin is a result
  (`Pin`).
- **Time.** `unsigned long` times are `u32`. An elapsed time is the unsigned
  subtraction `(now - past) mod 2^32` (`Bits.Since`).
- **Pure specifications.** Each method is proved against a pure function:
  - `Framing`: the bit layout;
  - `Redundancy`: `redundantPanelData`;
  - `Filter`: the capture-stage and consumer-stage filters;
  - `Keys`: the key table;
  - `Injector`: the writer;
  - `ProcessData`: the status decoding.

  The lemmas state the library's promises about those functions.
- **Constructor parameters.** `dscPartitions`, `dscBufferSize` and the write pin are
  parameters of the constructor.
- **Signedness of `writeKey`.** `writeKey` is read as an unsigned byte in
  `Keybus.KeybusInterface.ClockChange`; the signed reading is a finding (below).
- **Code over comments.**
  - The constructor (`src/dscKeybusInterface.cpp:60-70`) turns `processRedundantData` and
    `processModuleData` on. The header's comments call them off by default; the model
    follows the code.
  - With `processRedundantData` on, the general redundancy check in `handlePanel` is
    skipped (`src/dscKeybusInterface.cpp:161`). The header comment at
    `src/dscKeybusInterface.h:45` gives `false` as the default of `processRedundantData`,
    under which that check would run; the model follows the constructor
    (`Filter.DefaultsSurface`).

## Model

| member | source | states |
|---|---|---|
| Bits.Since | src/dscKeybusInterface.cpp:103 | elapsed milliseconds as unsigned 32-bit subtraction: the plain difference when no wrap happened, the difference plus 2^32 after a wrap |
| Bits.SinceIsUnsignedSubtraction | src/dscKeybusInterface.cpp:103 | the elapsed time equals (now - past) mod 2^32 |
| Bits.BitIsShift | src/dscKeybusInterface.cpp:347 | testing bit i equals `(b >> i) & 1`, for every bit position |
| Bits.ShiftIn | src/dscKeybusInterface.cpp:406-411 | shifting a byte left and or-ing in the data line puts the line in bit 0 and moves every other bit up by one |
| Bits.Pack | src/dscKeybusInterface.cpp:406-411 | the byte built from a run of sampled bits holds its last bit in bit 0, the one before in bit 1, and zeros above the run |
| Framing.Zeros | src/dscKeybusInterface.cpp:510 | the cleared buffer has dscReadSize bytes, all zero |
| Framing.PanelByteRange | src/dscKeybusInterface.cpp:414-439 | panel bit t lands in byte j exactly when t lies in byte j's bit range (byte 0: bits 0-7, byte 1: the stop bit 8 alone, then eight bits each) |
| Framing.PanelCounterStep | src/dscKeybusInterface.cpp:414-439 | the counter update of one panel bit: after bit 8 a new byte starts, otherwise the bit counter rises until 7 and then wraps into the next byte |
| Framing.PanelByteBound | src/dscKeybusInterface.cpp:403 | a panel bit still fits in dscReadSize bytes exactly when fewer than 121 bits were taken |
| Framing.PanelFrameEmpty | src/dscKeybusInterface.cpp:510-513 | a frame with no bits is the all-zero buffer |
| Framing.PanelFrameStep | src/dscKeybusInterface.cpp:405-439 | sampling one more panel bit shifts it into the current byte and changes no other byte |
| Framing.PanelStopByte | src/dscKeybusInterface.cpp:423-426 | byte 1 holds only the stop bit: 1 when the ninth bit was high, else 0 |
| Framing.ModuleByteRange | src/dscKeybusInterface.cpp:459-476 | module bit t lands in byte j exactly when t lies in byte j's range, and never in byte 1 |
| Framing.ModuleCounterStep | src/dscKeybusInterface.cpp:459-476 | the module counters skip byte 1 after the eighth bit (byteCount += 2) and otherwise advance like the panel's |
| Framing.ModuleByteBound | src/dscKeybusInterface.cpp:448 | a module bit still fits in dscReadSize bytes exactly when fewer than 120 bits were taken |
| Framing.ModuleFrameEmpty | src/dscKeybusInterface.cpp:528-531 | a module frame with no bits is the all-zero buffer |
| Framing.ModuleFrameStep | src/dscKeybusInterface.cpp:450-477 | one more module bit shifts into its byte, byte 1 becomes the stop value 1 once eight bits are in, and no other byte changes |
| Redundancy.Remember | src/dscKeybusInterface.cpp:273 | the remembered copy matches the current command over the compared prefix |
| Redundancy.PrefixMatches | src/dscKeybusInterface.cpp:264-270 | the loop's verdict is true exactly when the first checkedBytes bytes agree |
| Redundancy.RedundantPanelData | src/dscKeybusInterface.cpp:263-276 | the result is true iff the stored command repeats the current one over checkedBytes bytes; on false the store becomes a copy of the current command, on true it is unchanged |
| Redundancy.SecondCheckRedundant | src/dscKeybusInterface.cpp:263-276 | after a check, the same command checks as redundant, and remembering it twice is remembering it once |
| Redundancy.PrefixShorter | src/dscKeybusInterface.cpp:265 | a command that repeats over n bytes repeats over any shorter prefix |
| Redundancy.FullMatchIsEqual | src/dscKeybusInterface.cpp:265 | over all dscReadSize bytes, redundant means equal |
| Filter.TrackStatus | src/dscKeybusInterface.cpp:486-497 | a complete status command of the watched kind leaves a copy that matches it; anything else leaves the copy alone |
| Filter.StatusRepeatDropped | src/dscKeybusInterface.cpp:486-497 | once a 0x05 or 0x1B status command is seen, the same command at the next gap is dropped, while one that differs is not |
| Filter.FilterFrame | src/dscKeybusInterface.cpp:135-167 | the gate stays closed exactly while it is closed and the frame neither has 24 bits nor is 0x05; a frame stopped by the gate never surfaces and moves no tracker |
| Filter.FilterTracks | src/dscKeybusInterface.cpp:143-167 | each of the four remembered commands is either left alone or moved exactly as a redundantPanelData call moves it; a frame that is not 0x0A, not 0xE6/0x20 or not 0xE6/0x03 leaves that copy alone, and with processRedundantData on the general copy is never touched |
| Filter.GateStaysOpen | src/dscKeybusInterface.cpp:136-140 | once the startup gate is open it never closes again |
| Filter.ProgrammingRepeatSuppressed | src/dscKeybusInterface.cpp:145-153 | a 0x0A or 0xE6/0x20 programming frame the consumer has just seen is suppressed when it comes again, whatever the redundancy switch |
| Filter.FilterRun | src/dscKeybusInterface.cpp:135-167 | the consumer's gate flag and trackers after a run of frames filtered one by one; an empty run changes nothing |
| Filter.RunKeepsProgramming | src/dscKeybusInterface.cpp:136-153 | along any run of frames an open gate stays open, a run without 0x0A frames keeps the 0x0A copy, and a run without 0xE6/0x20 frames keeps the 0xE6/0x20 copy |
| Filter.InterleavedRepeat | src/dscKeybusInterface.cpp:142-153 | a 0x0A or 0xE6/0x20 frame that got past the gate is suppressed when it comes again after any run of frames of other commands, whatever its bit count and the redundancy switch |
| Filter.GateWaitsForValidCrc | src/dscKeybusInterface.cpp:135-140 | validCRC (`Filter.ValidCrc`, lines 279-281: at least 24 bits) opens the startup gate whatever the first byte; while the gate is closed, a frame without a valid CRC that is not 0x05 is dropped with gate and trackers unchanged |
| Filter.NoRepeatWithoutRedundant | src/dscKeybusInterface.cpp:161-167 | with processRedundantData off, no frame surfaces twice in a row |
| Filter.DefaultsSurface | src/dscKeybusInterface.cpp:135-167 | with processRedundantData on and at most four partitions, a frame surfaces iff it passes the gate and is not an exact repeat of the last 0x0A or 0xE6/0x20 frame |
| Filter.PartitionStatusCompares8 | src/dscKeybusInterface.cpp:154-157 | with more than four partitions, a 0xE6/0x03 frame that repeats the last one in its first eight bytes is suppressed even if later bytes differ |
| Keys.KeyFor | src/dscKeybusInterface.cpp:221-249 | a character has a pattern exactly when it names a key, and no key uses the placeholder pattern 0xFF |
| Keys.PatternRoundTrip | src/dscKeybusInterface.cpp:221-249 | decoding a character's pattern gives back its key, and the command flag is set exactly for ENTER, BYPASS, HOME and CODE |
| Keys.PatternsDistinct | src/dscKeybusInterface.cpp:221-249 | two accepted characters share a pattern exactly when they name the same key |
| Keys.EveryKeyWritable | src/dscKeybusPrintData.cpp:46-65 | every pattern in the keypad key table is written by some character, with the matching command flag |
| Injector.IdleOk | src/dscKeybusInterface.cpp:65-69 | the writer after construction is well formed and ready |
| Injector.StageKey | src/dscKeybusInterface.cpp:213-260 | a key is staged only while the writer is ready and more than 500 ms after the last alarm key; a character outside the table keeps writeReady; the write partition falls back to 1 exactly when it exceeds dscPartitions; alarmTime is stamped with now for an alarm key; the string feed and injector state are untouched |
| Injector.AlarmGuardAtStartup | src/dscKeybusInterface.cpp:218 | with no alarm key ever written, the 500 ms guard still blocks every key in the first 500 ms after power-up |
| Injector.StrLen | src/dscKeybusInterface.cpp:198 | the length is the position of the first NUL: no NUL before it, and a NUL (or the end) at it |
| Injector.WriteKeysStep | src/dscKeybusInterface.cpp:196-208 | nothing happens unless a string is pending, the writer is ready and the counter is inside the string; otherwise the counter's character is staged (key, readiness, command flag, partition and alarm time are those of StageKey for its key), the counter advances, and at the string's end the pending flag and counter are cleared |
| Injector.WriteString | src/dscKeybusInterface.cpp:187-192 | the string is taken over; an empty string leaves the pending flag and counter alone |
| Injector.StringAdvances | src/dscKeybusInterface.cpp:196-208 | on a ready writer, one step of a NUL-free string stages its next character and moves the counter on by one, or clears it at the end |
| Injector.StringKeepsCounter | src/dscKeybusInterface.cpp:197 | a new string given while a key is in flight keeps the old counter, so the feed resumes mid-string |
| Injector.TakeCommand | src/dscKeybusInterface.cpp:328-335 | taking a command key clears writeCmd and, on the first pass, holds the key back behind the placeholder, and leaves the rest of the writer alone |
| Injector.EndPass | src/dscKeybusInterface.cpp:349-366 | the 24th bit ends the pass and stamps the time; a repeat pass or a plain key schedules the release, a command first pass arms the repeat with the held-back key |
| Injector.FallingEdge | src/dscKeybusInterface.cpp:317-373 | the pin is driven only during an injection and only on bits 1-8 or 24 |
| Injector.FallingEdgeKeepsString | src/dscKeybusInterface.cpp:317-373 | the injector never touches the key string, its counter or the pending flag |
| Injector.FallingEdgeOk | src/dscKeybusInterface.cpp:317-373 | a falling edge keeps the writer well formed |
| Injector.ReadyOnlyAfterDelay | src/dscKeybusInterface.cpp:349-373 | writeReady returns only from a scheduled release more than 300 ms after the last pass, and a release is scheduled only on bit 24 |
| Injector.ReadyIdle | src/dscKeybusInterface.cpp:326 | a ready writer is left entirely alone: no pin is driven and no field changes |
| Injector.FirstEdge | src/dscKeybusInterface.cpp:338-343 | the first bit of a pass drives the pin iff the key's top bit is 0, and starts the pass |
| Injector.MiddleEdge | src/dscKeybusInterface.cpp:346-348 | bits 2-23 of a pass drive the pin iff bit 8 - i of the key is 0 (none after bit 8) |
| Injector.PassPrefix | src/dscKeybusInterface.cpp:338-348 | after the first k < 24 edges of a frame, the pins pulled are exactly the zero bits of the key's first k positions |
| Injector.Pass | src/dscKeybusInterface.cpp:326-367 | a whole 24-bit pass pulls the key's zero bits in positions 1-8, pulls bit 24 iff the key on the line is the placeholder, then either arms the repeat or schedules the release |
| Injector.PlainKeyPass | src/dscKeybusInterface.cpp:338-366 | a plain key takes one pass: bits 1-8 pulled exactly where the pattern has a 0, then the release is scheduled |
| Injector.PlaceholderPinsIdle | src/dscKeybusInterface.cpp:334 | the placeholder 0xFF pulls none of bits 1-23 |
| Injector.CommandFirstPass | src/dscKeybusInterface.cpp:328-361 | a command key's first frame pulls only bit 24 and puts the key back for a second pass |
| Injector.RepeatPass | src/dscKeybusInterface.cpp:353-357 | the second pass carries the key itself and then schedules the release |
| Injector.CommandKeyHandshake | src/dscKeybusInterface.cpp:326-366 | a command key (with writeKey read as unsigned) takes two frames: the placeholder with bit 24, then the key itself, and only then the release |
| Injector.CommandKeySignedChar | src/dscKeybusInterface.cpp:349-365 | with a signed char the 0xFF test fails, the write ends after the placeholder pass and the key is never put on the line |
| Injector.ReleaseAfterPass | src/dscKeybusInterface.cpp:369-373 | after a pass no edge drives the pin, and writeReady returns exactly on an edge more than 300 ms after the pass |
| Capture.ZeroBytes | src/dscKeybusInterface.cpp:510 | the buffer is cleared to zeros |
| Capture.CopyBytes | src/dscKeybusInterface.cpp:522 | the destination becomes a copy of the source |
| Capture.CopyToRow | src/dscKeybusInterface.cpp:503 | the row becomes a copy of the capture and no other row changes |
| Capture.CopyFromRow | src/dscKeybusInterface.cpp:122 | panelData becomes a copy of the row |
| Capture.PanelCapture.Sample | src/dscKeybusInterface.cpp:403-440 | below dscReadSize bytes the bit is appended to the frame being captured; at the limit nothing is taken and skipData is set |
| Capture.PanelCapture.Reset | src/dscKeybusInterface.cpp:510-514 | the capture is empty, zeroed and skipData is cleared |
| Capture.ModuleCapture.Sample | src/dscKeybusInterface.cpp:450-477 | the bit is appended to the module frame, and the frame is marked detected exactly when some bit was low |
| Capture.ModuleCapture.Reset | src/dscKeybusInterface.cpp:528-531 | the module capture is empty and zeroed |
| Capture.CommandBuffer.PendingEmpty | src/dscKeybusInterface.cpp:117 | no command is pending exactly when panelBufferLength is 0 |
| Capture.CommandBuffer.Store | src/dscKeybusInterface.cpp:501-507 | a full buffer sets the overflow flag and drops the command; otherwise a kept command is appended at the end; the read cursor is unchanged |
| Capture.CommandBuffer.Take | src/dscKeybusInterface.cpp:119-133 | the oldest pending command is copied out with its counts and removed from the front, order kept; a take before the last keeps the stored commands and length and moves the cursor to the next row; the last take empties the buffer and puts the cursor back on row 1 (QueueRead) |
| Capture.CursorStep | src/dscKeybusInterface.cpp:124-132 | the read cursor after one take, with unbounded counters: the length is kept or becomes 0; it becomes 0 only after the last row, with the cursor back on row 1; otherwise the cursor moves to the next row inside the length |
| Capture.ByteCursorStep | src/dscKeybusInterface.cpp:120-132 | the same step with the byte-wide `panelBufferIndex`: the cursor stays a byte |
| Capture.ByteCursorWraps | src/dscKeybusInterface.cpp:120-132 | with 255 commands buffered the byte cursor wraps to 0 after the last row, the length is not reset, and the next read is row 255, one past the buffer; the unbounded step resets |
| Capture.ByteCursorAgrees | src/dscKeybusInterface.cpp:120-132 | with at most 254 commands buffered the byte cursor agrees with CursorStep |
| Capture.QueueReadCases | src/dscKeybusInterface.cpp:124-132 | after a QueueRead step on a non-empty queue: a read before the last keeps the stored commands and panelBufferLength and moves the cursor on by one; the last read sets the length to 0 and the cursor to 1 |
| ProcessData.Xor | src/dscKeybusProcessData.cpp:51 | a zone changed exactly when its old and new open flags differ |
| ProcessData.Merge | src/dscKeybusProcessData.cpp:57-63 | a changed-zone flag is set when it was set before or its zone changed now |
| ProcessData.XorIsZero | src/dscKeybusProcessData.cpp:51-52 | no zone changed exactly when the zone bytes are equal |
| ProcessData.ZoneByteShift | src/dscKeybusProcessData.cpp:49 | zone j + 1 is bit j + 1 of byte 2, and the eighth flag is always clear |
| ProcessData.HomeKey | src/dscKeybusProcessData.cpp:6 | the home flag is set by the HOME pattern, kept across CMD and ENTER, and cleared by any other byte |
| ProcessData.HomeKeyHistory | src/dscKeybusProcessData.cpp:6 | after a run of module bytes the flag is set iff HOME was the last byte other than CMD and ENTER, or there was none and the flag was set before |
| ProcessData.TroubleStep | src/dscKeybusProcessData.cpp:14-21 | trouble follows bit 3 of byte 3; a change is latched only when more than 3000 ms passed since the last latched change |
| ProcessData.PowerStep | src/dscKeybusProcessData.cpp:24-31 | powerTrouble follows bit 2 of byte 3, and powerChanged is latched on every change |
| ProcessData.ArmingStep | src/dscKeybusProcessData.cpp:35-46 | armed follows the flag; stay and away are exclusive and one of them holds exactly when armed, stay when the home key was held; a change is latched |
| ProcessData.ZonesStep | src/dscKeybusProcessData.cpp:49-63 | the open zones follow the decoded byte, and the per-zone changed flags latch every zone whose bit differs from the last byte |
| ProcessData.PanelZones | src/dscKeybusProcessData.cpp:8-65 | a frame of fewer than 24 bits leaves the status unchanged |
| ProcessData.LatchesOnlyRise | src/dscKeybusProcessData.cpp:13-64 | no change flag is ever cleared by processing |
| ProcessData.StatusChangedIsAnyLatch | src/dscKeybusProcessData.cpp:13-64 | statusChanged is raised exactly when it was already set or one of the trouble, power, armed or zone groups changed |
| ProcessData.ArmedChange | src/dscKeybusProcessData.cpp:35-46 | armed is bit 0 of byte 3 inverted; a change raises armedChanged and statusChanged and forgets the home key, no change keeps it; armedStay is home key and armed |
| ProcessData.OpenZonesDecoded | src/dscKeybusProcessData.cpp:49-50 | zone j + 1 is open exactly when bit j + 1 of byte 2 is set, and the eighth flag is clear |
| ProcessData.PanelStatus.ProcessHomeKey | src/dscKeybusProcessData.cpp:5-7 | the stored home flag moves as HomeKey says |
| ProcessData.PanelStatus.ProcessPanelZones | src/dscKeybusProcessData.cpp:8-65 | the status becomes PanelZones of the old status and the frame |
| ProcessData.PanelStatus.Decoded | src/dscKeybusProcessData.cpp:13-64 | the four groups are updated in source order, as PanelStep composes them |
| ProcessData.PanelStatus.UpdateTrouble | src/dscKeybusProcessData.cpp:14-21 | the trouble group moves as TroubleStep, and statusChanged rises exactly when a change is latched |
| ProcessData.PanelStatus.UpdatePower | src/dscKeybusProcessData.cpp:24-31 | the power group moves as PowerStep, and statusChanged rises on a change |
| ProcessData.PanelStatus.UpdateArmed | src/dscKeybusProcessData.cpp:33-46 | the arming group moves as ArmingStep with the old home flag, statusChanged rises on a change, and the home flag is cleared by it |
| ProcessData.PanelStatus.UpdateZones | src/dscKeybusProcessData.cpp:49-64 | the zones group moves as ZonesStep, and statusChanged rises on a change |
| ProcessData.WriteZoneBits | src/dscKeybusProcessData.cpp:57-63 | the loop leaves the changed flags merged with this call's changes and the open zones equal to the decoded byte |
| Keybus.Enqueued | src/dscKeybusInterface.cpp:486-507 | at a gap the queue either stays or grows by exactly the captured command at its end, and a full queue never grows |
| Keybus.EnqueuedKeeps | src/dscKeybusInterface.cpp:486-507 | a complete command that is not a status command is always queued while there is room |
| Keybus.EnqueuedExactly | src/dscKeybusInterface.cpp:486-507 | the capture-stage discard (`Filter.CaptureDiscards`: fewer than 8 bits, or a repeated 0x05/0x1B status command) decides with the room and skipData: the command is appended exactly when the buffer has room, skipData is off and it is not discarded; otherwise the buffer is unchanged |
| Keybus.Delivered | src/dscKeybusInterface.cpp:169-172 | a surfaced command without a valid CRC only moves the home-key flag; a decoded one sets armed from bit 0 of byte 3 and splits it into stay or away by the home-key flag processHomeKey has just updated; statusChanged once set stays set |
| Keybus.KeybusInterface.constructor | src/dscKeybusInterface.cpp:60-70 | virtual keypad iff a write pin is given, redundant and module processing on, writer ready, empty queue and captures, startup gate closed |
| Keybus.KeybusInterface.DataSample | src/dscKeybusInterface.cpp:397-535 | with the clock high one panel bit is sampled, or skipData is raised when the capture is full; with the clock low a module bit is sampled when module processing is on, the module capture has room and at most one command is queued; these sampling branches leave keybusTime, the overflow flag, the module slot and the status copies alone; after a gap the command is queued or dropped, the 0x05/0x1B copies move as TrackStatus, the panel capture is reset with skipData off, and the module capture is reset when module processing is on and kept when it is off |
| Keybus.KeybusInterface.EndOfCommand | src/dscKeybusInterface.cpp:482-532 | keybusTime is stamped, the queue moves as Enqueued, overflow is set on a full buffer, the 0x05/0x1B copies move as TrackStatus, the panel capture is cleared, and a detected module command is published to the module slot |
| Keybus.KeybusInterface.StorePanel | src/dscKeybusInterface.cpp:486-514 | the queue moves as Enqueued with the status repeat filter, the 0x05/0x1B copies move as TrackStatus, and the panel capture is cleared |
| Keybus.KeybusInterface.CheckStatusRepeat | src/dscKeybusInterface.cpp:486-497 | skipData becomes the capture-stage discard decision, and each status copy moves as TrackStatus |
| Keybus.KeybusInterface.StoreModule | src/dscKeybusInterface.cpp:519-531 | a detected module command becomes moduleData with its counts and raises moduleDataCaptured; otherwise the slot is unchanged; the capture is cleared |
| Keybus.KeybusInterface.ClockChange | src/dscKeybusInterface.cpp:307-376 | a rising edge releases the pin and stamps micros(); a falling edge records the high time and, on a virtual keypad, moves the writer as FallingEdge |
| Keybus.KeybusInterface.HandlePanel | src/dscKeybusInterface.cpp:99-176 | liveness follows the 3000 ms rule and a change raises keybusChanged and statusChanged; a lost bus returns true with the writer, queue, panelData and its counts, gate flag and trackers untouched; otherwise one key string step and one queued command are handled as Served says, including the read cursor (QueueRead) and, on an empty queue, panelData kept |
| Keybus.KeybusInterface.CheckLiveness | src/dscKeybusInterface.cpp:102-111 | connected iff the last gap is at most 3000 ms ago; a change raises the flags; the result is true exactly when the bus was just lost |
| Keybus.KeybusInterface.Serve | src/dscKeybusInterface.cpp:114-175 | one WriteKeysStep, then one queued command consumed as Consumed says (Served); on an empty queue panelData and its counts are kept |
| Keybus.KeybusInterface.Consume | src/dscKeybusInterface.cpp:117-175 | an empty queue returns false with queue, panelData and its counts, gate flag, trackers and status unchanged; otherwise the oldest command is removed with the cursor moving as QueueRead, filtered by FilterFrame, and if it surfaces the status moves as Delivered |
| Keybus.KeybusInterface.Load | src/dscKeybusInterface.cpp:119-133 | panelData and its counts become the oldest pending command, which leaves the queue; stored commands, cursor and length move as QueueRead |
| Keybus.KeybusInterface.Process | src/dscKeybusInterface.cpp:135-175 | the result, the gate and the four trackers move as FilterFrame; a surfaced frame updates the status by the home key and PanelZones, otherwise it is unchanged |
| Keybus.KeybusInterface.FilterCommand | src/dscKeybusInterface.cpp:136-167 | the result, gate and trackers are those of FilterFrame on panelData |
| Keybus.KeybusInterface.CheckProgramming | src/dscKeybusInterface.cpp:143-153 | a 0x0A or 0xE6/0x20 frame is redundant iff it repeats the matching tracker, which is updated as redundantPanelData does |
| Keybus.KeybusInterface.CheckPartitionStatus | src/dscKeybusInterface.cpp:154-157 | with more than four partitions, a 0xE6/0x03 frame is redundant iff its first eight bytes repeat the tracker |
| Keybus.KeybusInterface.HandleModule | src/dscKeybusInterface.cpp:179-183 | the result is whether a module command was captured, and the flag is cleared, so each capture is reported once |
| Keybus.KeybusInterface.Write | src/dscKeybusInterface.cpp:213-260 | the writer moves as StageKey for the character's key |
| Keybus.KeybusInterface.WriteKeyString | src/dscKeybusInterface.cpp:187-192 | the writer moves as WriteString |
| Keybus.KeybusInterface.WriteKeys | src/dscKeybusInterface.cpp:196-208 | the writer moves as WriteKeysStep |

## Left out

- `begin()`, pin modes and the platform timers (`src/dscKeybusInterface.cpp:73-96`, `:296-304`, `:382-387`): hardware set-up. The model assumes each clock change is followed by exactly one data sample, in any order with the sketch's calls.
- `noInterrupts()`/`interrupts()` and preemption of `handlePanel` by an interrupt: every method runs atomically, so a mid-method interleaving is not modelled.
- `stream->println` in `write(const char*)` (`:190`): output only.
- `statusCmd` and `currentCmd` (`:414-421`, `:500`), `writeByte` and `writeBit` (`:254-255`), `writeAsterisk`/`wroteAsterisk` and `displayTrailingBits`: stored or declared, but never read by the modelled code.
- `writeAlarm` is a public flag the core never sets; the writer carries it as a field, and its 500 ms guard is modelled.
- `src/dscKeybusPrintData.cpp` (printing) is not part of this model; its keypad key table is used only as the independent reference `Keys.Decode`.
- Multi-partition status arrays: `processPanel_Zones` only ever writes partition index 0, so the status record holds partition 1 as scalars. `dscPartitions` is still used for the 0xE6/0x03 filter and the write partition.
- ProcessData.PanelZones: `processPanel_Zones` reads `millis()` twice (`src/dscKeybusProcessData.cpp:16` and `:20`). The model uses one `now` for both, so a millisecond tick between the two reads is not captured.
- Keybus.KeybusInterface.HandlePanel: every `millis()` read of one `handlePanel` call shares the one `nowMs`: the liveness test (`:103`), `write(char)` reached through `writeKeys` (`:218`) and both reads in `processPanel_Zones`. A tick between these reads is not captured.
- Keybus.KeybusInterface.ClockChange: `millis()` is read up to three times in one clock interrupt (`:352`, `:369`, `:371`). The model uses one `nowMs`.
- Byte-wide counters (`isrPanelByteCount`, `panelBufferLength`, `writeCounter`, ...) are `nat`. The invariants keep the capture counters within their byte ranges (at most 16 bytes, 121 bits). The one counter that can wrap, `panelBufferIndex` with `dscBufferSize` = 255, is a finding (below); the queue uses the corrected step `Capture.CursorStep`. Key strings are assumed shorter than 256 characters where the counter matters (`Injector.StringAdvances`).
- Keybus.KeybusInterface.DataSample: for the gap branch the contract states the queue, keybusTime, the status copies, the panel capture, and the module capture (reset when processModuleData is on, kept when it is off); the overflow flag's exact value and the module slot are stated only on EndOfCommand, which that branch calls.
- Injector.WriteString: `write(const char*)` keeps the caller's pointer (`src/dscKeybusInterface.cpp:188`), so a sketch that changes its string while it is being fed changes the keys that follow. The model copies the string into the writer's value, so such aliasing is not captured.
- The `volatile` qualifiers and the esp8266 `ICACHE_RAM_ATTR` placement: compiler directives with no behaviour at this level.

## Findings

| source | as written | input that shows it | evidently intended | confidence | as-written member | corrected member |
|---|---|---|---|---|---|---|
| src/dscKeybusInterface.cpp:349-365 | `writeKey` is a plain `char` (signed on avr-gcc), so `writeKey == 0xFF` compares -1 with 255 and is never true; after the placeholder pass the write ends and the held-back key is dropped | `write('#')` (any of ENTER, BYPASS, HOME, CODE) on an AVR board | the placeholder pass is followed by a second pass carrying the key's own pattern before writeReady returns | not executed | Injector.CommandKeySignedChar | Injector.CommandKeyHandshake |
| src/dscKeybusInterface.cpp:120-132 | `panelBufferIndex` is a `byte`; with `dscBufferSize` = 255 and all 255 rows filled, the increment after the last row wraps it to 0, the test `panelBufferIndex > panelBufferLength` fails, and the next read uses row `0 - 1` = 255, one past the buffer, while the length is never reset | `dscBufferSize` set to 255 and 255 commands buffered before `handlePanel` runs | after the last row the cursor returns to 1 and the buffer is emptied, for every buffer size the header allows | not executed | Capture.ByteCursorWraps | Capture.CursorStep |
