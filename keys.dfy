/** The virtual keypad's key table: the character a sketch passes to write(char) and the
    8-bit pattern the keypad drives onto the data line for it
    (src/dscKeybusInterface.cpp:221-249).  The panel reads the same patterns back as
    keypad data; src/dscKeybusPrintData.cpp:46-65 names them. */
module Keys {
  import opened Wrappers

  /** A key's line pattern, and whether it is one of the command keys (enter, bypass,
      home, code) that the injector sends with the two-pass handshake. */
  datatype KeyCode = KeyCode(pattern: bv8, command: bool)

  /** The pattern a keypad sends between keys (the "CMD" entry of the print table); the
      injector sends it as the first pass of a command key. */
  const Placeholder: bv8 := 0xFF

  /** The key names the panel side understands, one per pattern (the print table). */
  datatype Key = Digit(d: nat) | Read | Address | Enter | Bypass | Home | Code

  /** The switch in write(char): None for a character it does not know (validKey = false). */
  function KeyFor(c: char): (k: Option<KeyCode>)
    ensures k.Some? <==> KeyOf(c).Some?
    ensures k.Some? ==> k.value.pattern != Placeholder
  {
    match c
    case '0' => Some(KeyCode(0xCF, false))
    case '1' => Some(KeyCode(0xDD, false))
    case '2' => Some(KeyCode(0xBD, false))
    case '3' => Some(KeyCode(0x7D, false))
    case '4' => Some(KeyCode(0xDB, false))
    case '5' => Some(KeyCode(0xBB, false))
    case '6' => Some(KeyCode(0x7B, false))
    case '7' => Some(KeyCode(0xD7, false))
    case '8' => Some(KeyCode(0xB7, false))
    case '9' => Some(KeyCode(0x77, false))
    case 'r' => Some(KeyCode(0xAF, false))
    case 'R' => Some(KeyCode(0xAF, false))
    case 'a' => Some(KeyCode(0x6F, false))
    case 'A' => Some(KeyCode(0x6F, false))
    case '#' => Some(KeyCode(0xEF, true))
    case 'b' => Some(KeyCode(0xF7, true))
    case 'B' => Some(KeyCode(0xF7, true))
    case 'h' => Some(KeyCode(0xFD, true))
    case 'H' => Some(KeyCode(0xFD, true))
    case 'c' => Some(KeyCode(0xFB, true))
    case 'C' => Some(KeyCode(0xFB, true))
    case _ => None
  }

  /** Which key a sketch character means, independently of any pattern. */
  function KeyOf(c: char): Option<Key>
  {
    if '0' <= c <= '9' then Some(Digit(c as int - '0' as int))
    else if c == 'r' || c == 'R' then Some(Read)
    else if c == 'a' || c == 'A' then Some(Address)
    else if c == '#' then Some(Enter)
    else if c == 'b' || c == 'B' then Some(Bypass)
    else if c == 'h' || c == 'H' then Some(Home)
    else if c == 'c' || c == 'C' then Some(Code)
    else None
  }

  /** The print table read backwards: the key a pattern on the keypad line stands for.
      The placeholder 0xFF and every other pattern name no key. */
  function Decode(p: bv8): Option<Key>
  {
    match p
    case 0xCF => Some(Digit(0))
    case 0xDD => Some(Digit(1))
    case 0xBD => Some(Digit(2))
    case 0x7D => Some(Digit(3))
    case 0xDB => Some(Digit(4))
    case 0xBB => Some(Digit(5))
    case 0x7B => Some(Digit(6))
    case 0xD7 => Some(Digit(7))
    case 0xB7 => Some(Digit(8))
    case 0x77 => Some(Digit(9))
    case 0xEF => Some(Enter)
    case 0xF7 => Some(Bypass)
    case 0xFD => Some(Home)
    case 0xAF => Some(Read)
    case 0x6F => Some(Address)
    case 0xFB => Some(Code)
    case _ => None
  }

  /** The keys that write(char) flags with writeCmd. */
  predicate IsCommand(k: Key)
  {
    k == Enter || k == Bypass || k == Home || k == Code
  }

  /** Every pattern the writer drives is read by the panel side as exactly the key the
      character names, and the command flag is set exactly for the command keys. */
  lemma PatternRoundTrip(c: char)
    requires KeyFor(c).Some?
    ensures Decode(KeyFor(c).value.pattern) == KeyOf(c)
    ensures KeyFor(c).value.command <==> IsCommand(KeyOf(c).value)
  {
  }

  /** Two characters get the same pattern only when they name the same key (upper and
      lower case of a letter), so no two keys collide on the line. */
  lemma PatternsDistinct(c: char, d: char)
    requires KeyFor(c).Some? && KeyFor(d).Some?
    ensures KeyFor(c).value.pattern == KeyFor(d).value.pattern <==> KeyOf(c) == KeyOf(d)
  {
    PatternRoundTrip(c);
    PatternRoundTrip(d);
  }

  /** The character a sketch types for a key (lower case for letters). */
  function CharOf(k: Key): char
  {
    match k
    case Digit(d) => if d < 10 then ('0' as int + d) as char else ' '
    case Read => 'r'
    case Address => 'a'
    case Enter => '#'
    case Bypass => 'b'
    case Home => 'h'
    case Code => 'c'
  }

  /** Every key of the print table can be typed: its character maps back to the very
      pattern the panel side decoded, flagged as a command exactly for command keys. */
  lemma EveryKeyWritable(p: bv8)
    requires Decode(p).Some?
    ensures KeyFor(CharOf(Decode(p).value)) == Some(KeyCode(p, IsCommand(Decode(p).value)))
  {
  }
}
