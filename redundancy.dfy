/** redundantPanelData (src/dscKeybusInterface.cpp:263-276): compare a command with the
    previous copy over its first bytes, and remember the whole command when it differs.
    The capture stage uses it for the status commands 0x05 and 0x1B and the consumer for
    the programming-loop commands. */
module Redundancy {
  import opened Framing

  /** The first n bytes of the two buffers agree. */
  predicate SamePrefix(prev: seq<bv8>, cur: seq<bv8>, n: nat)
    requires n <= |prev| && n <= |cur|
  {
    forall j :: 0 <= j < n ==> prev[j] == cur[j]
  }

  /** The remembered copy after one check: kept on a match, otherwise the whole command. */
  function Remember(prev: seq<bv8>, cur: seq<bv8>, n: nat): (r: seq<bv8>)
    requires n <= |prev| && n <= |cur|
    ensures n <= |r| && SamePrefix(r, cur, n)
  {
    if SamePrefix(prev, cur, n) then prev else cur
  }

  /** The comparison loop at lines 264-270: true iff the first checkedBytes bytes agree;
      it stops at the first difference. */
  method PrefixMatches(previousCmd: array<bv8>, currentCmd: array<bv8>, checkedBytes: nat)
      returns (redundantData: bool)
    requires checkedBytes <= previousCmd.Length && checkedBytes <= currentCmd.Length
    ensures redundantData <==> SamePrefix(previousCmd[..], currentCmd[..], checkedBytes)
  {
    redundantData := true;
    var i := 0;
    while i < checkedBytes
      invariant 0 <= i <= checkedBytes
      invariant forall j :: 0 <= j < i ==> previousCmd[j] == currentCmd[j]
    {
      if previousCmd[i] != currentCmd[i] {
        redundantData := false;
        break;
      }
      i := i + 1;
    }
  }

  /** redundantPanelData: on a match returns true and leaves previousCmd as it was,
      otherwise copies all ReadSize bytes of currentCmd into it and returns false. */
  method RedundantPanelData(previousCmd: array<bv8>, currentCmd: array<bv8>, checkedBytes: nat)
      returns (redundantData: bool)
    requires previousCmd.Length == ReadSize && currentCmd.Length == ReadSize
    requires previousCmd != currentCmd
    requires checkedBytes <= ReadSize
    modifies previousCmd
    ensures redundantData <==> SamePrefix(old(previousCmd[..]), currentCmd[..], checkedBytes)
    ensures previousCmd[..] == Remember(old(previousCmd[..]), currentCmd[..], checkedBytes)
  {
    redundantData := PrefixMatches(previousCmd, currentCmd, checkedBytes);
    if !redundantData {
      for i := 0 to ReadSize
        invariant forall j :: 0 <= j < i ==> previousCmd[j] == currentCmd[j]
      {
        previousCmd[i] := currentCmd[i];
      }
      assert previousCmd[..] == currentCmd[..];
    }
  }

  /** Asking twice about the same command: the second check reports it as redundant and
      remembers nothing new (the check is idempotent). */
  lemma {:induction false} SecondCheckRedundant(prev: seq<bv8>, cur: seq<bv8>, n: nat)
    requires n <= |prev| && n <= |cur|
    ensures SamePrefix(Remember(prev, cur, n), cur, n)
    ensures Remember(Remember(prev, cur, n), cur, n) == Remember(prev, cur, n)
  {
  }

  /** A match over n bytes is a match over every shorter prefix: comparing fewer bytes
      can only report more commands as redundant. */
  lemma PrefixShorter(prev: seq<bv8>, cur: seq<bv8>, n: nat, m: nat)
    requires m <= n <= |prev| && n <= |cur|
    ensures SamePrefix(prev, cur, n) ==> SamePrefix(prev, cur, m)
  {
  }

  /** Over the whole buffer a match is plain equality. */
  lemma FullMatchIsEqual(prev: seq<bv8>, cur: seq<bv8>)
    requires |prev| == ReadSize && |cur| == ReadSize
    ensures SamePrefix(prev, cur, ReadSize) <==> prev == cur
  {
    if SamePrefix(prev, cur, ReadSize) {
      assert prev == cur;
    }
  }
}
