// Derivation paths on the wire: a count byte, then that many 32-bit little-endian steps.

module Paths {
  import opened Octets
  import opened Numbers

  const MAX_STEPS: nat := 10
  const STEP_LIMIT: nat := 0x1_0000_0000

  /** The first two steps of m/44'/505'/0', the prefix the app insists on. */
  const PREFIX: seq<nat> := [0x8000_002C, 0x8000_01F9]

  datatype PathReading = Path(steps: seq<nat>, used: nat) | TooLong | Incomplete

  function Steps(b: Bytes, n: nat): (r: seq<nat>)
    requires |b| >= 4 * n
    ensures |r| == n
  {
    if n == 0 then [] else [LittleEndian(b[..4])] + Steps(b[4..], n - 1)
  }

  function ParsePath(b: Bytes): PathReading {
    if b == [] then Incomplete
    else if b[0] > MAX_STEPS then TooLong
    else if |b| < 1 + 4 * b[0] then Incomplete
    else Path(Steps(b[1..], b[0]), 1 + 4 * b[0])
  }

  predicate HasPrefix(path: seq<nat>) {
    |path| >= 2 && path[..2] == PREFIX
  }

  predicate ValidPath(path: seq<nat>) {
    |path| < 256 && forall k :: 0 <= k < |path| ==> path[k] < STEP_LIMIT
  }

  function EncodeSteps(path: seq<nat>): (b: Bytes)
    ensures |b| == 4 * |path|
  {
    if path == [] then [] else ToLittleEndian(4, path[0]) + EncodeSteps(path[1..])
  }

  function EncodePath(path: seq<nat>): Bytes
    requires |path| < 256
  {
    [|path|] + EncodeSteps(path)
  }

  lemma {:induction false} StepAt(b: Bytes, n: nat, k: nat)
    requires |b| >= 4 * n && k < n
    ensures Steps(b, n)[k] == Word(b, 4 * k)
    decreases k
  {
    if k == 0 {
      LittleEndianSpelled(b[..4], 0);
    } else {
      StepAt(b[4..], n - 1, k - 1);
    }
  }

  /** A path is read as a count of at most ten and then four bytes for each step, least significant first. */
  lemma {:induction false} PathSpelled(b: Bytes)
    ensures ParsePath(b).Path? <==> b != [] && b[0] <= 10 && |b| >= 1 + 4 * b[0]
    ensures ParsePath(b).TooLong? <==> b != [] && b[0] > 10
    ensures ParsePath(b).Path? ==>
              var steps := ParsePath(b).steps;
              && |steps| == b[0]
              && forall k :: 0 <= k < |steps| ==> steps[k] == Word(b, 4 * k + 1)
  {
    if ParsePath(b).Path? {
      forall k | 0 <= k < b[0] ensures ParsePath(b).steps[k] == Word(b, 4 * k + 1) {
        StepAt(b[1..], b[0], k);
      }
    }
  }

  lemma {:induction false} FourBytes()
    ensures Pow256(4) == STEP_LIMIT
  {
    assert Pow256(2) == 256 * 256;
  }

  lemma {:induction false} StepsBack(path: seq<nat>, rest: Bytes)
    requires forall k :: 0 <= k < |path| ==> path[k] < STEP_LIMIT
    ensures Steps(EncodeSteps(path) + rest, |path|) == path
  {
    if path == [] {
    } else {
      var b := EncodeSteps(path) + rest;
      FourBytes();
      ToLittleEndianBack(4, path[0]);
      assert b[..4] == ToLittleEndian(4, path[0]);
      assert b[4..] == EncodeSteps(path[1..]) + rest;
      StepsBack(path[1..], rest);
    }
  }

  /** Decoding inverts encoding for up to ten steps and stops behind the last one; more are refused. */
  lemma {:induction false} PathRoundTrip(path: seq<nat>, rest: Bytes)
    requires ValidPath(path)
    ensures ParsePath(EncodePath(path) + rest) ==
            if |path| <= MAX_STEPS then Path(path, 1 + 4 * |path|) else TooLong
  {
    var b := EncodePath(path) + rest;
    assert b[1..] == EncodeSteps(path) + rest;
    StepsBack(path, rest);
  }

  lemma {:induction false} StepsStable(b: Bytes, b': Bytes, n: nat)
    requires b <= b' && |b| >= 4 * n
    ensures Steps(b', n) == Steps(b, n)
  {
    if n == 0 {
    } else {
      assert b'[..4] == b[..4];
      StepsStable(b[4..], b'[4..], n - 1);
    }
  }

  /** A decided reading does not change when more bytes follow. */
  lemma {:induction false} PathStable(b: Bytes, b': Bytes)
    requires b <= b' && !ParsePath(b).Incomplete?
    ensures ParsePath(b') == ParsePath(b)
  {
    if b[0] <= MAX_STEPS { StepsStable(b[1..], b'[1..], b[0]); }
  }
}
