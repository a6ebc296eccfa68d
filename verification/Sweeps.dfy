/**
  Linear sweeps over bytecode: source-map decoding (src/evm/srcmap/parser.rs),
  constant collection (src/evm/bytecode_analyzer.rs) and signature extraction
  (src/evm/contract_utils.rs). All three walk the same instruction starts.
 */
module Sweeps {
  import opened Words

  const PUSH1: Byte := 0x60
  const PUSH4: Byte := 0x63
  const PUSH32: Byte := 0x7f
  const JUMPI: Byte := 0x57
  const EQ: Byte := 0x14
  const XOR: Byte := 0x18

  predicate IsPush(op: Byte) {
    PUSH1 <= op <= PUSH32
  }

  /** Bytes of the instruction with this opcode, immediate included. */
  function Size(op: Byte): (n: nat)
    ensures 1 <= n <= 33
  {
    if IsPush(op) then op - 0x5e else 1
  }

  /** The starts of all instructions from `i` on. */
  function Starts(code: Bytes, i: nat): seq<nat>
    decreases |code| - i
  {
    if i >= |code| then [] else [i] + Starts(code, i + Size(code[i]))
  }

  lemma {:induction false} StartsRise(code: Bytes, i: nat)
    ensures forall k | 0 <= k < |Starts(code, i)| :: i <= Starts(code, i)[k] < |code|
    ensures forall j, k | 0 <= j < k < |Starts(code, i)| :: Starts(code, i)[j] < Starts(code, i)[k]
    decreases |code| - i
  {
    if i < |code| {
      StartsRise(code, i + Size(code[i]));
    }
  }

  lemma {:induction false} StartsSplit(code: Bytes, done: seq<nat>, i: nat)
    requires i < |code| && Starts(code, 0) == done + Starts(code, i)
    ensures Starts(code, 0) == done + [i] + Starts(code, i + Size(code[i]))
  {
    assert done + ([i] + Starts(code, i + Size(code[i]))) == done + [i] + Starts(code, i + Size(code[i]));
  }

  // ---------------------------------------------------------------- source maps

  /** The `n`-th instruction start maps to the `n`-th entry, and nothing else is mapped. */
  ghost predicate MapsStarts<L>(results: map<nat, L>, starts: seq<nat>, entries: seq<L>) {
    && (forall k | 0 <= k < |starts| && k < |entries| :: starts[k] in results && results[starts[k]] == entries[k])
    && (forall i | i in results :: exists k | 0 <= k < |starts| && k < |entries| :: starts[k] == i)
  }

  lemma MapsOneMore<L>(results: map<nat, L>, starts: seq<nat>, entries: seq<L>, i: nat)
    requires MapsStarts(results, starts, entries) && forall k | 0 <= k < |starts| :: starts[k] < i
    ensures MapsStarts(if |starts| < |entries| then results[i := entries[|starts|]] else results, starts + [i], entries)
  {
    var more := starts + [i];
    var results1 := if |starts| < |entries| then results[i := entries[|starts|]] else results;
    forall j | j in results1
      ensures exists k | 0 <= k < |more| && k < |entries| :: more[k] == j
    {
      if j in results {
        var k :| 0 <= k < |starts| && k < |entries| && starts[k] == j;
        assert more[k] == j;
      } else {
        assert more[|starts|] == j;
      }
    }
  }

  /** The loop of `decode_instructions` over an uncompressed map. */
  method DecodeInstructions<L>(bytecode: Bytes, uncompressedMap: seq<L>) returns (results: map<nat, L>)
    ensures MapsStarts(results, Starts(bytecode, 0), uncompressedMap)
  {
    results := map[];
    var idx, srcmapIdx := 0, 0;
    ghost var done: seq<nat> := [];
    StartsRise(bytecode, 0);
    assert [] + Starts(bytecode, 0) == Starts(bytecode, 0);
    while idx < |bytecode|
      invariant Starts(bytecode, 0) == done + Starts(bytecode, idx) && |done| == srcmapIdx
      invariant forall k | 0 <= k < |done| :: done[k] < idx
      invariant MapsStarts(results, done, uncompressedMap)
      decreases |bytecode| - idx
    {
      var opcode := bytecode[idx];
      StartsSplit(bytecode, done, idx);
      MapsOneMore(results, done, uncompressedMap, idx);
      if srcmapIdx < |uncompressedMap| {
        results := results[idx := uncompressedMap[srcmapIdx]];
      }
      done := done + [idx];
      if IsPush(opcode) {
        idx := idx + opcode - 0x5e;
      } else {
        idx := idx + 1;
      }
      srcmapIdx := srcmapIdx + 1;
    }
    assert done + [] == done;
  }

  // ---------------------------------------------------------------- constants

  /** The instruction at `i` pushes a complete immediate of two or more bytes, and no JUMPI follows. */
  predicate PushesConstant(code: Bytes, i: nat) {
    && i < |code| && IsPush(code[i]) && Size(code[i]) >= 3
    && i + Size(code[i]) <= |code|
    && !(i + Size(code[i]) < |code| && code[i + Size(code[i])] == JUMPI)
  }

  function Immediate(code: Bytes, i: nat): Bytes
    requires i < |code| && i + Size(code[i]) <= |code|
  {
    code[i + 1..i + Size(code[i])]
  }

  /** `data` is the constant of one of the instructions that start in `starts`. */
  predicate ConstantOf(code: Bytes, starts: seq<nat>, data: Bytes) {
    exists k | 0 <= k < |starts| :: PushesConstant(code, starts[k]) && Immediate(code, starts[k]) == data
  }

  lemma ConstantOfMore(code: Bytes, starts: seq<nat>, i: nat, data: Bytes)
    ensures ConstantOf(code, starts + [i], data)
       <==> ConstantOf(code, starts, data) || (PushesConstant(code, i) && Immediate(code, i) == data)
  {
    var more := starts + [i];
    if ConstantOf(code, starts, data) {
      var k :| 0 <= k < |starts| && PushesConstant(code, starts[k]) && Immediate(code, starts[k]) == data;
      assert more[k] == starts[k];
    }
    if PushesConstant(code, i) && Immediate(code, i) == data {
      assert more[|starts|] == i;
    }
  }

  /** Nothing starts behind an instruction that runs over the end. */
  lemma LastStart(code: Bytes, i: nat)
    requires i >= |code|
    ensures Starts(code, i) == []
  {
  }

  /** `find_constants`: the complete immediates of two or more bytes not followed by JUMPI, and nothing else. */
  method FindConstants(bytes: Bytes) returns (constants: set<Bytes>)
    ensures forall data :: data in constants <==> ConstantOf(bytes, Starts(bytes, 0), data)
  {
    constants := {};
    var idx := 0;
    ghost var done: seq<nat> := [];
    assert [] + Starts(bytes, 0) == Starts(bytes, 0);
    while idx < |bytes|
      invariant Starts(bytes, 0) == done + Starts(bytes, idx)
      invariant forall data :: data in constants <==> ConstantOf(bytes, done, data)
      decreases |bytes| - idx
    {
      var op := bytes[idx];
      StartsSplit(bytes, done, idx);
      forall data {
        ConstantOfMore(bytes, done, idx, data);
      }
      done := done + [idx];
      if IsPush(op) {
        var next := idx + op - 0x5e;
        var shouldSkip := next < |bytes| && bytes[next] == JUMPI;
        if |bytes| < next {
          LastStart(bytes, next);
          assert done + [] == done;
          break;
        }
        if !shouldSkip && op - 0x60 + 1 >= 2 {
          var data := CopyImmediate(bytes, idx);
          constants := constants + {data};
        }
        idx := next;
      } else {
        idx := idx + 1;
      }
    }
    assert done + [] == done;
  }

  /** The inner loop, byte by byte into a buffer. */
  method CopyImmediate(bytes: Bytes, idx: nat) returns (data: Bytes)
    requires idx < |bytes| && IsPush(bytes[idx]) && idx + Size(bytes[idx]) <= |bytes|
    ensures data == Immediate(bytes, idx)
  {
    var buffer := new Byte[bytes[idx] - 0x60 + 1];
    for i := 0 to bytes[idx] - 0x60 + 1
      invariant forall j | 0 <= j < i :: buffer[j] == bytes[idx + 1..][j]
    {
      buffer[i] := bytes[idx + i + 1];
    }
    data := buffer[..];
    assert data == bytes[idx + 1..][..buffer.Length];
  }

  // ---------------------------------------------------------------- signatures

  /** A PUSH4 too close to the end for the sweep to look behind it. */
  predicate TooClose(code: Bytes, i: nat) {
    i < |code| && code[i] == PUSH4 && i + 7 >= |code|
  }

  /** The PUSH4 is compared right away, as compilers do in a dispatcher. */
  predicate Dispatches(code: Bytes, i: nat) {
    i + 7 < |code| && code[i] == PUSH4 && (code[i + 5] == EQ || code[i + 6] == XOR || code[i + 5] == XOR)
  }

  /** The signatures of `starts`, up to the first PUSH4 that is too close to the end. */
  function Signatures(code: Bytes, starts: seq<nat>): seq<Bytes> {
    if starts == [] || TooClose(code, starts[0]) then []
    else Found(code, starts[0]) + Signatures(code, starts[1..])
  }

  method ReadSignature(bytes: Bytes, i: nat) returns (sigBytes: Bytes)
    requires i + 4 <= |bytes|
    ensures sigBytes == bytes[i..i + 4]
  {
    sigBytes := [];
    for j := 0 to 4
      invariant sigBytes == bytes[i..i + j]
    {
      sigBytes := sigBytes + [bytes[i + j]];
    }
  }

  lemma SignaturesFirst(code: Bytes, i: nat, rest: seq<nat>)
    ensures Signatures(code, [i] + rest)
         == if TooClose(code, i) then [] else Found(code, i) + Signatures(code, rest)
  {
    assert ([i] + rest)[1..] == rest;
  }

  /** The signature that the instruction at `i` adds. */
  function Found(code: Bytes, i: nat): seq<Bytes> {
    if Dispatches(code, i) then [code[i + 1..i + 5]] else []
  }

  /** The signatures of the whole code are those found before `i` and those from there on. */
  predicate UpTo(code: Bytes, found: seq<Bytes>, i: nat) {
    Signatures(code, Starts(code, 0)) == found + Signatures(code, Starts(code, i))
  }

  /** One instruction further. */
  lemma UpToNext(code: Bytes, found: seq<Bytes>, i: nat)
    requires i < |code| && UpTo(code, found, i)
    ensures TooClose(code, i) ==> Signatures(code, Starts(code, 0)) == found
    ensures !TooClose(code, i) ==> UpTo(code, found + Found(code, i), i + Size(code[i]))
  {
    var rest := Starts(code, i + Size(code[i]));
    assert Starts(code, i) == [i] + rest;
    SignaturesFirst(code, i, rest);
  }

  /** What the loop does at a PUSH4, `i` being the place behind its opcode. */
  method LookBehind(bytes: Bytes, i: nat) returns (stop: bool, found: seq<Bytes>)
    requires 0 < i <= |bytes| && bytes[i - 1] == PUSH4
    ensures stop == TooClose(bytes, i - 1)
    ensures !stop ==> found == Found(bytes, i - 1)
  {
    stop, found := i + 4 + 2 >= |bytes|, [];
    if !stop && (bytes[i + 4] == EQ || bytes[i + 5] == XOR || bytes[i + 4] == XOR) {
      var sigBytes := ReadSignature(bytes, i);
      found := [sigBytes];
    }
  }

  lemma UpToStart(code: Bytes)
    ensures UpTo(code, [], 0)
  {
  }

  lemma UpToEnd(code: Bytes, found: seq<Bytes>, i: nat)
    requires i >= |code| && UpTo(code, found, i)
    ensures Signatures(code, Starts(code, 0)) == found
  {
    LastStart(code, i);
  }

  /** The body of the loop, at the instruction at `start`. */
  method SweepOne(bytes: Bytes, start: nat, found: seq<Bytes>) returns (i: nat, codeSig: seq<Bytes>, stop: bool)
    requires start < |bytes| && UpTo(bytes, found, start)
    ensures stop ==> Signatures(bytes, Starts(bytes, 0)) == codeSig
    ensures !stop ==> i > start && UpTo(bytes, codeSig, i)
  {
    UpToNext(bytes, found, start);
    codeSig, stop := found, false;
    var op := bytes[start];
    i := start + 1;
    if op == PUSH4 {
      var more;
      stop, more := LookBehind(bytes, i);
      if stop {
        return;
      }
      codeSig := codeSig + more;
    }
    if IsPush(op) {
      i := i + op - 0x5f;
    }
  }

  /** `extract_sig_from_contract` on the decoded code. */
  method ExtractSignatures(bytes: Bytes) returns (codeSig: seq<Bytes>)
    ensures codeSig == Signatures(bytes, Starts(bytes, 0))
  {
    codeSig := [];
    var i := 0;
    UpToStart(bytes);
    while i < |bytes|
      invariant UpTo(bytes, codeSig, i)
      decreases |bytes| - i
    {
      var stop;
      i, codeSig, stop := SweepOne(bytes, i, codeSig);
      if stop {
        return;
      }
    }
    UpToEnd(bytes, codeSig, i);
  }

  /**
    Each signature is the complete immediate of an instruction that dispatches on it; all of them
    if no PUSH4 is too close.
   */
  lemma {:induction false} SignaturesAreDispatched(code: Bytes, starts: seq<nat>, signature: Bytes)
    ensures signature in Signatures(code, starts) ==>
              exists k | 0 <= k < |starts| :: Dispatches(code, starts[k])
                && code[starts[k] + 1..starts[k] + 5] == signature
    ensures (forall k | 0 <= k < |starts| :: !TooClose(code, starts[k])) ==>
              forall k | 0 <= k < |starts| && Dispatches(code, starts[k]) ::
                code[starts[k] + 1..starts[k] + 5] in Signatures(code, starts)
  {
    if starts != [] {
      SignaturesAreDispatched(code, starts[1..], signature);
      assert starts == [starts[0]] + starts[1..];
      if signature in Signatures(code, starts[1..]) {
        var k :| 0 <= k < |starts[1..]| && Dispatches(code, starts[1..][k])
            && code[starts[1..][k] + 1..starts[1..][k] + 5] == signature;
        assert starts[k + 1] == starts[1..][k];
      }
    }
  }
}
