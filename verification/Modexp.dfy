/**
  The modular exponentiation precompile (revm/crates/precompile/src/modexp.rs).
  `Modexp` says what it returns with every field read from the input extended by
  zero bytes for ever (Specification of EIP-198); the methods copy into bounded
  buffers, as the source does, and are proved to return that.
 */
module Modexp {
  import opened Words

  const U32_MAX: nat := 0xffff_ffff

  datatype Error = ModexpBaseOverflow | ModexpModOverflow | ModexpExpOverflow | OutOfGas

  datatype Schedule = Byzantium | Berlin

  // ---------------------------------------------------------------- the input without end

  function ByteAt(input: Bytes, i: nat): Byte {
    if i < |input| then input[i] else 0
  }

  function Field(input: Bytes, start: nat, length: nat): (r: Bytes)
    ensures |r| == length && forall i | 0 <= i < length :: r[i] == ByteAt(input, start + i)
  {
    seq<Byte>(length, i requires 0 <= i < length => ByteAt(input, start + i))
  }

  function Number(input: Bytes, start: nat, length: nat): nat {
    FromBytes(Field(input, start, length))
  }

  // ---------------------------------------------------------------- gas

  function BitLength(n: nat): nat {
    if n == 0 then 0 else 1 + BitLength(n / 2)
  }

  function IterationCount(expLength: nat, expHighp: nat): nat {
    var count :=
      if expLength <= 32 && expHighp == 0 then 0
      else if expLength <= 32 then BitLength(expHighp) - 1
      else 8 * (expLength - 32) + Max(1, BitLength(expHighp)) - 1;
    Max(count, 1)
  }

  function MulComplexity(x: nat): int {
    if x <= 64 then x * x
    else if x <= 1024 then x * x / 4 + 96 * x - 3072
    else x * x / 16 + 480 * x - 199680
  }

  /** A cost that does not fit 64 bits is the largest that does. */
  function Capped(gas: nat): U64 {
    if gas >= TWO_64 then U64_MAX else gas
  }

  function Words8(length: nat): nat {
    length / 8 + if length % 8 > 0 then 1 else 0
  }

  function GasCost(schedule: Schedule, baseLength: nat, expLength: nat, modLength: nat, expHighp: nat): U64 {
    var iterations := IterationCount(expLength, expHighp);
    var length := Max(baseLength, modLength);
    match schedule
    case Byzantium =>
      ComplexityPositive(length);
      ProductNonNegative(MulComplexity(length), iterations);
      Capped(MulComplexity(length) * iterations / 20)
    case Berlin =>
      var words := Words8(length);
      ProductNonNegative(words, words);
      ProductNonNegative(words * words, iterations);
      Max(200, Capped(words * words * iterations / 3))
  }

  function MinGas(schedule: Schedule): U64 {
    match schedule
    case Byzantium => 0
    case Berlin => 200
  }

  // ---------------------------------------------------------------- the result

  function PowerMod(base: nat, exponent: nat, modulus: nat): nat {
    if modulus <= 1 then 0 else Power(base, exponent) % modulus
  }

  function Modexp(input: Bytes, gasLimit: U64, schedule: Schedule): Result<(U64, Bytes), Error> {
    var baseLength, expLength, modLength := Number(input, 0, 32), Number(input, 32, 32), Number(input, 64, 32);
    if baseLength >= U32_MAX || modLength >= U32_MAX then Err(ModexpBaseOverflow)
    else ModexpOfLengths(input, gasLimit, schedule, baseLength, expLength, modLength)
  }

  function ModexpOfLengths(input: Bytes, gasLimit: U64, schedule: Schedule, baseLength: nat, expLength: nat,
                           modLength: nat): Result<(U64, Bytes), Error> {
    if baseLength == 0 && modLength == 0 then Ok((MinGas(schedule), []))
    else if expLength >= U32_MAX then Err(ModexpExpOverflow)
    else
      var gas := GasCost(schedule, baseLength, expLength, modLength,
                         Number(input, 96 + baseLength, Min(32, expLength)));
      if gas > gasLimit then Err(OutOfGas)
      else
        var base := Number(input, 96, baseLength);
        var exponent := Number(input, 96 + baseLength, expLength);
        var modulus := Number(input, 96 + baseLength + expLength, modLength);
        Ok((gas, ToBytes(PowerMod(base, exponent, modulus), modLength)))
  }

  // ---------------------------------------------------------------- numbers and bytes

  lemma {:induction false} FromBytesConcat(a: Bytes, b: Bytes)
    ensures FromBytes(a + b) == FromBytes(a) * Power(256, |b|) + FromBytes(b)
    decreases |b|
  {
    if b == [] {
      assert a + b == a;
    } else {
      var n := |b| - 1;
      FromBytesConcat(a, b[..n]);
      assert (a + b)[..|a + b| - 1] == a + b[..n];
      Associate(FromBytes(a), Power(256, n), 256);
    }
  }

  lemma {:induction false} FromBytesZeros(n: nat)
    ensures FromBytes(Zeros(n)) == 0
  {
    if n > 0 {
      assert Zeros(n)[..n - 1] == Zeros(n - 1);
      FromBytesZeros(n - 1);
    }
  }

  predicate AllZero(bytes: Bytes) {
    forall i | 0 <= i < |bytes| :: bytes[i] == 0
  }

  lemma {:induction false} ZeroBytes(bytes: Bytes)
    ensures FromBytes(bytes) == 0 <==> AllZero(bytes)
  {
    if bytes != [] {
      ZeroBytes(bytes[..|bytes| - 1]);
    }
  }

  /** The shortest bytes that write `n`; one byte for zero. */
  function ToBytesBe(n: nat): Bytes {
    if n < 256 then [n] else ToBytesBe(n / 256) + [n % 256]
  }

  lemma {:induction false} PaddedBytes(n: nat, length: nat)
    requires length > 0 && n < Power(256, length)
    ensures |ToBytesBe(n)| <= length && LeftPad(ToBytesBe(n), length) == ToBytes(n, length)
    decreases length
  {
    if n < 256 {
      ZeroToBytes(length - 1);
      assert ToBytes(n, length) == ToBytes(0, length - 1) + [n];
    } else {
      PaddedBytes(n / 256, length - 1);
      assert LeftPad(ToBytesBe(n), length) == LeftPad(ToBytesBe(n / 256), length - 1) + [n % 256];
    }
  }

  lemma {:induction false} ZeroToBytes(length: nat)
    ensures ToBytes(0, length) == Zeros(length)
  {
    if length > 0 {
      ZeroToBytes(length - 1);
    }
  }

  // ---------------------------------------------------------------- the buffers

  method ReadInto(buffer: array<Byte>, at: nat, input: Bytes, start: nat, end: nat)
    requires start <= end && at + (end - start) <= buffer.Length
    requires AllZero(buffer[..])
    modifies buffer
    ensures buffer[..] == Zeros(at) + Field(input, start, end - start) + Zeros(buffer.Length - at - (end - start))
  {
    var from, to := Min(start, |input|), Min(end, |input|);
    for i := 0 to to - from
      invariant forall j | at <= j < at + i :: buffer[j] == input[from + (j - at)]
      invariant forall j | 0 <= j < buffer.Length && !(at <= j < at + i) :: buffer[j] == 0
    {
      buffer[at + i] := input[from + i];
    }
    var size := end - start;
    assert buffer[..at] == Zeros(at);
    assert buffer[at..at + size] == Field(input, start, size);
    assert buffer[at + size..] == Zeros(buffer.Length - at - size);
    assert buffer[..] == buffer[..at] + buffer[at..at + size] + buffer[at + size..];
  }

  /** `read_big`. */
  method ReadBig(input: Bytes, from: nat, to: nat) returns (n: nat)
    requires from <= to
    ensures n == Number(input, from, to - from)
  {
    var out := new Byte[to - from](_ => 0);
    ReadInto(out, 0, input, from, to);
    assert out[..] == Field(input, from, to - from);
    n := FromBytes(out[..]);
  }

  /** The macro read_u64_with_overflow with the limit `u32::MAX`: exact, unless the word reaches the limit. */
  method ReadU64WithOverflow(input: Bytes, start: nat) returns (out: nat, overflow: bool)
    ensures overflow <==> Number(input, start, 32) >= U32_MAX
    ensures !overflow ==> out == Number(input, start, 32)
  {
    var fromZero := Min(start, |input|);
    var from := Min(fromZero + 24, |input|);
    var overflowBytes := input[fromZero..from];
    var lenBytes := new Byte[8](_ => 0);
    ReadInto(lenBytes, 0, input, start + 24, start + 32);
    out := FromBytes(lenBytes[..]);
    assert lenBytes[..] == Field(input, start + 24, 8);
    overflow := !(out < U32_MAX && AllZero(overflowBytes));
    SplitWord(input, start);
    HighBytes(input, start);
  }

  /** The bytes of the input that decide an overflow stand for the whole high part of the word. */
  lemma HighBytes(input: Bytes, start: nat)
    ensures var from := Min(start, |input|);
            AllZero(input[from..Min(from + 24, |input|)]) <==> AllZero(Field(input, start, 24))
  {
    var from := Min(start, |input|);
    var bytes := input[from..Min(from + 24, |input|)];
    var field := Field(input, start, 24);
    assert forall i | 0 <= i < |bytes| :: field[i] == bytes[i];
    assert forall i | |bytes| <= i < 24 :: field[i] == 0;
  }

  lemma SplitWord(input: Bytes, start: nat)
    ensures Number(input, start, 32) >= U32_MAX
            <==> Number(input, start + 24, 8) >= U32_MAX || !AllZero(Field(input, start, 24))
    ensures AllZero(Field(input, start, 24)) ==> Number(input, start, 32) == Number(input, start + 24, 8)
  {
    var high, low := Field(input, start, 24), Field(input, start + 24, 8);
    assert Field(input, start, 32) == high + low;
    FromBytesConcat(high, low);
    ZeroBytes(high);
    assert Power(256, 4) == 0x1_0000_0000;
    PowerSum(256, 4, 4);
    if FromBytes(high) > 0 {
      AtLeastOnce(FromBytes(high), Power(256, 8));
    }
  }

  /** The first 32 bytes of the exponent, right-aligned in a buffer of 32. */
  method ReadExpHighp(input: Bytes, baseEnd: nat, expLen: nat) returns (n: nat)
    ensures n == Number(input, baseEnd, Min(32, expLen))
  {
    var size := Min(32, expLen);
    var out := new Byte[32](_ => 0);
    ReadInto(out, 32 - size, input, baseEnd, baseEnd + size);
    assert out[..] == Zeros(32 - size) + Field(input, baseEnd, size);
    FromBytesConcat(Zeros(32 - size), Field(input, baseEnd, size));
    FromBytesZeros(32 - size);
    n := FromBytes(out[..]);
  }

  /** The count for the exponent `exponent`, of which only the length and the leading number are given. */
  method CalculateIterationCount(expLength: nat, expHighp: nat, ghost exponent: Bytes) returns (iterationCount: nat)
    requires |exponent| == expLength && FromBytes(exponent[..Min(32, expLength)]) == expHighp
    ensures iterationCount == IterationCount(expLength, expHighp)
    ensures iterationCount >= BitLength(FromBytes(exponent)) - 1
    ensures iterationCount == Max(1, BitLength(FromBytes(exponent)) - 1) <==> !(expLength > 32 && expHighp == 0)
  {
    IterationsCoverExponent(exponent);
    iterationCount := 0;
    if expLength <= 32 && expHighp == 0 {
      iterationCount := 0;
    } else if expLength <= 32 {
      iterationCount := BitLength(expHighp) - 1;
    } else if expLength > 32 {
      iterationCount := 8 * (expLength - 32) + Max(1, BitLength(expHighp)) - 1;
    }
    iterationCount := Max(iterationCount, 1);
  }

  /** `byzantium_gas_calc`: unless it is capped, the gas pays for every bit of the exponent but the first. */
  method ByzantiumGasCalc(baseLen: nat, expLen: nat, modLen: nat, expHighp: nat, ghost exponent: Bytes)
      returns (gas: U64)
    requires |exponent| == expLen && FromBytes(exponent[..Min(32, expLen)]) == expHighp
    ensures gas == GasCost(Byzantium, baseLen, expLen, modLen, expHighp)
    ensures var mul := MulComplexity(Max(baseLen, modLen));
            gas == U64_MAX || 20 * (gas + 1) > mul * (BitLength(FromBytes(exponent)) - 1)
  {
    var mul := MulComplexity(Max(modLen, baseLen));
    ComplexityPositive(Max(modLen, baseLen));
    var iterCount := CalculateIterationCount(expLen, expHighp, exponent);
    ProductNonNegative(mul, iterCount);
    gas := Capped(mul * iterCount / 20);
    ProductMonotone(mul, BitLength(FromBytes(exponent)) - 1, iterCount);
  }

  /** `berlin_gas_calc`, likewise. */
  method BerlinGasCalc(baseLen: nat, expLen: nat, modLen: nat, expHighp: nat, ghost exponent: Bytes) returns (gas: U64)
    requires |exponent| == expLen && FromBytes(exponent[..Min(32, expLen)]) == expHighp
    ensures gas == GasCost(Berlin, baseLen, expLen, modLen, expHighp)
    ensures var words := Words8(Max(baseLen, modLen));
            gas == U64_MAX || 3 * (gas + 1) > words * words * (BitLength(FromBytes(exponent)) - 1)
  {
    var words := Words8(Max(baseLen, modLen));
    var iterationCount := CalculateIterationCount(expLen, expHighp, exponent);
    ProductNonNegative(words, words);
    ProductNonNegative(words * words, iterationCount);
    gas := Max(200, Capped(words * words * iterationCount / 3));
    ProductMonotone(words * words, BitLength(FromBytes(exponent)) - 1, iterationCount);
  }

  lemma ProductMonotone(a: nat, m: int, n: nat)
    requires m <= n
    ensures a * m <= a * n
  {
    Distribute(n, m, a);
    ProductNonNegative(n - m, a);
  }

  /** The leading number of a field of the input. */
  lemma LeadingNumber(input: Bytes, start: nat, length: nat)
    ensures FromBytes(Field(input, start, length)[..Min(32, length)]) == Number(input, start, Min(32, length))
  {
    assert Field(input, start, length)[..Min(32, length)] == Field(input, start, Min(32, length));
  }

  /** The gas of the schedule. */
  method CalcGas(input: Bytes, schedule: Schedule, baseLen: nat, expLen: nat, modLen: nat) returns (gas: U64)
    ensures gas == GasCost(schedule, baseLen, expLen, modLen, Number(input, 96 + baseLen, Min(32, expLen)))
  {
    var expHighp := ReadExpHighp(input, 96 + baseLen, expLen);
    LeadingNumber(input, 96 + baseLen, expLen);
    ghost var exponent := Field(input, 96 + baseLen, expLen);
    if schedule == Byzantium {
      gas := ByzantiumGasCalc(baseLen, expLen, modLen, expHighp, exponent);
    } else {
      gas := BerlinGasCalc(baseLen, expLen, modLen, expHighp, exponent);
    }
  }

  /** The middle of `run_inner`: the three numbers are read and the power is taken. */
  method ReadPower(input: Bytes, baseEnd: nat, expEnd: nat, modLen: nat) returns (result: nat)
    requires 96 <= baseEnd <= expEnd
    ensures result == PowerMod(Number(input, 96, baseEnd - 96), Number(input, baseEnd, expEnd - baseEnd),
                               Number(input, expEnd, modLen))
    ensures result < Power(256, modLen)
  {
    var base := ReadBig(input, 96, baseEnd);
    var exponent := ReadBig(input, baseEnd, expEnd);
    var modulus := ReadBig(input, expEnd, expEnd + modLen);
    result := 0;
    if modulus != 0 && modulus != 1 {
      result := Power(base, exponent) % modulus;
    }
    ModulusBound(input, expEnd, modLen, result);
  }

  /** `run_inner`. */
  method RunInner(input: Bytes, gasLimit: U64, schedule: Schedule) returns (r: Result<(U64, Bytes), Error>)
    ensures r == Modexp(input, gasLimit, schedule)
    ensures r.Ok? ==> |r.value.1| == Number(input, 64, 32)
    ensures r != Err(ModexpModOverflow)
  {
    var baseLen, baseOverflow := ReadU64WithOverflow(input, 0);
    var expLen, expOverflow := ReadU64WithOverflow(input, 32);
    var modLen, modOverflow := ReadU64WithOverflow(input, 64);
    if baseOverflow || modOverflow {
      return Err(ModexpBaseOverflow);
    }
    if modOverflow {
      return Err(ModexpModOverflow);
    }
    r := RunOfLengths(input, gasLimit, schedule, baseLen, expLen, expOverflow, modLen);
  }

  /** `run_inner` once base and modulus are of a possible length. */
  method RunOfLengths(input: Bytes, gasLimit: U64, schedule: Schedule, baseLen: nat, expLen: nat, expOverflow: bool,
                      modLen: nat) returns (r: Result<(U64, Bytes), Error>)
    requires baseLen < U32_MAX && modLen < U32_MAX
    requires expOverflow == (Number(input, 32, 32) >= U32_MAX) && (!expOverflow ==> expLen == Number(input, 32, 32))
    ensures r == ModexpOfLengths(input, gasLimit, schedule, baseLen, Number(input, 32, 32), modLen)
    ensures r.Ok? ==> |r.value.1| == modLen
    ensures r != Err(ModexpModOverflow)
  {
    if baseLen == 0 && modLen == 0 {
      return Ok((MinGas(schedule), []));
    }
    if expOverflow {
      return Err(ModexpExpOverflow);
    }
    var baseEnd := 96 + baseLen;
    var expEnd := baseEnd + expLen;
    var gasCost := CalcGas(input, schedule, baseLen, expLen, modLen);
    if gasCost > gasLimit {
      return Err(OutOfGas);
    }
    var result := ReadPower(input, baseEnd, expEnd, modLen);
    var bytes := WriteResult(result, modLen);
    r := Ok((gasCost, bytes));
  }

  lemma ModulusBound(input: Bytes, start: nat, length: nat, result: nat)
    requires var modulus := Number(input, start, length); result < modulus || result == 0
    ensures result < Power(256, length)
  {
    ToFromBytes(Field(input, start, length));
  }

  /** The end of `run_inner`: the bytes are too many only when there should be none. */
  method WriteResult(result: nat, modLen: nat) returns (bytes: Bytes)
    requires result < Power(256, modLen)
    ensures bytes == ToBytes(result, modLen)
  {
    bytes := ToBytesBe(result);
    if modLen > 0 {
      PaddedBytes(result, modLen);
    }
    if |bytes| == modLen {
      assert LeftPad(bytes, modLen) == bytes;
    } else if |bytes| < modLen {
      bytes := Zeros(modLen - |bytes|) + bytes;
    } else {
      assert modLen == 0;
      bytes := [];
    }
  }

  lemma OutputOfLengths(input: Bytes, gasLimit: U64, schedule: Schedule, baseLength: nat, expLength: nat,
                        modLength: nat)
    requires ModexpOfLengths(input, gasLimit, schedule, baseLength, expLength, modLength).Ok?
    ensures var output := ModexpOfLengths(input, gasLimit, schedule, baseLength, expLength, modLength).value.1;
            && |output| == modLength
            && FromBytes(output) == (if baseLength == 0 && modLength == 0 then 0
                                     else PowerMod(Number(input, 96, baseLength),
                                                   Number(input, 96 + baseLength, expLength),
                                                   Number(input, 96 + baseLength + expLength, modLength)))
  {
    if baseLength != 0 || modLength != 0 {
      var modulus := Number(input, 96 + baseLength + expLength, modLength);
      var result := PowerMod(Number(input, 96, baseLength), Number(input, 96 + baseLength, expLength), modulus);
      ModulusBound(input, 96 + baseLength + expLength, modLength, result);
      FromToBytes(result, modLength);
    }
  }

  /** On success the output has `modLength` bytes that write the power; for modulus 0 or 1 they are zero. */
  lemma OutputIsPower(input: Bytes, gasLimit: U64, schedule: Schedule)
    requires Modexp(input, gasLimit, schedule).Ok?
    ensures var baseLength, expLength, modLength := Number(input, 0, 32), Number(input, 32, 32), Number(input, 64, 32);
            var output := Modexp(input, gasLimit, schedule).value.1;
            && |output| == modLength
            && FromBytes(output) == (if baseLength == 0 && modLength == 0 then 0
                                     else PowerMod(Number(input, 96, baseLength),
                                                   Number(input, 96 + baseLength, expLength),
                                                   Number(input, 96 + baseLength + expLength, modLength)))
  {
    OutputOfLengths(input, gasLimit, schedule, Number(input, 0, 32), Number(input, 32, 32), Number(input, 64, 32));
  }

  /** Twenty units of work cost one unit of gas before Berlin, three from then on and at least 200; both are capped. */
  lemma CostIsExact(baseLength: nat, expLength: nat, modLength: nat, expHighp: nat)
    ensures var gas := GasCost(Byzantium, baseLength, expLength, modLength, expHighp);
            var work := MulComplexity(Max(baseLength, modLength)) * IterationCount(expLength, expHighp);
            20 * gas <= work < 20 * gas + 20 || (gas == U64_MAX && 20 * TWO_64 <= work)
    ensures var gas := GasCost(Berlin, baseLength, expLength, modLength, expHighp);
            var words := (Max(baseLength, modLength) + 7) / 8;
            var work := words * words * IterationCount(expLength, expHighp);
            || (200 <= gas && 3 * gas <= work < 3 * gas + 3)
            || (gas == 200 && work < 3 * 200)
            || (gas == U64_MAX && 3 * TWO_64 <= work)
  {
    var length, count := Max(baseLength, modLength), IterationCount(expLength, expHighp);
    assert Words8(length) == (length + 7) / 8;
    ComplexityPositive(length);
    QuotientOf(MulComplexity(length) * count, 20);
    QuotientOf(Words8(length) * Words8(length) * count, 3);
  }

  lemma QuotientOf(work: int, unit: nat)
    requires unit > 0
    ensures unit * (work / unit) <= work < unit * (work / unit) + unit
  {
  }

  /** Which inputs are refused and why; what is charged is never more than the limit, unless there is nothing to do. */
  lemma EndsAs(input: Bytes, gasLimit: U64, schedule: Schedule)
    ensures var baseLength, expLength, modLength := Number(input, 0, 32), Number(input, 32, 32), Number(input, 64, 32);
            var cost := GasCost(schedule, baseLength, expLength, modLength,
                                Number(input, 96 + baseLength, Min(32, expLength)));
            var r := Modexp(input, gasLimit, schedule);
            && (r == Err(ModexpBaseOverflow) <==> Max(baseLength, modLength) >= U32_MAX)
            && (r == Err(ModexpExpOverflow)
                <==> 0 < Max(baseLength, modLength) < U32_MAX && expLength >= U32_MAX)
            && (r == Err(OutOfGas)
                <==> 0 < Max(baseLength, modLength) < U32_MAX && expLength < U32_MAX && gasLimit < cost)
            && (r.Ok? ==>
                  if Max(baseLength, modLength) == 0 then r.value.0 == MinGas(schedule)
                  else r.value.0 == cost <= gasLimit)
            && (r.Err? ==> r.error in {ModexpBaseOverflow, ModexpExpOverflow, OutOfGas})
  {
  }

  // ---------------------------------------------------------------- gas never undercounts

  lemma ComplexityPositive(x: nat)
    ensures MulComplexity(x) >= 0
  {
    if x > 1024 {
      assert 480 * x >= 199680;
    }
  }

  /** The three pieces join into one monotone function. */
  lemma ComplexityMonotone(x: nat, y: nat)
    requires x <= y
    ensures MulComplexity(x) <= MulComplexity(y)
  {
    SquareMonotone(x, y);
    if x <= 64 < y {
      SquareMonotone(x, 64);
      SquareMonotone(65, y);
    }
    if x <= 1024 < y {
      SquareMonotone(x, 1024);
      SquareMonotone(1025, y);
    }
  }

  lemma SquareMonotone(x: nat, y: nat)
    requires x <= y
    ensures x * x <= y * y
  {
  }

  lemma BitLengthOfByte(n: nat, byte: Byte)
    ensures n > 0 ==> BitLength(n * 256 + byte) == BitLength(n) + 8
    ensures n == 0 ==> BitLength(n * 256 + byte) <= 8
  {
    var m := n * 256 + byte;
    Halve(m, 0);
    Halve(m / 2, 1);
    Halve(m / 2 / 2, 2);
    Halve(m / 2 / 2 / 2, 3);
    Halve(m / 2 / 2 / 2 / 2, 4);
    Halve(m / 2 / 2 / 2 / 2 / 2, 5);
    Halve(m / 2 / 2 / 2 / 2 / 2 / 2, 6);
    Halve(m / 2 / 2 / 2 / 2 / 2 / 2 / 2, 7);
    assert m / 2 / 2 / 2 / 2 / 2 / 2 / 2 / 2 == n;
  }

  lemma Halve(m: nat, k: nat)
    ensures BitLength(m) <= 1 + BitLength(m / 2)
    ensures m > 0 ==> BitLength(m) == 1 + BitLength(m / 2)
  {
  }

  lemma LastByte(head: Bytes, tail: Bytes)
    requires tail != []
    ensures FromBytes(head + tail) == FromBytes(head + tail[..|tail| - 1]) * 256 + tail[|tail| - 1]
  {
    assert (head + tail)[..|head + tail| - 1] == head + tail[..|tail| - 1];
  }

  /** The bits of a number written by leading bytes and others. */
  lemma {:induction false} BitsOfBytes(head: Bytes, tail: Bytes)
    ensures FromBytes(head) > 0 ==>
              FromBytes(head + tail) > 0 && BitLength(FromBytes(head + tail)) == BitLength(FromBytes(head)) + 8 * |tail|
    ensures FromBytes(head) == 0 ==> BitLength(FromBytes(head + tail)) <= 8 * |tail|
    decreases |tail|
  {
    if tail == [] {
      assert head + tail == head;
    } else {
      var n := |tail| - 1;
      BitsOfBytes(head, tail[..n]);
      LastByte(head, tail);
      BitLengthOfByte(FromBytes(head + tail[..n]), tail[n]);
    }
  }

  /** The iteration count covers the exponent, and is exact unless 32 leading bytes of a longer exponent are zero. */
  lemma IterationsCoverExponent(exponent: Bytes)
    ensures var highp := FromBytes(exponent[..Min(32, |exponent|)]);
            var count := IterationCount(|exponent|, highp);
            var bits := BitLength(FromBytes(exponent));
            && count >= bits - 1
            && (count == Max(1, bits - 1) <==> !(|exponent| > 32 && highp == 0))
  {
    var n := Min(32, |exponent|);
    var head, tail := exponent[..n], exponent[n..];
    assert exponent == head + tail;
    BitsOfBytes(head, tail);
    if FromBytes(head) > 0 {
      assert BitLength(FromBytes(head)) > 0;
    }
  }

  /** Each step of `mul_complexity`: in 64 bits up to 1024, in 256 bits above. */
  ghost predicate ComplexityStepsFit(x: nat) {
    && (x <= 64 ==> 0 <= x * x < TWO_64)
    && (64 < x <= 1024 ==> 0 <= x * x < TWO_64 && 96 * x < TWO_64 && 3072 <= x * x / 4 + 96 * x < TWO_64)
    && (x > 1024 ==> 0 <= x * x < TWO_256 && 480 * x < TWO_256 && 199680 <= x * x / 16 + 480 * x < TWO_256)
  }

  /** Each step of `calculate_iteration_count`, in 64 bits. */
  ghost predicate CountStepsFit(expLength: nat, expHighp: nat) {
    && (expLength <= 32 && expHighp != 0 ==> 1 <= BitLength(expHighp) < TWO_64)
    && (expLength > 32 ==>
          && 8 * (expLength - 32) < TWO_64
          && 1 <= 8 * (expLength - 32) + Max(1, BitLength(expHighp)) < TWO_64)
  }

  lemma ComplexityFits(x: nat)
    requires x <= 0xffff_ffff
    ensures ComplexityStepsFit(x)
  {
    SquareMonotone(x, 0xffff_ffff);
    if x > 64 {
      SquareMonotone(65, x);
    }
    if x > 1024 {
      SquareMonotone(1025, x);
    }
  }

  lemma CountFits(expLength: nat, expHighp: U256)
    requires expLength < U32_MAX
    ensures CountStepsFit(expLength, expHighp) && IterationCount(expLength, expHighp) < 0x10_0000_0000
  {
    BitLengthOfWord(expHighp);
  }

  /** No step of the 64-bit and 256-bit arithmetic leaves its range, whatever lengths come from the input. */
  lemma GasArithmeticFits(baseLength: nat, expLength: nat, modLength: nat, expHighp: U256)
    requires baseLength < U32_MAX && expLength < U32_MAX && modLength < U32_MAX
    ensures ComplexityStepsFit(Max(baseLength, modLength)) && CountStepsFit(expLength, expHighp)
    ensures var gas := MulComplexity(Max(baseLength, modLength)) * IterationCount(expLength, expHighp);
            0 <= gas < TWO_256
    ensures var words := Words8(Max(baseLength, modLength));
            words < TWO_64 && 0 <= words * words < TWO_256
            && 0 <= words * words * IterationCount(expLength, expHighp) < TWO_256
  {
    var x, count := Max(baseLength, modLength), IterationCount(expLength, expHighp);
    ComplexityFits(x);
    CountFits(expLength, expHighp);
    ComplexityPositive(x);
    SquareMonotone(x, 0xffff_ffff);
    BoundedProduct(MulComplexity(x), count, TWO_64, 0x10_0000_0000);
    var words := Words8(x);
    SquareMonotone(words, 0x2000_0000);
    BoundedProduct(words * words, count, TWO_64, 0x10_0000_0000);
  }

  lemma BoundedProduct(a: nat, b: nat, m: nat, n: nat)
    requires a < m && b < n
    ensures 0 <= a * b <= m * n
  {
    assert a * b <= m * b;
    assert m * b <= m * n;
  }

  lemma {:induction false} BitLengthBelow(n: nat, k: nat)
    requires n < Power(2, k)
    ensures BitLength(n) <= k
    decreases k
  {
    if k > 0 && n > 0 {
      BitLengthBelow(n / 2, k - 1);
    }
  }

  lemma BitLengthOfWord(n: U256)
    ensures BitLength(n) <= 256
  {
    TwoTo256();
    BitLengthBelow(n, 256);
  }

  lemma TwoTo256()
    ensures Power(2, 256) == TWO_256
  {
    assert Power(2, 4) == 16;
    PowerSum(2, 4, 4);
    assert Power(2, 8) == 256;
    PowerSum(2, 8, 8);
    assert Power(2, 16) == 0x1_0000;
    PowerSum(2, 16, 16);
    assert Power(2, 32) == 0x1_0000_0000;
    PowerSum(2, 32, 32);
    PowerSum(2, 64, 64);
    PowerSum(2, 128, 128);
  }
}
