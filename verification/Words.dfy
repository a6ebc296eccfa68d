/**
  Machine words of the EVM and of the Rust code around it, and the two small
  result types used across the project.
 */
module Words {
  const TWO_64: int := 0x1_0000_0000_0000_0000
  const TWO_160: int := 0x1_00000000_00000000_00000000_00000000_00000000
  const TWO_256: int := 0x1_0000000000000000_0000000000000000_0000000000000000_0000000000000000

  type U64 = x: int | 0 <= x < TWO_64
  type U256 = x: int | 0 <= x < TWO_256
  /** A B160. */
  type Address = x: int | 0 <= x < TWO_160
  /** A B256, used for code hashes. */
  type B256 = x: int | 0 <= x < TWO_256
  type Byte = x: int | 0 <= x < 256
  type Bytes = seq<Byte>

  const U64_MAX: U64 := TWO_64 - 1

  /** A number in a usize or u64, wrapped. */
  function Low64(n: int): (r: U64)
    ensures 0 <= n < TWO_64 ==> r == n
  {
    n % 0x1_0000_0000_0000_0000
  }

  datatype Option<+T> = None | Some(value: T) {
    predicate IsFailure() { None? }
    function PropagateFailure<U>(): Option<U>
      requires None?
    {
      None
    }
    function Extract(): T
      requires Some?
    {
      value
    }
  }

  datatype Result<+T, +E> = Ok(value: T) | Err(error: E)

  function Min(a: int, b: int): int {
    if a <= b then a else b
  }

  function Max(a: int, b: int): int {
    if a <= b then b else a
  }

  /** The compound assignment `+=` on a U256, which wraps. */
  function WrappingAdd(a: U256, b: U256): U256 {
    if a + b < TWO_256 then a + b else a + b - TWO_256
  }

  /** The compound assignment `-=` on a U256, which wraps. */
  function WrappingSub(a: U256, b: U256): U256 {
    if b <= a then a - b else a - b + TWO_256
  }

  function SaturatingAdd(a: U256, b: U256): U256 {
    if a + b < TWO_256 then a + b else TWO_256 - 1
  }

  function SaturatingSub(a: U256, b: U256): U256 {
    if b <= a then a - b else 0
  }

  function SaturatingMul(a: U256, b: U256): U256 {
    ProductNonNegative(a, b);
    if a * b < TWO_256 then a * b else TWO_256 - 1
  }

  lemma ProductNonNegative(a: nat, b: nat)
    ensures 0 <= a * b
  {
  }

  predicate WindowAt<T(==)>(items: seq<T>, window: seq<T>, i: nat) {
    i + |window| <= |items| && items[i..i + |window|] == window
  }

  /** `window` stands somewhere in `items`. */
  predicate HasWindow<T(==)>(items: seq<T>, window: seq<T>) {
    exists i | 0 <= i <= |items| :: WindowAt(items, window, i)
  }

  /** How the services that name DApps say that they do not know one. */
  predicate SaysUnknown(dapp: string) {
    HasWindow(dapp, "unknown")
  }

  /** The low bytes of `n`, big-endian. */
  function ToBytes(n: nat, length: nat): (bytes: Bytes)
    ensures |bytes| == length
  {
    if length == 0 then [] else ToBytes(n / 256, length - 1) + [n % 256]
  }

  /** The number that `bytes` write big-endian. */
  function FromBytes(bytes: Bytes): nat {
    if bytes == [] then 0 else FromBytes(bytes[..|bytes| - 1]) * 256 + bytes[|bytes| - 1]
  }

  function Power(base: nat, exponent: nat): nat {
    if exponent == 0 then 1 else base * Power(base, exponent - 1)
  }

  lemma {:induction false} FromToBytes(n: nat, length: nat)
    requires n < Power(256, length)
    ensures FromBytes(ToBytes(n, length)) == n
  {
    if length > 0 {
      FromToBytes(n / 256, length - 1);
    }
  }

  lemma {:induction false} ToFromBytes(bytes: Bytes)
    ensures FromBytes(bytes) < Power(256, |bytes|)
    ensures ToBytes(FromBytes(bytes), |bytes|) == bytes
  {
    if bytes != [] {
      var n := |bytes| - 1;
      ToFromBytes(bytes[..n]);
      assert bytes == bytes[..n] + [bytes[n]];
    }
  }

  lemma Power32()
    ensures Power(256, 32) == TWO_256
  {
    assert Power(256, 4) == 0x1_0000_0000;
    PowerSum(256, 4, 4);
    PowerSum(256, 8, 8);
    PowerSum(256, 16, 16);
  }

  lemma Associate(a: nat, b: nat, c: nat)
    ensures a * (b * c) == a * b * c
  {
  }

  lemma AssociateSeqs<T>(a: seq<T>, b: seq<T>, c: seq<T>)
    ensures (a + b) + c == a + (b + c)
  {
  }

  lemma {:induction false} PowerSum(base: nat, m: nat, n: nat)
    ensures Power(base, m + n) == Power(base, m) * Power(base, n)
  {
    if m > 0 {
      PowerSum(base, m - 1, n);
      Associate(base, Power(base, m - 1), Power(base, n));
    }
  }

  function Zeros(length: nat): (bytes: Bytes)
    ensures |bytes| == length
  {
    seq(length, _ => 0)
  }

  /** `bytes` with zeros on the left, in `length` bytes. */
  function LeftPad(bytes: Bytes, length: nat): (r: Bytes)
    requires |bytes| <= length
    ensures |r| == length
  {
    Zeros(length - |bytes|) + bytes
  }

  lemma Distribute(a: int, b: int, m: int)
    ensures (a - b) * m == a * m - b * m && (a + b) * m == a * m + b * m
  {
  }

  lemma {:induction false} AtLeastOnce(k: nat, m: nat)
    requires k > 0
    ensures k * m >= m
  {
    if k > 1 {
      AtLeastOnce(k - 1, m);
      Distribute(k, 1, m);
    }
  }
}
