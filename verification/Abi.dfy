/**
  ABI values (src/evm/abi.rs) and their encoding. `Encode` is what `get_bytes`
  returns; `Standard` is the head and tail definition of the Formal
  Specification of the Encoding section of the Solidity Contract ABI
  Specification. They differ exactly on values with a static component that
  encodes to nothing, for which the code writes an offset word.
 */
module Abi {
  import opened Words

  /** A256, ADynamic, AArray, AEmpty and AUnknown. */
  datatype Abi =
    | Empty
    | Word(data: Bytes, isAddress: bool)
    | Dynamic(data: Bytes)
    | Array(items: seq<Abi>, dynamicSize: bool)
    | Unknown(concrete: Abi)

  function RoundUp(x: nat, multiplier: nat): nat
    requires multiplier > 0
  {
    (x + multiplier - 1) / multiplier * multiplier
  }

  /** What `set_size` writes. */
  function SizeWord(size: nat): (r: Bytes)
    ensures |r| == 32
  {
    ToBytes(size, 32)
  }

  lemma SizeWordBack(n: nat)
    requires n < TWO_256
    ensures FromBytes(SizeWord(n)) == n
  {
    Power32();
    FromToBytes(n, 32);
  }

  /**
    Words hold at most 32 bytes, `get_bytes` would write in front of its buffer
    otherwise; and the length of an array is a usize.
   */
  predicate Fits(v: Abi)
    decreases v
  {
    match v
    case Word(data, _) => |data| <= 32
    case Array(items, _) => |items| < TWO_64 && AllFit(items)
    case Unknown(concrete) => Fits(concrete)
    case _ => true
  }

  predicate AllFit(items: seq<Abi>)
    decreases items
  {
    items == [] || (Fits(items[0]) && AllFit(items[1..]))
  }

  predicate IsStatic(v: Abi)
    decreases v
  {
    match v
    case Dynamic(_) => false
    case Array(items, dynamicSize) => !dynamicSize && AllStatic(items)
    case Unknown(concrete) => IsStatic(concrete)
    case _ => true
  }

  predicate AllStatic(items: seq<Abi>)
    decreases items
  {
    items == [] || (IsStatic(items[0]) && AllStatic(items[1..]))
  }

  function EncodeDynamic(data: Bytes): Bytes {
    SizeWord(|data|) + data + Zeros(RoundUp(|data|, 32) - |data|)
  }

  // ---------------------------------------------------------------- what the code writes

  function Encode(v: Abi): Bytes
    requires Fits(v)
    decreases v, 0
  {
    match v
    case Empty => []
    case Word(data, _) => LeftPad(data, 32)
    case Dynamic(data) => EncodeDynamic(data)
    case Array(items, dynamicSize) =>
      (if dynamicSize then SizeWord(|items|) else []) + Heads(items, HeadSize(items), 0) + Tails(items)
    case Unknown(concrete) => Encode(concrete)
  }

  /** The head sizes the code adds up: nothing for a static component that encodes to nothing. */
  function HeadSize(items: seq<Abi>): nat
    requires AllFit(items)
    decreases items
  {
    if items == [] then 0 else (if IsStatic(items[0]) then |Encode(items[0])| else 32) + HeadSize(items[1..])
  }

  function Tail(v: Abi): Bytes
    requires Fits(v)
    decreases v, 1
  {
    if IsStatic(v) then [] else Encode(v)
  }

  function Tails(items: seq<Abi>): Bytes
    requires AllFit(items)
    decreases items
  {
    if items == [] then [] else Tail(items[0]) + Tails(items[1..])
  }

  /** An empty head is taken for a dynamic component's. */
  function Head(v: Abi, offset: nat): Bytes
    requires Fits(v)
    decreases v, 1
  {
    if IsStatic(v) && Encode(v) != [] then Encode(v) else SizeWord(offset)
  }

  /** The heads of `items`, the tails before them taking `before` bytes. */
  function Heads(items: seq<Abi>, headSize: nat, before: nat): Bytes
    requires AllFit(items)
    decreases items
  {
    if items == [] then []
    else Head(items[0], headSize + before) + Heads(items[1..], headSize, before + |Tail(items[0])|)
  }

  // ---------------------------------------------------------------- the standard

  function Standard(v: Abi): Bytes
    requires Fits(v)
    decreases v, 0
  {
    match v
    case Empty => []
    case Word(data, _) => LeftPad(data, 32)
    case Dynamic(data) => EncodeDynamic(data)
    case Array(items, dynamicSize) => (if dynamicSize then SizeWord(|items|) else []) + StandardTuple(items)
    case Unknown(concrete) => Standard(concrete)
  }

  function StandardTuple(items: seq<Abi>): Bytes
    requires AllFit(items)
    decreases items, 2
  {
    StandardHeads(items, 0, StandardHeadSize(items)) + StandardTails(items)
  }

  function StandardHeadSize(items: seq<Abi>): nat
    requires AllFit(items)
    decreases items, 1
  {
    if items == [] then 0 else (if IsStatic(items[0]) then |Standard(items[0])| else 32) + StandardHeadSize(items[1..])
  }

  function StandardTail(v: Abi): Bytes
    requires Fits(v)
    decreases v, 1
  {
    if IsStatic(v) then [] else Standard(v)
  }

  function StandardTails(items: seq<Abi>): Bytes
    requires AllFit(items)
    decreases items, 1
  {
    if items == [] then [] else StandardTail(items[0]) + StandardTails(items[1..])
  }

  /** A dynamic component's head is the length of all heads and of the tails before its own. */
  function StandardHeads(items: seq<Abi>, before: nat, headSize: nat): Bytes
    requires AllFit(items)
    decreases items, 1
  {
    if items == [] then []
    else
      (if IsStatic(items[0]) then Standard(items[0]) else SizeWord(headSize + before))
      + StandardHeads(items[1..], before + |StandardTail(items[0])|, headSize)
  }

  function StandardHead(v: Abi, offset: nat): Bytes
    requires Fits(v)
  {
    if IsStatic(v) then Standard(v) else SizeWord(offset)
  }

  // ---------------------------------------------------------------- code against standard

  /** How many offset words the code writes for static components that encode to nothing. */
  function Spurious(v: Abi): nat
    requires Fits(v)
    decreases v
  {
    match v
    case Array(items, _) => SpuriousIn(items)
    case Unknown(concrete) => Spurious(concrete)
    case _ => 0
  }

  function SpuriousIn(items: seq<Abi>): nat
    requires AllFit(items)
    decreases items
  {
    if items == [] then 0
    else Spurious(items[0]) + (if IsStatic(items[0]) && Encode(items[0]) == [] then 1 else 0) + SpuriousIn(items[1..])
  }

  /** What a component takes up: its head and its tail. */
  function Extent(v: Abi): nat
    requires Fits(v)
  {
    if IsStatic(v) then (if Encode(v) == [] then 32 else |Encode(v)|) else 32 + |Encode(v)|
  }

  function Extents(items: seq<Abi>): nat
    requires AllFit(items)
  {
    if items == [] then 0 else Extent(items[0]) + Extents(items[1..])
  }

  function StandardExtent(v: Abi): nat
    requires Fits(v)
  {
    if IsStatic(v) then |Standard(v)| else 32 + |Standard(v)|
  }

  function StandardExtents(items: seq<Abi>): nat
    requires AllFit(items)
  {
    if items == [] then 0 else StandardExtent(items[0]) + StandardExtents(items[1..])
  }

  lemma {:induction false} EncodeExtents(items: seq<Abi>, headSize: nat, before: nat)
    requires AllFit(items)
    ensures |Heads(items, headSize, before)| + |Tails(items)| == Extents(items)
  {
    if items != [] {
      EncodeExtents(items[1..], headSize, before + |Tail(items[0])|);
    }
  }

  lemma {:induction false} StandardHasExtents(items: seq<Abi>, before: nat, headSize: nat)
    requires AllFit(items)
    ensures |StandardHeads(items, before, headSize)| + |StandardTails(items)| == StandardExtents(items)
  {
    if items != [] {
      StandardHasExtents(items[1..], before + |StandardTail(items[0])|, headSize);
    }
  }

  lemma ArrayLength(items: seq<Abi>, dynamicSize: bool)
    requires Fits(Array(items, dynamicSize))
    ensures |Encode(Array(items, dynamicSize))| == (if dynamicSize then 32 else 0) + Extents(items)
    ensures |Standard(Array(items, dynamicSize))| == (if dynamicSize then 32 else 0) + StandardExtents(items)
  {
    EncodeExtents(items, HeadSize(items), 0);
    StandardHasExtents(items, 0, StandardHeadSize(items));
  }

  /** The code's encoding is longer than the standard's by its spurious words. */
  lemma {:induction false} EncodeLength(v: Abi)
    requires Fits(v)
    ensures |Encode(v)| == |Standard(v)| + 32 * Spurious(v)
    decreases v
  {
    match v
    case Array(items, dynamicSize) =>
      ArrayLength(items, dynamicSize);
      ExtentsLength(items);
    case Unknown(concrete) => EncodeLength(concrete);
    case _ =>
  }

  lemma {:induction false} ExtentsLength(items: seq<Abi>)
    requires AllFit(items)
    ensures Extents(items) == StandardExtents(items) + 32 * SpuriousIn(items)
    decreases items
  {
    if items != [] {
      EncodeLength(items[0]);
      ExtentsLength(items[1..]);
    }
  }

  lemma {:induction false} SameWithoutSpurious(v: Abi)
    requires Fits(v) && Spurious(v) == 0
    ensures Encode(v) == Standard(v)
    decreases v
  {
    match v
    case Array(items, _) => TupleSame(items, HeadSize(items), 0);
    case Unknown(concrete) => SameWithoutSpurious(concrete);
    case _ =>
  }

  lemma {:induction false} TupleSame(items: seq<Abi>, headSize: nat, before: nat)
    requires AllFit(items)
    requires SpuriousIn(items) == 0
    ensures Heads(items, headSize, before) == StandardHeads(items, before, headSize)
    ensures Tails(items) == StandardTails(items)
    ensures HeadSize(items) == StandardHeadSize(items)
    decreases items
  {
    if items != [] {
      SameWithoutSpurious(items[0]);
      TupleSame(items[1..], headSize, before + |Tail(items[0])|);
    }
  }

  /** `get_bytes` follows the standard exactly on values without such components. */
  lemma EncodeIsStandard(v: Abi)
    requires Fits(v)
    ensures Encode(v) == Standard(v) <==> Spurious(v) == 0
  {
    EncodeLength(v);
    if Spurious(v) == 0 {
      SameWithoutSpurious(v);
    }
  }

  /** One such value: a tuple whose only component is the empty one. */
  lemma SpuriousExample()
    ensures Encode(Array([Empty], false)) == SizeWord(0) && Standard(Array([Empty], false)) == []
  {
    var items := [Empty];
    assert items[1..] == [];
    assert HeadSize(items) == 0 && Tails(items) == [] && Heads(items, 0, 0) == SizeWord(0);
    assert StandardHeads(items, 0, 0) == [] && StandardTails(items) == [] && StandardHeadSize(items) == 0;
  }

  lemma DynamicWholeWords(data: Bytes)
    ensures |EncodeDynamic(data)| % 32 == 0
  {
    assert |EncodeDynamic(data)| == 32 + RoundUp(|data|, 32);
  }

  lemma {:induction false} WholeWords(v: Abi)
    requires Fits(v)
    ensures |Encode(v)| % 32 == 0
    decreases v
  {
    match v
    case Empty =>
    case Word(data, _) => assert |Encode(v)| == 32;
    case Dynamic(data) => DynamicWholeWords(data);
    case Array(items, dynamicSize) =>
      WholeExtents(items);
      WholeArray(items, dynamicSize);
    case Unknown(concrete) => WholeWords(concrete);
  }

  lemma WholeArray(items: seq<Abi>, dynamicSize: bool)
    requires Fits(Array(items, dynamicSize)) && Extents(items) % 32 == 0
    ensures |Encode(Array(items, dynamicSize))| % 32 == 0
  {
    ArrayLength(items, dynamicSize);
    WholeSum(if dynamicSize then 32 else 0, Extents(items));
  }

  lemma WholeSum(a: nat, b: nat)
    requires a % 32 == 0 && b % 32 == 0
    ensures (a + b) % 32 == 0
  {
  }

  lemma {:induction false} WholeExtents(items: seq<Abi>)
    requires AllFit(items)
    ensures Extents(items) % 32 == 0
    decreases items
  {
    if items != [] {
      WholeWords(items[0]);
      assert Extent(items[0]) % 32 == 0;
      WholeExtents(items[1..]);
      WholeSum(Extent(items[0]), Extents(items[1..]));
    }
  }
}
