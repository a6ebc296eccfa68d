/**
  A reader of encoded values that knows only the type: it follows offset and
  length words. It recovers every value from its standard encoding, so equal
  bytes of one type mean equal words and strings.
 */
module AbiReader {
  import opened Words
  import opened Abi

  datatype Type =
    | EmptyType
    | WordType
    | BytesType
    | TupleType(types: seq<Type>)
    | ListType(element: Type)

  /** What a value says, its padding filled in. */
  datatype Value = VEmpty | VWord(word: Bytes) | VBytes(bytes: Bytes) | VSeq(values: seq<Value>)

  predicate HasType(v: Abi, t: Type)
    decreases v
  {
    match v
    case Empty => t.EmptyType?
    case Word(_, _) => t.WordType?
    case Dynamic(_) => t.BytesType?
    case Array(items, true) => t.ListType? && AllHaveType(items, t.element)
    case Array(items, false) => t.TupleType? && HaveTypes(items, t.types)
    case Unknown(concrete) => HasType(concrete, t)
  }

  predicate AllHaveType(items: seq<Abi>, t: Type)
    decreases items
  {
    items == [] || (HasType(items[0], t) && AllHaveType(items[1..], t))
  }

  predicate HaveTypes(items: seq<Abi>, types: seq<Type>)
    decreases items
  {
    |items| == |types| && (items != [] ==> HasType(items[0], types[0]) && HaveTypes(items[1..], types[1..]))
  }

  function Content(v: Abi): Value
    requires Fits(v)
    decreases v
  {
    match v
    case Empty => VEmpty
    case Word(data, _) => VWord(LeftPad(data, 32))
    case Dynamic(data) => VBytes(data)
    case Array(items, _) => VSeq(Contents(items))
    case Unknown(concrete) => Content(concrete)
  }

  function Contents(items: seq<Abi>): seq<Value>
    requires AllFit(items)
    decreases items
  {
    if items == [] then [] else [Content(items[0])] + Contents(items[1..])
  }

  predicate StaticType(t: Type)
    decreases t
  {
    match t
    case TupleType(types) => AllStaticTypes(types)
    case BytesType => false
    case ListType(_) => false
    case _ => true
  }

  predicate AllStaticTypes(types: seq<Type>)
    decreases types
  {
    types == [] || (StaticType(types[0]) && AllStaticTypes(types[1..]))
  }

  function StaticSize(t: Type): nat
    decreases t
  {
    match t
    case WordType => 32
    case TupleType(types) => StaticSizes(types)
    case _ => 0
  }

  function StaticSizes(types: seq<Type>): nat
    decreases types
  {
    if types == [] then 0 else StaticSize(types[0]) + StaticSizes(types[1..])
  }

  // ---------------------------------------------------------------- the reader

  /** The value of type `t` that starts `b`. */
  function Decode(t: Type, b: Bytes): Option<Value>
    decreases t, 0
  {
    match t
    case EmptyType => Some(VEmpty)
    case WordType => if |b| < 32 then None else Some(VWord(b[..32]))
    case BytesType =>
      if |b| < 32 || |b| < 32 + FromBytes(b[..32]) then None else Some(VBytes(b[32..32 + FromBytes(b[..32])]))
    case TupleType(types) =>
      var values :- DecodeTuple(types, b, 0);
      Some(VSeq(values))
    case ListType(element) =>
      if |b| < 32 then None
      else
        var values :- DecodeList(element, FromBytes(b[..32]), b[32..], 0);
        Some(VSeq(values))
  }

  /** A component whose head is at `pos`. */
  function DecodeComponent(t: Type, b: Bytes, pos: nat): Option<Value>
    decreases t, 1
  {
    if StaticType(t) then (if |b| < pos then None else Decode(t, b[pos..]))
    else if |b| < pos + 32 || |b| < FromBytes(b[pos..pos + 32]) then None
    else Decode(t, b[FromBytes(b[pos..pos + 32])..])
  }

  function AfterHead(t: Type, pos: nat): nat {
    pos + if StaticType(t) then StaticSize(t) else 32
  }

  function DecodeTuple(types: seq<Type>, b: Bytes, pos: nat): Option<seq<Value>>
    decreases types
  {
    if types == [] then Some([])
    else
      var value :- DecodeComponent(types[0], b, pos);
      var values :- DecodeTuple(types[1..], b, AfterHead(types[0], pos));
      Some([value] + values)
  }

  function DecodeList(element: Type, n: nat, b: Bytes, pos: nat): Option<seq<Value>>
    decreases element, n + 2
  {
    if n == 0 then Some([])
    else
      var value :- DecodeComponent(element, b, pos);
      var values :- DecodeList(element, n - 1, b, AfterHead(element, pos));
      Some([value] + values)
  }

  // ---------------------------------------------------------------- types and sizes

  lemma {:induction false} StaticAlike(v: Abi, t: Type)
    requires Fits(v) && HasType(v, t)
    ensures IsStatic(v) <==> StaticType(t)
    ensures StaticType(t) ==> |Standard(v)| == StaticSize(t)
    decreases v
  {
    match v
    case Array(items, dynamicSize) =>
      if !dynamicSize {
        AllStaticAlike(items, t.types, 0, StandardHeadSize(items));
      }
    case Unknown(concrete) => StaticAlike(concrete, t);
    case _ =>
  }

  lemma {:induction false} AllStaticAlike(items: seq<Abi>, types: seq<Type>, before: nat, headSize: nat)
    requires AllFit(items) && HaveTypes(items, types)
    ensures AllStatic(items) <==> AllStaticTypes(types)
    ensures AllStatic(items) ==>
              |StandardHeads(items, before, headSize)| == StaticSizes(types) && StandardTails(items) == []
    decreases items
  {
    if items != [] {
      StaticAlike(items[0], types[0]);
      AllStaticAlike(items[1..], types[1..], before + |StandardTail(items[0])|, headSize);
    }
  }

  lemma {:induction false} HeadsLength(items: seq<Abi>, before: nat, headSize: nat)
    requires AllFit(items)
    ensures |StandardHeads(items, before, headSize)| == StandardHeadSize(items)
    decreases items
  {
    if items != [] {
      HeadsLength(items[1..], before + |StandardTail(items[0])|, headSize);
    }
  }

  // ---------------------------------------------------------------- reading back

  /** `piece` stands at `pos` of `b`. */
  predicate At(b: Bytes, pos: nat, piece: Bytes) {
    pos + |piece| <= |b| && b[pos..pos + |piece|] == piece
  }

  lemma AtParts(b: Bytes, pos: nat, piece: Bytes, rest: Bytes)
    requires At(b, pos, piece + rest)
    ensures At(b, pos, piece) && At(b, pos + |piece|, rest)
  {
    assert (piece + rest)[..|piece|] == piece && (piece + rest)[|piece|..] == rest;
    assert b[pos..pos + |piece|] == b[pos..pos + |piece + rest|][..|piece|];
    assert b[pos + |piece|..pos + |piece + rest|] == b[pos..pos + |piece + rest|][|piece|..];
  }

  lemma AtSplit(b: Bytes, pos: nat, piece: Bytes, rest: Bytes)
    requires At(b, pos, piece + rest)
    ensures At(b, pos, piece) && At(b, pos + |piece|, rest)
    ensures b[pos..] == piece + b[pos + |piece|..]
  {
    AtParts(b, pos, piece, rest);
  }

  /** The rest of a tuple at hand: its heads at `pos`, its tails `before` bytes behind all heads. */
  predicate TupleAt(items: seq<Abi>, b: Bytes, pos: nat, before: nat, headSize: nat)
    requires AllFit(items)
  {
    && At(b, pos, StandardHeads(items, before, headSize))
    && At(b, headSize + before, StandardTails(items))
    && |b| < TWO_256
  }

  /** Decoding inverts the standard encoding, whatever bytes follow it. */
  lemma {:induction false} DecodeInverts(v: Abi, t: Type, rest: Bytes)
    requires Fits(v) && HasType(v, t) && |Standard(v) + rest| < TWO_256
    ensures Decode(t, Standard(v) + rest) == Some(Content(v))
    decreases v, 1
  {
    var b := Standard(v) + rest;
    match v
    case Empty =>
    case Word(data, _) => assert b[..32] == LeftPad(data, 32);
    case Dynamic(data) => DecodeDynamic(data, rest);
    case Array(items, dynamicSize) => DecodeArrayInverts(items, dynamicSize, t, rest);
    case Unknown(concrete) => DecodeInverts(concrete, t, rest);
  }

  lemma {:induction false} DecodeArrayInverts(items: seq<Abi>, dynamicSize: bool, t: Type, rest: Bytes)
    requires var v := Array(items, dynamicSize); Fits(v) && HasType(v, t) && |Standard(v) + rest| < TWO_256
    ensures Decode(t, Standard(Array(items, dynamicSize)) + rest) == Some(VSeq(Contents(items)))
    decreases Array(items, dynamicSize), 0
  {
    var tuple := StandardTuple(items);
    if dynamicSize {
      ListBuffer(|items|, tuple, rest, Standard(Array(items, true)) + rest);
      TupleBuffer(items, tuple, rest);
      DecodeListInverts(items, t.element, tuple + rest, 0, 0, StandardHeadSize(items));
    } else {
      TupleBuffer(items, tuple, rest);
      assert Standard(Array(items, false)) + rest == tuple + rest;
      DecodeTupleInverts(items, t.types, tuple + rest, 0, 0, StandardHeadSize(items));
    }
  }

  lemma DecodeDynamic(data: Bytes, rest: Bytes)
    requires |EncodeDynamic(data) + rest| < TWO_256
    ensures Decode(BytesType, EncodeDynamic(data) + rest) == Some(VBytes(data))
  {
    var b := EncodeDynamic(data) + rest;
    var after := Zeros(RoundUp(|data|, 32) - |data|) + rest;
    assert b == SizeWord(|data|) + (data + after);
    SizeWordBack(|data|);
    assert b[..32] == SizeWord(|data|) && b[32..] == data + after;
    assert b[32..32 + |data|] == b[32..][..|data|];
  }

  lemma TupleBuffer(items: seq<Abi>, tuple: Bytes, rest: Bytes)
    requires AllFit(items) && tuple == StandardTuple(items) && |tuple + rest| < TWO_256
    ensures TupleAt(items, tuple + rest, 0, 0, StandardHeadSize(items))
  {
    HeadsLength(items, 0, StandardHeadSize(items));
    TwoParts(StandardHeads(items, 0, StandardHeadSize(items)), StandardTails(items), rest);
  }

  /** Two pieces, one behind the other, with something behind both. */
  lemma TwoParts(heads: Bytes, tails: Bytes, rest: Bytes)
    ensures At(heads + tails + rest, 0, heads) && At(heads + tails + rest, |heads|, tails)
  {
    assert heads + tails + rest == heads + (tails + rest);
  }

  /** The length word of a list, and what it stands before. */
  lemma ListBuffer(n: nat, tuple: Bytes, rest: Bytes, b: Bytes)
    requires n < TWO_256 && b == SizeWord(n) + tuple + rest
    ensures |b| >= 32 && FromBytes(b[..32]) == n && b[32..] == tuple + rest
  {
    assert b == SizeWord(n) + (tuple + rest);
    SizeWordBack(n);
  }

  /** A component read through its head. */
  lemma {:induction false} DecodeComponentInverts(v: Abi, t: Type, b: Bytes, pos: nat, offset: nat)
    requires Fits(v) && HasType(v, t) && |b| < TWO_256
    requires At(b, pos, StandardHead(v, offset)) && At(b, offset, StandardTail(v))
    ensures DecodeComponent(t, b, pos) == Some(Content(v)) && AfterHead(t, pos) == pos + |StandardHead(v, offset)|
    decreases v, 3
  {
    StaticAlike(v, t);
    if IsStatic(v) {
      DecodeHereInverts(v, t, b, pos);
      StaticIs(t, b, pos);
    } else {
      DecodeHereInverts(v, t, b, offset);
      FollowOffset(t, b, pos, offset);
    }
  }

  lemma {:induction false} DecodeHereInverts(v: Abi, t: Type, b: Bytes, pos: nat)
    requires Fits(v) && HasType(v, t) && |b| < TWO_256 && At(b, pos, Standard(v))
    ensures pos <= |b| && Decode(t, b[pos..]) == Some(Content(v))
    decreases v, 2
  {
    assert Standard(v) + [] == Standard(v);
    AtSplit(b, pos, Standard(v), []);
    DecodeInverts(v, t, b[pos + |Standard(v)|..]);
  }

  lemma StaticIs(t: Type, b: Bytes, pos: nat)
    requires StaticType(t) && pos <= |b|
    ensures DecodeComponent(t, b, pos) == Decode(t, b[pos..])
  {
  }

  /** A dynamic component's head is followed. */
  lemma FollowOffset(t: Type, b: Bytes, pos: nat, offset: nat)
    requires !StaticType(t) && At(b, pos, SizeWord(offset)) && offset <= |b| < TWO_256
    ensures DecodeComponent(t, b, pos) == Decode(t, b[offset..])
  {
    SizeWordBack(offset);
    assert b[pos..pos + 32] == SizeWord(offset);
  }

  /** The first head and the first tail of a tuple, and the others. */
  lemma FirstHeadAndTail(items: seq<Abi>, before: nat, headSize: nat, head: Bytes, tail: Bytes)
    requires items != [] && AllFit(items)
    requires head == StandardHead(items[0], headSize + before) && tail == StandardTail(items[0])
    ensures StandardHeads(items, before, headSize) == head + StandardHeads(items[1..], before + |tail|, headSize)
    ensures StandardTails(items) == tail + StandardTails(items[1..])
  {
  }

  /** What is left of a tuple behind its first head and tail. */
  lemma RestAt(rest: seq<Abi>, b: Bytes, pos: nat, before: nat, headSize: nat, head: Bytes, tail: Bytes)
    requires AllFit(rest) && |b| < TWO_256
    requires At(b, pos, head + StandardHeads(rest, before + |tail|, headSize))
    requires At(b, headSize + before, tail + StandardTails(rest))
    ensures At(b, pos, head) && At(b, headSize + before, tail)
    ensures TupleAt(rest, b, pos + |head|, before + |tail|, headSize)
  {
    AtParts(b, pos, head, StandardHeads(rest, before + |tail|, headSize));
    AtParts(b, headSize + before, tail, StandardTails(rest));
  }

  /** One component further. */
  lemma TupleAtNext(items: seq<Abi>, b: Bytes, pos: nat, before: nat, headSize: nat, head: Bytes, tail: Bytes)
    requires items != [] && AllFit(items) && TupleAt(items, b, pos, before, headSize)
    requires head == StandardHead(items[0], headSize + before) && tail == StandardTail(items[0])
    ensures At(b, pos, head) && At(b, headSize + before, tail)
    ensures TupleAt(items[1..], b, pos + |head|, before + |tail|, headSize)
  {
    FirstHeadAndTail(items, before, headSize, head, tail);
    RestAt(items[1..], b, pos, before, headSize, head, tail);
  }

  /** A tuple read from what its first component and the rest read as. */
  lemma DecodeTupleIs(types: seq<Type>, b: Bytes, pos: nat, value: Value, values: seq<Value>)
    requires types != [] && DecodeComponent(types[0], b, pos) == Some(value)
    requires DecodeTuple(types[1..], b, AfterHead(types[0], pos)) == Some(values)
    ensures DecodeTuple(types, b, pos) == Some([value] + values)
  {
  }

  lemma DecodeListIs(element: Type, n: nat, b: Bytes, pos: nat, value: Value, values: seq<Value>)
    requires n > 0 && DecodeComponent(element, b, pos) == Some(value)
    requires DecodeList(element, n - 1, b, AfterHead(element, pos)) == Some(values)
    ensures DecodeList(element, n, b, pos) == Some([value] + values)
  {
  }

  lemma ContentsFirst(items: seq<Abi>)
    requires items != [] && AllFit(items)
    ensures Contents(items) == [Content(items[0])] + Contents(items[1..])
  {
  }

  /** The first component is read, and what is left stands where it should. */
  lemma {:induction false} FirstComponent(items: seq<Abi>, t: Type, b: Bytes, pos: nat, before: nat, headSize: nat,
                                          head: Bytes, tail: Bytes)
    requires items != [] && AllFit(items) && HasType(items[0], t) && TupleAt(items, b, pos, before, headSize)
    requires head == StandardHead(items[0], headSize + before) && tail == StandardTail(items[0])
    ensures DecodeComponent(t, b, pos) == Some(Content(items[0])) && AfterHead(t, pos) == pos + |head|
    ensures TupleAt(items[1..], b, pos + |head|, before + |tail|, headSize)
    decreases items, 0
  {
    TupleAtNext(items, b, pos, before, headSize, head, tail);
    DecodeComponentInverts(items[0], t, b, pos, headSize + before);
  }

  lemma {:induction false} DecodeTupleInverts(items: seq<Abi>, types: seq<Type>, b: Bytes, pos: nat, before: nat,
                                              headSize: nat)
    requires AllFit(items) && HaveTypes(items, types)
    requires TupleAt(items, b, pos, before, headSize)
    ensures DecodeTuple(types, b, pos) == Some(Contents(items))
    decreases items, 1
  {
    if items != [] {
      var head, tail := StandardHead(items[0], headSize + before), StandardTail(items[0]);
      FirstComponent(items, types[0], b, pos, before, headSize, head, tail);
      DecodeTupleInverts(items[1..], types[1..], b, pos + |head|, before + |tail|, headSize);
      DecodeTupleIs(types, b, pos, Content(items[0]), Contents(items[1..]));
      ContentsFirst(items);
    }
  }

  lemma {:induction false} DecodeListInverts(items: seq<Abi>, element: Type, b: Bytes, pos: nat, before: nat,
                                             headSize: nat)
    requires AllFit(items) && AllHaveType(items, element)
    requires TupleAt(items, b, pos, before, headSize)
    ensures DecodeList(element, |items|, b, pos) == Some(Contents(items))
    decreases items, 1
  {
    if items != [] {
      var head, tail := StandardHead(items[0], headSize + before), StandardTail(items[0]);
      FirstComponent(items, element, b, pos, before, headSize, head, tail);
      DecodeListInverts(items[1..], element, b, pos + |head|, before + |tail|, headSize);
      DecodeListIs(element, |items|, b, pos, Content(items[0]), Contents(items[1..]));
      ContentsFirst(items);
    }
  }

  /** What `get_bytes` writes can be read back from the type alone. */
  lemma EncodeIsDecodable(v: Abi, t: Type)
    requires Fits(v) && HasType(v, t) && Spurious(v) == 0 && |Encode(v)| < TWO_256
    ensures Decode(t, Encode(v)) == Some(Content(v))
  {
    EncodeIsStandard(v);
    DecodeInverts(v, t, []);
    assert Standard(v) + [] == Standard(v);
  }

  /** Values of one type with equal bytes have equal words and strings. */
  lemma EncodeIsInjective(v: Abi, w: Abi, t: Type)
    requires Fits(v) && HasType(v, t) && Spurious(v) == 0 && |Encode(v)| < TWO_256
    requires Fits(w) && HasType(w, t) && Spurious(w) == 0 && Encode(w) == Encode(v)
    ensures Content(v) == Content(w)
  {
    EncodeIsDecodable(v, t);
    EncodeIsDecodable(w, t);
  }
}
