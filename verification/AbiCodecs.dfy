/**
  `get_bytes`, `set_bytes` and the size words as the loops over byte buffers
  they are, proved to compute `Encode`; and how far `set_bytes` inverts it.
 */
module AbiCodecs {
  import opened Words
  import opened Abi

  // ---------------------------------------------------------------- size words

  /** `set_size`: the low byte last. */
  method SetSize(bytes: array<Byte>, size: nat)
    requires bytes.Length >= 32
    modifies bytes
    ensures bytes[..32] == SizeWord(size) && bytes[32..] == old(bytes[32..])
  {
    var rem := size;
    for i := 0 to 32
      invariant SizeWord(size) == ToBytes(rem, 32 - i) + bytes[32 - i..32]
      invariant bytes[32..] == old(bytes[32..])
    {
      bytes[31 - i] := rem % 256;
      assert bytes[31 - i..32] == [rem % 256] + bytes[32 - i..32];
      rem := rem / 256;
    }
    assert bytes[..32] == bytes[0..32];
  }

  lemma Low64Is(n: int, quotient: int, rest: int)
    requires n == quotient * 0x1_0000_0000_0000_0000 + rest && 0 <= rest < 0x1_0000_0000_0000_0000
    ensures Low64(n) == rest
  {
  }

  /** A byte shifted into a usize drops what is beyond 64 bits. */
  lemma ShiftedIn(x: nat, byte: Byte)
    ensures Low64(Low64(x) * 256) + byte == Low64(x * 256 + byte)
  {
    var high, low := x / 0x1_0000_0000_0000_0000, x % 0x1_0000_0000_0000_0000;
    var high1, low1 := low / 0x100_0000_0000_0000, low % 0x100_0000_0000_0000;
    Low64Is(x, high, low);
    Low64Is(low * 256, high1, low1 * 256);
    Low64Is(x * 256 + byte, high * 256 + high1, low1 * 256 + byte);
  }

  lemma FromBytesStep(bytes: Bytes, i: nat)
    requires i < |bytes|
    ensures FromBytes(bytes[..i + 1]) == FromBytes(bytes[..i]) * 256 + bytes[i]
  {
    assert bytes[..i + 1][..i] == bytes[..i];
  }

  /** `get_size`, in a usize that drops what is shifted out. */
  method GetSizeWord(bytes: Bytes) returns (size: U64)
    requires |bytes| >= 32
    ensures size == Low64(FromBytes(bytes[..32]))
    ensures FromBytes(bytes[..32]) < TWO_64 ==> SizeWord(size) == bytes[..32]
  {
    size := 0;
    for i := 0 to 32
      invariant size == Low64(FromBytes(bytes[..i]))
    {
      FromBytesStep(bytes, i);
      ShiftedIn(FromBytes(bytes[..i]), bytes[i]);
      size := Low64(size * 256) + bytes[i];
    }
    ToFromBytes(bytes[..32]);
  }

  // ---------------------------------------------------------------- get_bytes

  method CopyInto(bytes: array<Byte>, offset: nat, piece: Bytes)
    requires offset + |piece| <= bytes.Length
    modifies bytes
    ensures bytes[..offset] == old(bytes[..offset])
    ensures bytes[offset..offset + |piece|] == piece
    ensures bytes[offset + |piece|..] == old(bytes[offset + |piece|..])
  {
    for i := 0 to |piece|
      invariant bytes[..offset] == old(bytes[..offset])
      invariant bytes[offset..offset + i] == piece[..i]
      invariant bytes[offset + |piece|..] == old(bytes[offset + |piece|..])
    {
      bytes[offset + i] := piece[i];
      assert bytes[offset..offset + i + 1] == bytes[offset..offset + i] + [piece[i]];
      assert piece[..i + 1] == piece[..i] + [piece[i]];
    }
    assert piece[..|piece|] == piece;
  }

  method GetBytesOfWord(data: Bytes) returns (bytes: array<Byte>)
    requires |data| <= 32
    ensures fresh(bytes) && bytes[..] == LeftPad(data, 32)
  {
    bytes := new Byte[32](_ => 0);
    ghost var zeros := bytes[..32 - |data|];
    CopyInto(bytes, 32 - |data|, data);
    assert bytes[..] == bytes[..32 - |data|] + bytes[32 - |data|..32];
    assert bytes[..32 - |data|] == zeros == Zeros(32 - |data|);
  }

  method GetBytesOfDynamic(data: Bytes) returns (bytes: array<Byte>)
    ensures fresh(bytes) && bytes[..] == EncodeDynamic(data)
  {
    var newLen := RoundUp(|data|, 32);
    bytes := new Byte[newLen + 32](_ => 0);
    SetSize(bytes, |data|);
    ghost var rest := bytes[32..];
    assert rest == Zeros(newLen);
    CopyInto(bytes, 32, data);
    assert bytes[32 + |data|..] == rest[|data|..] == Zeros(newLen - |data|);
    assert bytes[..] == bytes[..32] + bytes[32..32 + |data|] + bytes[32 + |data|..];
  }

  function Concat(pieces: seq<Bytes>): Bytes {
    if pieces == [] then [] else Concat(pieces[..|pieces| - 1]) + pieces[|pieces| - 1]
  }

  lemma ConcatAppend(pieces: seq<Bytes>, piece: Bytes)
    ensures Concat(pieces + [piece]) == Concat(pieces) + piece
  {
    assert (pieces + [piece])[..|pieces|] == pieces;
  }

  lemma {:induction false} FitAppend(items: seq<Abi>, x: Abi)
    ensures AllFit(items + [x]) <==> AllFit(items) && Fits(x)
  {
    if items == [] {
      assert [] + [x] == [x] && [x][1..] == [];
    } else {
      assert (items + [x])[1..] == items[1..] + [x];
      FitAppend(items[1..], x);
    }
  }

  lemma {:induction false} FitAt(items: seq<Abi>, i: nat)
    requires AllFit(items) && i < |items|
    ensures Fits(items[i])
  {
    if i > 0 {
      FitAt(items[1..], i - 1);
    }
  }

  lemma {:induction false} FitPrefix(items: seq<Abi>, n: nat)
    requires AllFit(items) && n <= |items|
    ensures AllFit(items[..n])
  {
    if n > 0 {
      FitPrefix(items[1..], n - 1);
      assert items[..n][1..] == items[1..][..n - 1];
    }
  }

  // One component more: its head comes after the other heads, its tail after the other tails.

  lemma {:induction false} HeadSizeAppend(items: seq<Abi>, x: Abi)
    requires AllFit(items + [x])
    ensures AllFit(items) && Fits(x)
    ensures HeadSize(items + [x]) == HeadSize(items) + if IsStatic(x) then |Encode(x)| else 32
    decreases |items|
  {
    FitAppend(items, x);
    if items == [] {
      assert [x][1..] == [];
    } else {
      assert (items + [x])[1..] == items[1..] + [x];
      HeadSizeAppend(items[1..], x);
    }
  }

  lemma {:induction false} TailsAppend(items: seq<Abi>, x: Abi)
    requires AllFit(items + [x])
    ensures AllFit(items) && Fits(x)
    ensures Tails(items + [x]) == Tails(items) + Tail(x)
    decreases |items|
  {
    FitAppend(items, x);
    if items == [] {
      assert [] + [x] == [x] && [x][1..] == [];
    } else {
      assert (items + [x])[1..] == items[1..] + [x];
      TailsAppend(items[1..], x);
    }
  }

  lemma {:induction false} HeadsAppend(items: seq<Abi>, x: Abi, headSize: nat, before: nat)
    requires AllFit(items + [x])
    ensures AllFit(items) && Fits(x)
    ensures Heads(items + [x], headSize, before)
            == Heads(items, headSize, before) + Head(x, headSize + before + |Tails(items)|)
    decreases |items|
  {
    FitAppend(items, x);
    if items == [] {
      assert [] + [x] == [x] && [x][1..] == [];
    } else {
      assert (items + [x])[1..] == items[1..] + [x];
      HeadsAppend(items[1..], x, headSize, before + |Tail(items[0])|);
    }
  }

  /** The vectors `get_bytes` fills in its first loop: static encodings, and the other ones. */
  ghost predicate Split(items: seq<Abi>, heads: seq<Bytes>, tails: seq<Bytes>) {
    && |heads| == |tails| == |items|
    && (forall i | 0 <= i < |items| ::
          Fits(items[i]) && tails[i] == Tail(items[i])
            && heads[i] == (if IsStatic(items[i]) then Encode(items[i]) else []))
  }

  lemma SplitAppend(items: seq<Abi>, x: Abi, heads: seq<Bytes>, tails: seq<Bytes>)
    requires AllFit(items) && Fits(x) && Split(items, heads, tails)
    ensures Split(items + [x], heads + [if IsStatic(x) then Encode(x) else []], tails + [Tail(x)])
  {
  }

  /** The first loop after `n` components. */
  ghost predicate SplitUpTo(items: seq<Abi>, n: nat, heads: seq<Bytes>, tails: seq<Bytes>, headSize: nat) {
    && n <= |items| && AllFit(items[..n]) && Split(items[..n], heads, tails)
    && headSize == HeadSize(items[..n]) && Concat(tails) == Tails(items[..n])
  }

  lemma SplitOneMore(items: seq<Abi>, n: nat, heads: seq<Bytes>, tails: seq<Bytes>, headSize: nat)
    requires AllFit(items) && n < |items| && SplitUpTo(items, n, heads, tails, headSize)
    ensures Fits(items[n])
    ensures var x := items[n];
            SplitUpTo(items, n + 1, heads + [if IsStatic(x) then Encode(x) else []], tails + [Tail(x)],
                      headSize + if IsStatic(x) then |Encode(x)| else 32)
  {
    FitAt(items, n);
    FitPrefix(items, n + 1);
    assert items[..n + 1] == items[..n] + [items[n]];
    SplitAppend(items[..n], items[n], heads, tails);
    HeadSizeAppend(items[..n], items[n]);
    TailsAppend(items[..n], items[n]);
    ConcatAppend(tails, Tail(items[n]));
  }

  /** The first loop of `AArray::get_bytes`. */
  method SplitItems(items: seq<Abi>) returns (head: seq<Bytes>, tailData: seq<Bytes>, headSize: nat)
    requires AllFit(items)
    ensures Split(items, head, tailData) && headSize == HeadSize(items) && Concat(tailData) == Tails(items)
    decreases items, 0
  {
    head, tailData, headSize := [], [], 0;
    for i := 0 to |items|
      invariant SplitUpTo(items, i, head, tailData, headSize)
    {
      SplitOneMore(items, i, head, tailData, headSize);
      assert items[i] in items;
      var encoded := GetBytes(items[i]);
      if IsStatic(items[i]) {
        headSize := headSize + |encoded|;
        head, tailData := head + [encoded], tailData + [[]];
      } else {
        headSize := headSize + 32;
        head, tailData := head + [[]], tailData + [encoded];
      }
    }
    assert items[..|items|] == items;
  }

  /** The second loop: where each tail starts, behind the heads. */
  method TailOffsets(items: seq<Abi>, tailData: seq<Bytes>) returns (tailsOffset: seq<nat>)
    requires AllFit(items) && items != [] && |tailData| == |items|
    requires forall i | 0 <= i < |items| :: Fits(items[i]) && tailData[i] == Tail(items[i])
    ensures |tailsOffset| == |items|
    ensures forall i | 0 <= i < |items| :: AllFit(items[..i]) && tailsOffset[i] == |Tails(items[..i])|
  {
    var contentSize := 0;
    tailsOffset := [0];
    for i := 0 to |tailData| - 1
      invariant AllFit(items[..i]) && |tailsOffset| == i + 1 && contentSize == |Tails(items[..i])|
      invariant forall j | 0 <= j <= i :: AllFit(items[..j]) && tailsOffset[j] == |Tails(items[..j])|
    {
      FitPrefix(items, i + 1);
      assert items[..i + 1] == items[..i] + [items[i]];
      TailsAppend(items[..i], items[i]);
      contentSize := contentSize + |tailData[i]|;
      tailsOffset := tailsOffset + [contentSize];
    }
  }

  /** The heads of the first `i` components. */
  ghost predicate HeadsDone(items: seq<Abi>, i: nat, headData: seq<Bytes>, headSize: nat) {
    i <= |items| && AllFit(items[..i]) && Concat(headData) == Heads(items[..i], headSize, 0)
  }

  lemma NextHeadDone(items: seq<Abi>, i: nat, headData: seq<Bytes>, headSize: nat, next: Bytes)
    requires AllFit(items) && i < |items| && HeadsDone(items, i, headData, headSize) && Fits(items[i])
    requires next == Head(items[i], |Tails(items[..i])| + headSize)
    ensures HeadsDone(items, i + 1, headData + [next], headSize)
  {
    FitPrefix(items, i + 1);
    assert items[..i + 1] == items[..i] + [items[i]];
    HeadsAppend(items[..i], items[i], headSize, 0);
    ConcatAppend(headData, next);
  }

  /** One round of the third loop. */
  method NextHead(items: seq<Abi>, i: nat, head: seq<Bytes>, offset: nat, headSize: nat, headData: seq<Bytes>)
    returns (headData1: seq<Bytes>)
    requires AllFit(items) && i < |items| == |head| && HeadsDone(items, i, headData, headSize)
    requires Fits(items[i]) && head[i] == (if IsStatic(items[i]) then Encode(items[i]) else [])
    requires offset == |Tails(items[..i])|
    ensures HeadsDone(items, i + 1, headData1, headSize)
  {
    var next := FinishHead(items[i], head[i], offset + headSize);
    NextHeadDone(items, i, headData, headSize, next);
    headData1 := headData + [next];
  }

  /** The third loop: an offset word for every empty head. */
  method FinishHeads(items: seq<Abi>, head: seq<Bytes>, tailData: seq<Bytes>, headSize: nat)
      returns (headData: seq<Bytes>)
    requires AllFit(items) && Split(items, head, tailData)
    ensures Concat(headData) == Heads(items, headSize, 0)
  {
    headData := [];
    if |tailData| > 0 {
      var tailsOffset := TailOffsets(items, tailData);
      for i := 0 to |tailsOffset|
        invariant HeadsDone(items, i, headData, headSize)
      {
        headData := NextHead(items, i, head, tailsOffset[i], headSize, headData);
      }
      assert items[..|items|] == items;
    }
  }

  method FinishHead(ghost x: Abi, head: Bytes, offset: nat) returns (r: Bytes)
    requires Fits(x) && head == (if IsStatic(x) then Encode(x) else [])
    ensures r == Head(x, offset)
  {
    r := head;
    if |head| == 0 {
      r := OffsetWord(offset);
    }
  }

  method OffsetWord(offset: nat) returns (word: Bytes)
    ensures word == SizeWord(offset)
  {
    var buffer := new Byte[32](_ => 0);
    SetSize(buffer, offset);
    word := buffer[..];
    assert word == buffer[..32];
  }

  /** Writes the pieces one after another from `offset` on. */
  method WritePieces(bytes: array<Byte>, start: nat, pieces: seq<Bytes>) returns (offset: nat)
    requires start + |Concat(pieces)| <= bytes.Length
    modifies bytes
    ensures offset == start + |Concat(pieces)|
    ensures bytes[..offset] == old(bytes[..start]) + Concat(pieces)
  {
    offset := start;
    assert pieces[..|pieces|] == pieces;
    for i := 0 to |pieces|
      invariant start <= offset == start + |Concat(pieces[..i])| <= bytes.Length
      invariant bytes[..offset] == old(bytes[..start]) + Concat(pieces[..i])
    {
      assert pieces[..i + 1] == pieces[..i] + [pieces[i]];
      ConcatAppend(pieces[..i], pieces[i]);
      ConcatPrefix(pieces, i + 1);
      CopyInto(bytes, offset, pieces[i]);
      assert bytes[..offset + |pieces[i]|] == bytes[..offset] + bytes[offset..offset + |pieces[i]|];
      offset := offset + |pieces[i]|;
    }
  }

  lemma {:induction false} ConcatPrefix(pieces: seq<Bytes>, n: nat)
    requires n <= |pieces|
    ensures |Concat(pieces[..n])| <= |Concat(pieces)|
    decreases |pieces|
  {
    if n < |pieces| {
      ConcatPrefix(pieces[..|pieces| - 1], n);
      assert pieces[..|pieces| - 1][..n] == pieces[..n];
    } else {
      assert pieces[..n] == pieces;
    }
  }

  method GetBytesOfArray(items: seq<Abi>, dynamicSize: bool) returns (bytes: array<Byte>)
    requires Fits(Array(items, dynamicSize))
    ensures fresh(bytes) && bytes[..] == Encode(Array(items, dynamicSize))
    decreases items, 1
  {
    var head, tailData, headSize := SplitItems(items);
    var headData := FinishHeads(items, head, tailData, headSize);
    var start := if dynamicSize then 32 else 0;
    var headDataSize := LengthOf(headData);
    var tailDataSize := LengthOf(tailData);
    bytes := new Byte[headDataSize + tailDataSize + start](_ => 0);
    if dynamicSize {
      SetSize(bytes, |items|);
    }
    ghost var count := bytes[..start];
    var offset := WritePieces(bytes, start, headData);
    offset := WritePieces(bytes, offset, tailData);
    assert bytes[..] == bytes[..offset] == count + Concat(headData) + Concat(tailData);
  }

  method LengthOf(pieces: seq<Bytes>) returns (length: nat)
    ensures length == |Concat(pieces)|
  {
    length := 0;
    assert pieces[..|pieces|] == pieces;
    for i := 0 to |pieces|
      invariant length == |Concat(pieces[..i])|
    {
      assert pieces[..i + 1] == pieces[..i] + [pieces[i]];
      ConcatAppend(pieces[..i], pieces[i]);
      length := length + |pieces[i]|;
    }
  }

  /** `get_bytes` of any value; on values without spurious words this is the standard encoding. */
  method GetBytes(v: Abi) returns (bytes: Bytes)
    requires Fits(v)
    ensures bytes == Encode(v)
    ensures Spurious(v) == 0 ==> bytes == Standard(v)
    decreases v, 0
  {
    EncodeIsStandard(v);
    match v
    case Empty => bytes := [];
    case Word(data, _) =>
      var buffer := GetBytesOfWord(data);
      bytes := buffer[..];
    case Dynamic(data) =>
      var buffer := GetBytesOfDynamic(data);
      bytes := buffer[..];
    case Array(items, dynamicSize) =>
      var buffer := GetBytesOfArray(items, dynamicSize);
      bytes := buffer[..];
    case Unknown(concrete) => bytes := GetBytes(concrete);
  }

  // ---------------------------------------------------------------- set_bytes and get_size

  function GetSize(v: Abi): nat
    decreases v
  {
    match v
    case Empty => 0
    case Word(_, _) => 32
    case Dynamic(data) => |data| + 32
    case Array(items, dynamicSize) => (if dynamicSize then 32 else 0) + GetSizes(items)
    case Unknown(concrete) => GetSize(concrete)
  }

  function GetSizes(items: seq<Abi>): nat
    decreases items
  {
    if items == [] then 0 else GetSize(items[0]) + GetSizes(items[1..])
  }

  /** How many components `set_bytes` takes from the tails. */
  function Tailed(items: seq<Abi>): nat
    decreases items
  {
    if items == [] then 0 else (if IsStatic(items[0]) then 0 else 1) + Tailed(items[1..])
  }

  /** `set_bytes`; `None` where it panics. */
  function SetBytes(v: Abi, bytes: Bytes): Option<Abi>
    decreases v
  {
    match v
    case Empty => if bytes == [] then Some(Empty) else None
    case Word(_, isAddress) => Some(Word(bytes, isAddress))
    case Dynamic(_) => Some(Dynamic(bytes))
    case Array(items, dynamicSize) =>
      if dynamicSize && (|bytes| < 32 || Low64(FromBytes(bytes[..32])) != |items|) then None
      else
        var start := if dynamicSize then 32 else 0;
        var tails :- TailStarts(items, bytes, start);
        var items1 :- SetItems(items, bytes, start, tails);
        Some(Array(items1, dynamicSize))
    case Unknown(concrete) =>
      var concrete1 :- SetBytes(concrete, bytes);
      Some(Unknown(concrete1))
  }

  /** The offset words, read one after another as if no static component had a head between them. */
  function TailStarts(items: seq<Abi>, bytes: Bytes, head: nat): (r: Option<seq<U64>>)
    ensures r.Some? ==> |r.value| == Tailed(items)
    decreases items
  {
    if items == [] then Some([])
    else if IsStatic(items[0]) then TailStarts(items[1..], bytes, head)
    else if |bytes| < head + 32 then None
    else
      Prefixed([Low64(FromBytes(bytes[head..head + 32]))], TailStarts(items[1..], bytes, head + 32))
  }

  /**
    `offset` moves over the static components only, and tails are counted from
    it. The differences wrap as usizes do; a slice beyond the bytes panics.
   */
  function SetItems(items: seq<Abi>, bytes: Bytes, offset: nat, tails: seq<U64>): Option<seq<Abi>>
    requires |tails| == Tailed(items)
    decreases items
  {
    if items == [] then Some([])
    else
      var piece :- Slice(bytes, ItemStart(items[0], offset, tails), ItemSize(items[0], bytes, offset, tails));
      var x :- SetBytes(items[0], piece);
      Prefixed([x], SetItems(items[1..], bytes, OffsetAfter(items[0], offset), TailsAfter(items[0], tails)))
  }

  function ItemStart(v: Abi, offset: nat, tails: seq<U64>): nat
    requires IsStatic(v) || tails != []
  {
    if IsStatic(v) then offset else TailStart(offset, tails)
  }

  function ItemSize(v: Abi, bytes: Bytes, offset: nat, tails: seq<U64>): nat
    requires IsStatic(v) || tails != []
  {
    if IsStatic(v) then GetSize(v) else TailSize(bytes, offset, tails)
  }

  function OffsetAfter(v: Abi, offset: nat): nat {
    if IsStatic(v) then offset + GetSize(v) else offset
  }

  function TailsAfter(v: Abi, tails: seq<U64>): seq<U64>
    requires IsStatic(v) || tails != []
  {
    if IsStatic(v) then tails else tails[1..]
  }

  function Slice(bytes: Bytes, start: nat, size: nat): Option<Bytes> {
    if |bytes| < start + size then None else Some(bytes[start..start + size])
  }

  /** `done`, then what is still to come if that does not panic. */
  function Prefixed<T>(done: seq<T>, rest: Option<seq<T>>): Option<seq<T>> {
    if rest.None? then None else Some(done + rest.value)
  }

  function TailStart(offset: nat, tails: seq<U64>): U64
    requires tails != []
  {
    Low64(tails[0] + offset)
  }

  function TailSize(bytes: Bytes, offset: nat, tails: seq<U64>): U64
    requires tails != []
  {
    Low64(if |tails| == 1 then |bytes| - TailStart(offset, tails) else tails[1] - TailStart(offset, tails) + offset)
  }

  /** The first loop of `set_bytes`. */
  method ReadTailStarts(items: seq<Abi>, bytes: Bytes, start: nat) returns (r: Option<seq<U64>>)
    ensures r == TailStarts(items, bytes, start)
  {
    var tailsOffset: seq<U64> := [];
    var headSize: nat := start;
    ghost var whole := TailStarts(items, bytes, start);
    assert items[0..] == items && (whole.Some? ==> [] + whole.value == whole.value);
    for i := 0 to |items|
      invariant whole == Prefixed(tailsOffset, TailStarts(items[i..], bytes, headSize))
    {
      NextTailStart(items, i, bytes, headSize);
      if !IsStatic(items[i]) {
        if |bytes| < headSize + 32 {
          return None;
        }
        assert bytes[headSize..headSize + 32][..32] == bytes[headSize..headSize + 32];
        var tailOffset := GetSizeWord(bytes[headSize..headSize + 32]);
        PrefixedOne(tailsOffset, tailOffset, TailStarts(items[i + 1..], bytes, headSize + 32));
        tailsOffset := tailsOffset + [tailOffset];
        headSize := headSize + 32;
      }
    }
    assert tailsOffset + [] == tailsOffset;
    return Some(tailsOffset);
  }

  lemma PrefixedOne<T>(done: seq<T>, x: T, rest: Option<seq<T>>)
    ensures Prefixed(done, Prefixed([x], rest)) == Prefixed(done + [x], rest)
  {
    if rest.Some? {
      assert done + ([x] + rest.value) == (done + [x]) + rest.value;
    }
  }

  lemma NextTailStart(items: seq<Abi>, i: nat, bytes: Bytes, head: nat)
    requires i < |items|
    ensures TailStarts(items[i..], bytes, head)
         == if IsStatic(items[i]) then TailStarts(items[i + 1..], bytes, head)
            else if |bytes| < head + 32 then None
            else Prefixed([Low64(FromBytes(bytes[head..head + 32]))], TailStarts(items[i + 1..], bytes, head + 32))
  {
    assert items[i..][1..] == items[i + 1..];
  }

  /** `set_bytes` of the component `v`, then `rest`. */
  function ThenItems(v: Abi, piece: Option<Bytes>, rest: Option<seq<Abi>>): Option<seq<Abi>> {
    var bytes :- piece;
    var x :- SetBytes(v, bytes);
    Prefixed([x], rest)
  }

  lemma NextSet(items: seq<Abi>, i: nat, bytes: Bytes, offset: nat, tails: seq<U64>)
    requires i < |items| && |tails| == Tailed(items[i..])
    ensures Tailed(items[i..]) == Tailed(items[i + 1..]) + if IsStatic(items[i]) then 0 else 1
    ensures SetItems(items[i..], bytes, offset, tails)
         == ThenItems(items[i], Slice(bytes, ItemStart(items[i], offset, tails),
                                      ItemSize(items[i], bytes, offset, tails)),
                      SetItems(items[i + 1..], bytes, OffsetAfter(items[i], offset), TailsAfter(items[i], tails)))
  {
    assert items[i..][1..] == items[i + 1..];
  }

  lemma OneMoreItem(done: seq<Abi>, v: Abi, piece: Option<Bytes>, rest: Option<seq<Abi>>)
    ensures Prefixed(done, ThenItems(v, piece, rest))
         == if piece.None? || SetBytes(v, piece.value).None? then None
            else Prefixed(done + [SetBytes(v, piece.value).value], rest)
  {
    if piece.Some? && SetBytes(v, piece.value).Some? {
      PrefixedOne(done, SetBytes(v, piece.value).value, rest);
    }
  }

  /** Where a component's bytes are: behind the static ones before it, or where the offsets read before say. */
  method LocateItem(v: Abi, bytes: Bytes, offset: nat, tailsOffset: seq<U64>, index: nat)
    returns (start: nat, size: nat)
    requires IsStatic(v) || index < |tailsOffset|
    requires index <= |tailsOffset|
    ensures start == ItemStart(v, offset, tailsOffset[index..])
    ensures size == ItemSize(v, bytes, offset, tailsOffset[index..])
  {
    if IsStatic(v) {
      start, size := offset, GetSize(v);
    } else {
      start := Low64(tailsOffset[index] + offset);
      size := Low64(if index == |tailsOffset| - 1 then |bytes| - start else tailsOffset[index + 1] - start + offset);
    }
  }

  /** What the second loop has done and what is still to come, as `SetItems`. */
  ghost predicate Halfway(whole: Option<seq<Abi>>, done: seq<Abi>, rest: seq<Abi>, bytes: Bytes, offset: nat,
                          tails: seq<U64>) {
    |tails| == Tailed(rest) && whole == Prefixed(done, SetItems(rest, bytes, offset, tails))
  }

  /** One round of the second loop; `None` where it panics. */
  method SetOneItem(items: seq<Abi>, i: nat, bytes: Bytes, offset: nat, tailsOffset: seq<U64>, index: nat,
                    ghost whole: Option<seq<Abi>>, ghost done: seq<Abi>)
    returns (x: Option<Abi>, offset1: nat, index1: nat)
    requires i < |items| && index <= |tailsOffset|
    requires Halfway(whole, done, items[i..], bytes, offset, tailsOffset[index..])
    ensures if x.None? then whole.None?
            else index1 <= |tailsOffset|
                 && Halfway(whole, done + [x.value], items[i + 1..], bytes, offset1, tailsOffset[index1..])
    decreases items, 0
  {
    NextSet(items, i, bytes, offset, tailsOffset[index..]);
    ghost var tails := TailsAfter(items[i], tailsOffset[index..]);
    var start, size := LocateItem(items[i], bytes, offset, tailsOffset, index);
    OneMoreItem(done, items[i], Slice(bytes, start, size),
                SetItems(items[i + 1..], bytes, OffsetAfter(items[i], offset), tails));
    offset1, index1 := offset, index;
    if |bytes| < start + size {
      return None, offset1, index1;
    }
    x := SetBytesOf(items[i], bytes[start..start + size]);
    if IsStatic(items[i]) {
      offset1 := offset + size;
    } else {
      index1 := index + 1;
    }
    assert tailsOffset[index1..] == tails;
  }

  /** The second loop: each component is set from its own slice, dynamic ones by the offsets read before. */
  method SetBytesOfItems(items: seq<Abi>, bytes: Bytes, start: nat, tailsOffset: seq<U64>)
    returns (r: Option<seq<Abi>>)
    requires |tailsOffset| == Tailed(items)
    ensures r == SetItems(items, bytes, start, tailsOffset)
    decreases items, 1
  {
    var items1: seq<Abi> := [];
    var offset: nat, index: nat := start, 0;
    ghost var whole := SetItems(items, bytes, start, tailsOffset);
    NothingDone(items, bytes, start, tailsOffset);
    for i := 0 to |items|
      invariant index <= |tailsOffset|
      invariant Halfway(whole, items1, items[i..], bytes, offset, tailsOffset[index..])
    {
      var x;
      x, offset, index := SetOneItem(items, i, bytes, offset, tailsOffset, index, whole, items1);
      if x.None? {
        return None;
      }
      items1 := items1 + [x.value];
    }
    assert items1 + [] == items1;
    return Some(items1);
  }

  lemma NothingDone(items: seq<Abi>, bytes: Bytes, start: nat, tails: seq<U64>)
    requires |tails| == Tailed(items)
    ensures Halfway(SetItems(items, bytes, start, tails), [], items[0..], bytes, start, tails[0..])
  {
    var whole := SetItems(items, bytes, start, tails);
    assert items[0..] == items && tails[0..] == tails;
    assert whole.Some? ==> [] + whole.value == whole.value;
  }

  method SetBytesOf(v: Abi, bytes: Bytes) returns (r: Option<Abi>)
    ensures r == SetBytes(v, bytes)
    decreases v, 2
  {
    match v
    case Empty => r := if bytes == [] then Some(Empty) else None;
    case Word(_, isAddress) => r := Some(Word(bytes, isAddress));
    case Dynamic(_) => r := Some(Dynamic(bytes));
    case Array(items, dynamicSize) =>
      if dynamicSize {
        if |bytes| < 32 {
          return None;
        }
        var size := GetSizeWord(bytes);
        if size != |items| {
          return None;
        }
      }
      var start := if dynamicSize then 32 else 0;
      var tailsOffset := ReadTailStarts(items, bytes, start);
      if tailsOffset.None? {
        return None;
      }
      var items1 := SetBytesOfItems(items, bytes, start, tailsOffset.value);
      r := if items1.None? then None else Some(Array(items1.value, dynamicSize));
    case Unknown(concrete) =>
      var concrete1 := SetBytesOf(concrete, bytes);
      r := if concrete1.None? then None else Some(Unknown(concrete1.value));
  }

  lemma FirstStaticSet(items: seq<Abi>, bytes: Bytes, offset: nat, tails: seq<U64>, piece: Bytes, x: Abi)
    requires items != [] && IsStatic(items[0]) && |tails| == Tailed(items)
    requires Slice(bytes, offset, GetSize(items[0])) == Some(piece)
    requires SetBytes(items[0], piece) == Some(x)
    ensures SetItems(items, bytes, offset, tails)
         == Prefixed([x], SetItems(items[1..], bytes, offset + GetSize(items[0]), tails))
  {
  }

  lemma FirstTailedSet(items: seq<Abi>, bytes: Bytes, offset: nat, tails: seq<U64>, start: nat, size: nat,
                       piece: Bytes, x: Abi)
    requires items != [] && !IsStatic(items[0]) && |tails| == Tailed(items)
    requires start == TailStart(offset, tails) && size == TailSize(bytes, offset, tails)
    requires Slice(bytes, start, size) == Some(piece)
    requires SetBytes(items[0], piece) == Some(x)
    ensures SetItems(items, bytes, offset, tails)
         == Prefixed([x], SetItems(items[1..], bytes, offset, tails[1..]))
  {
  }

  lemma {:induction false} NoTails(items: seq<Abi>, bytes: Bytes, head: nat)
    requires AllStatic(items)
    ensures Tailed(items) == 0 && TailStarts(items, bytes, head) == Some([])
    decreases items
  {
    if items != [] {
      NoTails(items[1..], bytes, head);
    }
  }

  /** `set_bytes` of static components. */
  function SetStatic(items: seq<Abi>, bytes: Bytes, offset: nat): Option<seq<Abi>>
    requires AllStatic(items)
  {
    NoTails(items, bytes, offset);
    SetItems(items, bytes, offset, [])
  }

  lemma SetStaticArray(items: seq<Abi>, bytes: Bytes, dynamicSize: bool)
    requires AllStatic(items)
    requires dynamicSize ==> |bytes| >= 32 && Low64(FromBytes(bytes[..32])) == |items|
    ensures var r := SetStatic(items, bytes, if dynamicSize then 32 else 0);
            SetBytes(Array(items, dynamicSize), bytes) == if r.None? then None else Some(Array(r.value, dynamicSize))
  {
    NoTails(items, bytes, if dynamicSize then 32 else 0);
  }

  // ---------------------------------------------------------------- sizes of static values

  /** `get_size` misses the spurious words, and nothing else. */
  lemma {:induction false} StaticLength(v: Abi)
    requires Fits(v) && IsStatic(v)
    ensures |Encode(v)| == GetSize(v) + 32 * Spurious(v)
    decreases v
  {
    match v
    case Array(items, _) => StaticLengths(items, HeadSize(items), 0);
    case Unknown(concrete) => StaticLength(concrete);
    case _ =>
  }

  lemma StaticHeadLength(v: Abi, offset: nat)
    requires Fits(v) && IsStatic(v) && |Encode(v)| == GetSize(v) + 32 * Spurious(v)
    ensures |Head(v, offset)| == GetSize(v) + 32 * (Spurious(v) + if Encode(v) == [] then 1 else 0)
  {
  }

  lemma {:induction false} StaticLengths(items: seq<Abi>, headSize: nat, before: nat)
    requires AllFit(items) && AllStatic(items)
    ensures |Heads(items, headSize, before)| == GetSizes(items) + 32 * SpuriousIn(items) && Tails(items) == []
    decreases items
  {
    if items != [] {
      StaticLength(items[0]);
      StaticLengths(items[1..], headSize, before);
      StaticHeadLength(items[0], headSize + before);
      assert Tail(items[0]) == [] && before + 0 == before;
      assert Heads(items, headSize, before) == Head(items[0], headSize + before) + Heads(items[1..], headSize, before);
    }
  }

  lemma GetSizeIsLength(v: Abi)
    requires Fits(v) && IsStatic(v)
    ensures GetSize(v) == |Encode(v)| <==> Spurious(v) == 0
  {
    StaticLength(v);
  }

  // ---------------------------------------------------------------- set_bytes, then get_bytes

  /** A value that holds exactly `bytes`. */
  ghost predicate Holds(v: Abi, bytes: Bytes) {
    Fits(v) && IsStatic(v) && Spurious(v) == 0 && Encode(v) == bytes
  }

  /** Any bytes of the right length set into a static value are got back. */
  lemma {:induction false} StaticSetThenGet(v: Abi, bytes: Bytes)
    requires Fits(v) && IsStatic(v) && Spurious(v) == 0
    requires |bytes| == GetSize(v)
    ensures SetBytes(v, bytes).Some? && Holds(SetBytes(v, bytes).value, bytes)
    decreases v
  {
    match v
    case Word(_, _) => assert Zeros(0) + bytes == bytes;
    case Array(items, _) =>
      ItemsSetThenGet(items, bytes, 0);
      SetStaticArray(items, bytes, false);
      var items1 := SetStatic(items, bytes, 0).value;
      HeadsHold(items1, HeadSize(items1), 0);
      assert bytes[0..0 + GetSizes(items)] == bytes;
    case Unknown(concrete) => StaticSetThenGet(concrete, bytes);
    case _ =>
  }

  /** The encodings of `items` in a row. */
  function Row(items: seq<Abi>): Bytes
    requires AllFit(items)
  {
    if items == [] then [] else Encode(items[0]) + Row(items[1..])
  }

  ghost predicate AllPlain(items: seq<Abi>) {
    && AllFit(items)
    && AllStatic(items) && SpuriousIn(items) == 0
  }

  lemma {:induction false} HeadsHold(items: seq<Abi>, headSize: nat, before: nat)
    requires AllPlain(items)
    ensures Heads(items, headSize, before) == Row(items) && Tails(items) == []
    decreases items
  {
    if items != [] {
      HeadsHold(items[1..], headSize, before);
    }
  }

  lemma {:induction false} ItemsSetThenGet(items: seq<Abi>, bytes: Bytes, offset: nat)
    requires AllPlain(items)
    requires |bytes| >= offset + GetSizes(items)
    ensures var r := SetStatic(items, bytes, offset);
            && r.Some? && |r.value| == |items| && AllPlain(r.value)
            && Row(r.value) == bytes[offset..offset + GetSizes(items)]
    decreases items
  {
    if items != [] {
      var size := GetSize(items[0]);
      var piece := bytes[offset..offset + size];
      StaticSetThenGet(items[0], piece);
      StaticLength(items[0]);
      ItemsSetThenGet(items[1..], bytes, offset + size);
      var x, rest := SetBytes(items[0], piece).value, SetStatic(items[1..], bytes, offset + size).value;
      OneMore(x, rest);
      assert SetStatic(items, bytes, offset) == Some([x] + rest);
      Adjoining(bytes, offset, size, GetSizes(items[1..]));
    }
  }

  lemma Adjoining(bytes: Bytes, offset: nat, m: nat, n: nat)
    requires offset + m + n <= |bytes|
    ensures bytes[offset..offset + (m + n)] == bytes[offset..offset + m] + bytes[offset + m..offset + m + n]
  {
  }

  lemma OneMore(x: Abi, rest: seq<Abi>)
    requires Fits(x) && IsStatic(x) && Spurious(x) == 0 && Encode(x) != [] && AllPlain(rest)
    ensures AllPlain([x] + rest) && Row([x] + rest) == Encode(x) + Row(rest)
  {
    assert ([x] + rest)[1..] == rest;
  }

  /** For a static value: what is set comes back exactly when it has the size `get_size` names. */
  lemma StaticRoundTrip(v: Abi, bytes: Bytes)
    requires Fits(v) && IsStatic(v) && Spurious(v) == 0
    ensures (SetBytes(v, bytes).Some? && Fits(SetBytes(v, bytes).value) && Encode(SetBytes(v, bytes).value) == bytes)
       <==> |bytes| == GetSize(v)
  {
    if |bytes| == GetSize(v) {
      StaticSetThenGet(v, bytes);
    } else if SetBytes(v, bytes).Some? && Fits(SetBytes(v, bytes).value) {
      SetLength(v, bytes);
    }
  }

  /** What was set is as long as the value it was set into. */
  lemma {:induction false} SetLength(v: Abi, bytes: Bytes)
    requires Fits(v) && IsStatic(v) && Spurious(v) == 0
    requires SetBytes(v, bytes).Some? && Fits(SetBytes(v, bytes).value)
    ensures |Encode(SetBytes(v, bytes).value)| == GetSize(v)
    decreases v
  {
    match v
    case Array(items, _) =>
      SetStaticArray(items, bytes, false);
      SetNeedsBytes(items, bytes, 0);
      ItemsSetThenGet(items, bytes, 0);
      SetStaticArray(items, bytes, false);
      var items1 := SetStatic(items, bytes, 0).value;
      HeadsHold(items1, HeadSize(items1), 0);
    case Unknown(concrete) => SetLength(concrete, bytes);
    case _ =>
  }

  lemma {:induction false} SetNeedsBytes(items: seq<Abi>, bytes: Bytes, offset: nat)
    requires AllStatic(items) && offset <= |bytes|
    requires SetStatic(items, bytes, offset).Some?
    ensures |bytes| >= offset + GetSizes(items)
    decreases items
  {
    if items != [] {
      SetNeedsBytes(items[1..], bytes, offset + GetSize(items[0]));
    }
  }

  /** The encoding of a dynamic array whose components hold `bytes`. */
  lemma ListHolds(items: seq<Abi>)
    requires Fits(Array(items, true)) && AllPlain(items)
    ensures Encode(Array(items, true)) == SizeWord(|items|) + Row(items)
  {
    HeadsHold(items, HeadSize(items), 0);
  }

  lemma ListSet(items: seq<Abi>, bytes: Bytes)
    requires Fits(Array(items, true)) && AllStatic(items)
    requires |bytes| >= 32 && bytes[..32] == SizeWord(|items|) && SetStatic(items, bytes, 32).Some?
    ensures SetBytes(Array(items, true), bytes) == Some(Array(SetStatic(items, bytes, 32).value, true))
  {
    SizeWordBack(|items|);
    SetStaticArray(items, bytes, true);
  }

  lemma ListBack(items: seq<Abi>, bytes: Bytes, size: nat)
    requires Fits(Array(items, true)) && AllPlain(items)
    requires |bytes| == 32 + size && bytes[..32] == SizeWord(|items|) && bytes[32..32 + size] == Row(items)
    ensures Encode(Array(items, true)) == bytes
  {
    ListHolds(items);
    assert bytes == bytes[..32] + bytes[32..32 + size];
  }

  /** Dynamic arrays of static components: the count and the bytes of the components come back. */
  lemma ListSetThenGet(items: seq<Abi>, bytes: Bytes)
    requires Fits(Array(items, true)) && AllPlain(items)
    requires |bytes| == GetSize(Array(items, true)) && bytes[..32] == SizeWord(|items|)
    ensures var r := SetBytes(Array(items, true), bytes);
            r.Some? && Fits(r.value) && Encode(r.value) == bytes
  {
    ItemsSetThenGet(items, bytes, 32);
    var items1 := SetStatic(items, bytes, 32).value;
    ListSet(items, bytes);
    ListBack(items1, bytes, GetSizes(items));
  }

  // ---------------------------------------------------------------- encodings set into a value of their shape

  /** The same tree of components, with any data at its leaves. */
  predicate SameShape(v: Abi, w: Abi)
    decreases v
  {
    match v
    case Empty => w.Empty?
    case Word(_, _) => w.Word?
    case Dynamic(_) => w.Dynamic?
    case Array(items, dynamicSize) => w.Array? && dynamicSize == w.dynamicSize && SameShapes(items, w.items)
    case Unknown(concrete) => w.Unknown? && SameShape(concrete, w.concrete)
  }

  predicate SameShapes(items: seq<Abi>, written: seq<Abi>)
    decreases items
  {
    if items == [] then written == []
    else written != [] && SameShape(items[0], written[0]) && SameShapes(items[1..], written[1..])
  }

  predicate AllTailed(items: seq<Abi>)
    decreases items
  {
    items == [] || (!IsStatic(items[0]) && AllTailed(items[1..]))
  }

  /** No array has static components beside dynamic ones. */
  predicate Uniform(v: Abi)
    decreases v
  {
    match v
    case Array(items, _) => AllStatic(items) || (AllTailed(items) && AllUniform(items))
    case Unknown(concrete) => Uniform(concrete)
    case _ => true
  }

  predicate AllUniform(items: seq<Abi>)
    decreases items
  {
    items == [] || (Uniform(items[0]) && AllUniform(items[1..]))
  }

  /** Bytes or a string stand somewhere in the value. */
  predicate HasString(v: Abi)
    decreases v
  {
    match v
    case Dynamic(_) => true
    case Array(items, _) => AnyString(items)
    case Unknown(concrete) => HasString(concrete)
    case _ => false
  }

  predicate AnyString(items: seq<Abi>)
    decreases items
  {
    items != [] && (HasString(items[0]) || AnyString(items[1..]))
  }

  lemma {:induction false} StaticHasNoString(v: Abi)
    requires IsStatic(v)
    ensures !HasString(v)
    decreases v
  {
    match v
    case Array(items, _) => StaticsHaveNoString(items);
    case Unknown(concrete) => StaticHasNoString(concrete);
    case _ =>
  }

  lemma {:induction false} StaticsHaveNoString(items: seq<Abi>)
    requires AllStatic(items)
    ensures !AnyString(items)
    decreases items
  {
    if items != [] {
      StaticHasNoString(items[0]);
      StaticsHaveNoString(items[1..]);
    }
  }

  lemma {:induction false} ShapeSize(v: Abi, w: Abi)
    requires SameShape(v, w) && IsStatic(v)
    ensures IsStatic(w) && GetSize(v) == GetSize(w)
    decreases v
  {
    match v
    case Array(items, _) => ShapeSizes(items, w.items);
    case Unknown(concrete) => ShapeSize(concrete, w.concrete);
    case _ =>
  }

  lemma {:induction false} ShapeSizes(items: seq<Abi>, written: seq<Abi>)
    requires SameShapes(items, written) && AllStatic(items)
    ensures |written| == |items| && AllStatic(written) && GetSizes(items) == GetSizes(written)
    decreases items
  {
    if items != [] {
      ShapeSize(items[0], written[0]);
      ShapeSizes(items[1..], written[1..]);
    }
  }

  lemma {:induction false} ShapeTailed(items: seq<Abi>, written: seq<Abi>)
    requires SameShapes(items, written) && AllTailed(items)
    ensures |written| == |items| == Tailed(items) && AllTailed(written)
    decreases items
  {
    if items != [] {
      ShapeDynamic(items[0], written[0]);
      ShapeTailed(items[1..], written[1..]);
    }
  }

  lemma {:induction false} ShapeDynamic(v: Abi, w: Abi)
    requires SameShape(v, w) && !IsStatic(v)
    ensures !IsStatic(w)
    decreases v
  {
    match v
    case Array(items, dynamicSize) => if !dynamicSize { ShapesDynamic(items, w.items); }
    case Unknown(concrete) => ShapeDynamic(concrete, w.concrete);
    case _ =>
  }

  lemma {:induction false} ShapesDynamic(items: seq<Abi>, written: seq<Abi>)
    requires SameShapes(items, written) && !AllStatic(items)
    ensures !AllStatic(written)
    decreases items
  {
    if !IsStatic(items[0]) {
      ShapeDynamic(items[0], written[0]);
    } else {
      ShapesDynamic(items[1..], written[1..]);
    }
  }

  /** Where the tails of `written` start, the first one at `at`. */
  function Starts(written: seq<Abi>, at: nat): seq<nat>
    requires AllFit(written)
    decreases written
  {
    if written == [] then [] else [at] + Starts(written[1..], at + |Encode(written[0])|)
  }

  lemma FirstTailStart(items: seq<Abi>, bytes: Bytes, head: nat, start: U64)
    requires items != [] && !IsStatic(items[0]) && head <= |bytes| && SizeWord(start) <= bytes[head..]
    ensures TailStarts(items, bytes, head) == Prefixed([start], TailStarts(items[1..], bytes, head + 32))
  {
    assert bytes[head..head + 32] == bytes[head..][..32] == SizeWord(start);
    SizeWordBack(start);
  }

  lemma FirstHead(written: seq<Abi>, bytes: Bytes, headSize: nat, before: nat)
    requires written != [] && AllFit(written) && !IsStatic(written[0])
    requires Heads(written, headSize, before) <= bytes
    ensures SizeWord(headSize + before) <= bytes
    ensures Heads(written[1..], headSize, before + |Encode(written[0])|) <= bytes[32..]
  {
    var rest := Heads(written[1..], headSize, before + |Encode(written[0])|);
    assert Heads(written, headSize, before) == SizeWord(headSize + before) + rest;
  }

  /** The heads of `written`, all of them offset words, stand at `head`, and what they say fits a usize. */
  ghost predicate HeadsAt(items: seq<Abi>, written: seq<Abi>, bytes: Bytes, head: nat, headSize: nat, before: nat) {
    && SameShapes(items, written) && AllTailed(items) && AllTailed(written) && AllFit(written)
    && head <= |bytes| && Heads(written, headSize, before) <= bytes[head..]
    && headSize + before + |Tails(written)| < TWO_64
  }

  lemma NextHeadsAt(items: seq<Abi>, written: seq<Abi>, bytes: Bytes, head: nat, headSize: nat, before: nat, n: nat)
    requires HeadsAt(items, written, bytes, head, headSize, before) && items != []
    requires written != [] ==> n == |Encode(written[0])|
    ensures written != [] && headSize + before < TWO_64
    ensures HeadsAt(items[1..], written[1..], bytes, head + 32, headSize, before + n)
    ensures TailStarts(items, bytes, head) == Prefixed([headSize + before], TailStarts(items[1..], bytes, head + 32))
  {
    FirstHead(written, bytes[head..], headSize, before);
    FirstTailStart(items, bytes, head, headSize + before);
    assert bytes[head..][32..] == bytes[head + 32..];
  }

  lemma FirstStart(written: seq<Abi>, at: nat, n: nat, at1: nat)
    requires written != [] && AllFit(written) && n == |Encode(written[0])| && at1 == at + n
    ensures Starts(written, at) == [at] + Starts(written[1..], at1)
  {
  }

  /** The first loop reads the offsets that `get_bytes` wrote, provided they fit a usize. */
  lemma {:induction false} StartsRead(items: seq<Abi>, written: seq<Abi>, bytes: Bytes, head: nat, headSize: nat,
                                      before: nat)
    requires HeadsAt(items, written, bytes, head, headSize, before)
    ensures TailStarts(items, bytes, head) == Some(Starts(written, headSize + before))
    decreases items
  {
    if items != [] {
      var n := |Encode(written[0])|;
      NextHeadsAt(items, written, bytes, head, headSize, before, n);
      StartsRead(items[1..], written[1..], bytes, head + 32, headSize, before + n);
      FirstStart(written, headSize + before, n, headSize + (before + n));
    }
  }

  /** What `set_bytes` made of the encoding of `w`: the same bytes again, or more for a string. */
  ghost predicate CameBack(u: Abi, w: Abi, longer: bool)
    requires Fits(w)
  {
    Fits(u) && IsStatic(u) == IsStatic(w) && if longer then |Encode(u)| > |Encode(w)| else Encode(u) == Encode(w)
  }

  /** The same for the components of an array that are all dynamic. */
  ghost predicate AllCameBack(us: seq<Abi>, written: seq<Abi>, longer: bool)
    requires AllFit(written)
  {
    && |us| == |written| && AllFit(us) && AllTailed(us)
    && if longer then Extents(us) > Extents(written)
       else Extents(us) == Extents(written) && Tails(us) == Tails(written) && SameLengths(us, written)
  }

  ghost predicate ItemsBack(r: Option<seq<Abi>>, written: seq<Abi>, longer: bool)
    requires AllFit(written)
  {
    r.Some? && AllCameBack(r.value, written, longer)
  }

  predicate SameLengths(us: seq<Abi>, written: seq<Abi>)
    requires |us| == |written| && AllFit(us) && AllFit(written)
  {
    us == [] || (|Encode(us[0])| == |Encode(written[0])| && SameLengths(us[1..], written[1..]))
  }

  lemma {:induction false} SameHeads(us: seq<Abi>, written: seq<Abi>, headSize: nat, before: nat)
    requires |us| == |written| && AllFit(us) && AllFit(written) && AllTailed(us) && AllTailed(written)
    requires SameLengths(us, written)
    ensures Heads(us, headSize, before) == Heads(written, headSize, before)
    decreases us
  {
    if us != [] {
      SameHeads(us[1..], written[1..], headSize, before + |Tail(us[0])|);
    }
  }

  lemma {:induction false} TailedHeads(items: seq<Abi>, headSize: nat, before: nat)
    requires AllFit(items) && AllTailed(items)
    ensures HeadSize(items) == |Heads(items, headSize, before)| == 32 * |items|
    decreases items
  {
    if items != [] {
      TailedHeads(items[1..], headSize, before + |Tail(items[0])|);
    }
  }

  /** The second loop finds the first tail where `get_bytes` put it. */
  lemma FirstTail(written: seq<Abi>, bytes: Bytes, offset: nat, at: nat, tails: seq<U64>)
    requires written != [] && AllFit(written) && AllTailed(written) && tails == Starts(written, at)
    requires offset + at <= |bytes| < TWO_64 && bytes[offset + at..] == Tails(written)
    ensures TailStart(offset, tails) == offset + at && TailSize(bytes, offset, tails) == |Encode(written[0])|
    ensures offset + at + |Encode(written[0])| <= |bytes|
    ensures bytes[offset + at..offset + at + |Encode(written[0])|] == Encode(written[0])
    ensures bytes[offset + at + |Encode(written[0])|..] == Tails(written[1..])
    ensures tails[1..] == Starts(written[1..], at + |Encode(written[0])|)
  {
    var first := Encode(written[0]);
    FirstSlice(bytes, offset + at, first, Tails(written[1..]));
    FirstPlace(written, bytes, offset, at, tails, |first|);
  }

  lemma FirstSlice(bytes: Bytes, start: nat, first: Bytes, rest: Bytes)
    requires start <= |bytes| && bytes[start..] == first + rest
    ensures start + |first| <= |bytes| && |bytes| == start + |first| + |rest|
    ensures bytes[start..start + |first|] == first && bytes[start + |first|..] == rest
  {
    assert bytes[start..][..|first|] == first && bytes[start..][|first|..] == rest;
  }

  lemma FirstPlace(written: seq<Abi>, bytes: Bytes, offset: nat, at: nat, tails: seq<U64>, n: nat)
    requires written != [] && AllFit(written) && tails == Starts(written, at) && n == |Encode(written[0])|
    requires |bytes| < TWO_64 && |bytes| == offset + at + n + |Tails(written[1..])|
    ensures TailStart(offset, tails) == offset + at && TailSize(bytes, offset, tails) == n
    ensures tails[1..] == Starts(written[1..], at + n)
  {
    if |tails| == 1 {
      assert Starts(written[1..], at + n) == [] && written[1..] == [];
    } else {
      assert written[1..] != [] && tails[1] == Starts(written[1..], at + n)[0];
    }
  }

  /** The tails of `written` end `bytes`, where `tails` says, counted from `offset`. */
  ghost predicate TailsAt(items: seq<Abi>, written: seq<Abi>, bytes: Bytes, offset: nat, at: nat, tails: seq<U64>) {
    && AllWritable(items, written) && AllTailed(items) && AllTailed(written) && AllUniform(items)
    && |tails| == Tailed(items) && tails == Starts(written, at)
    && offset + at <= |bytes| < TWO_64 && bytes[offset + at..] == Tails(written)
  }

  lemma NextTailsAt(items: seq<Abi>, written: seq<Abi>, bytes: Bytes, offset: nat, at: nat, tails: seq<U64>,
                    piece: Bytes)
    requires items != [] && TailsAt(items, written, bytes, offset, at, tails)
    requires written != [] && Fits(written[0]) ==> piece == Encode(written[0])
    ensures written != [] && Writable(items[0], written[0]) && Uniform(items[0]) && |piece| < TWO_64
    ensures TailsAt(items[1..], written[1..], bytes, offset, at + |piece|, tails[1..])
  {
    FirstWritable(items, written);
    FirstTail(written, bytes, offset, at, tails);
  }

  lemma SetFirstTail(items: seq<Abi>, written: seq<Abi>, bytes: Bytes, offset: nat, at: nat, tails: seq<U64>, u: Abi)
    requires items != [] && written != [] && TailsAt(items, written, bytes, offset, at, tails)
    requires SetBytes(items[0], Encode(written[0])) == Some(u)
    ensures |tails[1..]| == Tailed(items[1..])
    ensures SetItems(items, bytes, offset, tails) == Prefixed([u], SetItems(items[1..], bytes, offset, tails[1..]))
  {
    var piece := Encode(written[0]);
    FirstTail(written, bytes, offset, at, tails);
    FirstTailedSet(items, bytes, offset, tails, offset + at, |piece|, piece, u);
  }

  lemma {:induction false} ItemsComeBack(items: seq<Abi>, written: seq<Abi>, bytes: Bytes, offset: nat, at: nat,
                                         tails: seq<U64>)
    requires TailsAt(items, written, bytes, offset, at, tails)
    ensures ItemsBack(SetItems(items, bytes, offset, tails), written, AnyString(items))
    decreases items, 0
  {
    if items != [] {
      var piece := Encode(written[0]);
      NextTailsAt(items, written, bytes, offset, at, tails, piece);
      ComesBackOrGrows(items[0], written[0]);
      ItemsComeBack(items[1..], written[1..], bytes, offset, at + |piece|, tails[1..]);
      var u := SetBytes(items[0], piece).value;
      SetFirstTail(items, written, bytes, offset, at, tails, u);
      OneMoreBack(u, SetItems(items[1..], bytes, offset, tails[1..]), written, HasString(items[0]),
                  AnyString(items[1..]));
    }
  }

  lemma {:induction false} LengthsMatch(us: seq<Abi>, written: seq<Abi>)
    requires |us| == |written| && AllFit(us) && AllFit(written) && AllTailed(us) && AllTailed(written)
    requires SameLengths(us, written)
    ensures Extents(us) == Extents(written)
  {
    if us != [] {
      LengthsMatch(us[1..], written[1..]);
    }
  }

  lemma OneMoreBack(u: Abi, rest: Option<seq<Abi>>, written: seq<Abi>, longer: bool, longers: bool)
    requires written != [] && AllFit(written) && AllTailed(written)
    requires CameBack(u, written[0], longer) && ItemsBack(rest, written[1..], longers)
    ensures ItemsBack(Prefixed([u], rest), written, longer || longers)
  {
    var us := [u] + rest.value;
    assert us[1..] == rest.value;
    assert Extents(us) == Extent(u) + Extents(rest.value);
    assert Tails(us) == Encode(u) + Tails(rest.value);
  }

  /** Valid values of one shape, none with a component that encodes to nothing. */
  ghost predicate Writable(v: Abi, w: Abi) {
    SameShape(v, w) && Fits(v) && Fits(w) && Spurious(v) == 0 && Spurious(w) == 0
  }

  ghost predicate AllWritable(items: seq<Abi>, written: seq<Abi>) {
    && SameShapes(items, written) && AllFit(items) && AllFit(written)
    && SpuriousIn(items) == 0 && SpuriousIn(written) == 0
  }

  lemma FirstWritable(items: seq<Abi>, written: seq<Abi>)
    requires items != [] && AllWritable(items, written)
    ensures written != [] && Writable(items[0], written[0]) && AllWritable(items[1..], written[1..])
  {
  }

  /** The three parts of an array's encoding whose components are all dynamic. */
  lemma TailedParts(written: seq<Abi>, dynamicSize: bool, bytes: Bytes, start: nat, headSize: nat)
    requires Fits(Array(written, dynamicSize)) && AllTailed(written)
    requires bytes == Encode(Array(written, dynamicSize))
    requires start == (if dynamicSize then 32 else 0) && headSize == HeadSize(written)
    ensures start + headSize <= |bytes| == start + headSize + |Tails(written)|
    ensures dynamicSize ==> bytes[..32] == SizeWord(|written|)
    ensures Heads(written, headSize, 0) <= bytes[start..] && bytes[start + headSize..] == Tails(written)
  {
    var count := if dynamicSize then SizeWord(|written|) else [];
    TailedHeads(written, headSize, 0);
    assert bytes == count + Heads(written, headSize, 0) + Tails(written);
  }

  lemma ArraySet(items: seq<Abi>, dynamicSize: bool, bytes: Bytes, start: nat, tails: seq<U64>, us: seq<Abi>)
    requires start == (if dynamicSize then 32 else 0) && |items| < TWO_64
    requires dynamicSize ==> |bytes| >= 32 && bytes[..32] == SizeWord(|items|)
    requires TailStarts(items, bytes, start) == Some(tails) && SetItems(items, bytes, start, tails) == Some(us)
    ensures SetBytes(Array(items, dynamicSize), bytes) == Some(Array(us, dynamicSize))
  {
    SizeWordBack(|items|);
  }

  lemma TailedArray(items: seq<Abi>, written: seq<Abi>, dynamicSize: bool, bytes: Bytes)
    requires Writable(Array(items, dynamicSize), Array(written, dynamicSize)) && AllTailed(items) && AllUniform(items)
    requires bytes == Encode(Array(written, dynamicSize)) && |bytes| < TWO_64
    ensures var r := SetBytes(Array(items, dynamicSize), bytes);
            r.Some? && CameBack(r.value, Array(written, dynamicSize), AnyString(items))
    decreases items, 1
  {
    var start: nat := if dynamicSize then 32 else 0;
    var headSize := HeadSize(written);
    ShapeTailed(items, written);
    TailedParts(written, dynamicSize, bytes, start, headSize);
    StartsRead(items, written, bytes, start, headSize, 0);
    var tails: seq<U64> := TailStarts(items, bytes, start).value;
    ItemsComeBack(items, written, bytes, start, headSize, tails);
    var us := SetItems(items, bytes, start, tails).value;
    ArraySet(items, dynamicSize, bytes, start, tails, us);
    SameArray(us, written, dynamicSize, AnyString(items));
  }

  lemma SameArray(us: seq<Abi>, written: seq<Abi>, dynamicSize: bool, longer: bool)
    requires Fits(Array(written, dynamicSize)) && AllTailed(written) && AllCameBack(us, written, longer)
    ensures CameBack(Array(us, dynamicSize), Array(written, dynamicSize), longer)
  {
    ArrayLength(us, dynamicSize);
    ArrayLength(written, dynamicSize);
    TailedHeads(us, 0, 0);
    TailedHeads(written, 0, 0);
    if !longer {
      SameHeads(us, written, HeadSize(us), 0);
    }
  }

  lemma {:induction false} ComesBackOrGrows(v: Abi, w: Abi)
    requires Writable(v, w) && Uniform(v) && |Encode(w)| < TWO_64
    ensures var r := SetBytes(v, Encode(w)); r.Some? && CameBack(r.value, w, HasString(v))
    decreases v, 2
  {
    if IsStatic(v) {
      ShapeSize(v, w);
      StaticLength(w);
      StaticSetThenGet(v, Encode(w));
      StaticHasNoString(v);
    } else {
      match v
      case Dynamic(_) => assert |EncodeDynamic(Encode(w))| >= 32 + |Encode(w)|;
      case Array(items, dynamicSize) =>
        if AllStatic(items) {
          ListComesBack(items, w.items);
        } else {
          TailedArray(items, w.items, dynamicSize, Encode(w));
        }
      case Unknown(concrete) => ComesBackOrGrows(concrete, w.concrete);
    }
  }

  lemma ListComesBack(items: seq<Abi>, written: seq<Abi>)
    requires Writable(Array(items, true), Array(written, true)) && AllStatic(items)
    ensures var r := SetBytes(Array(items, true), Encode(Array(written, true)));
            r.Some? && CameBack(r.value, Array(written, true), AnyString(items))
  {
    ShapeSizes(items, written);
    StaticLengths(written, HeadSize(written), 0);
    StaticsHaveNoString(items);
    var bytes := Encode(Array(written, true));
    assert bytes[..32] == SizeWord(|written|);
    ListSetThenGet(items, bytes);
    SizeWordBack(|items|);
    SetStaticArray(items, bytes, true);
  }

  /**
    The bytes `get_bytes` writes for a value of the shape of `v`, set into `v`,
    are got back exactly when no bytes or string component is in it.
   */
  lemma EncodingComesBack(v: Abi, w: Abi)
    requires Writable(v, w) && Uniform(v) && |Encode(w)| < TWO_64
    ensures var r := SetBytes(v, Encode(w));
            r.Some? && Fits(r.value) && (Encode(r.value) == Encode(w) <==> !HasString(v))
  {
    ComesBackOrGrows(v, w);
  }

  lemma FirstOfPair(items: seq<Abi>, rest: seq<Abi>, headSize: nat)
    requires items != [] && rest == items[1..] && AllFit(items) && !IsStatic(items[0])
    ensures AllFit(rest) && HeadSize(items) == 32 + HeadSize(rest)
    ensures Heads(items, headSize, 0) == SizeWord(headSize) + Heads(rest, headSize, |Encode(items[0])|)
    ensures Tails(items) == Encode(items[0]) + Tails(rest)
  {
  }

  /** The encoding of a pair of a dynamic component and a word behind it. */
  lemma PairEncoding(d: Abi, x: Abi)
    requires Fits(Array([d, x], false)) && Fits(d) && !IsStatic(d) && Fits(x) && x.Word?
    ensures Encode(Array([d, x], false)) == SizeWord(64) + Encode(x) + Encode(d)
  {
    var items, rest := [d, x], [x];
    assert rest == items[1..];
    LastWord(x, 64, |Encode(d)|);
    FirstOfPair(items, rest, 64);
    PairJoined(items, Encode(x), Encode(d));
  }

  lemma PairJoined(items: seq<Abi>, x: Bytes, d: Bytes)
    requires Fits(Array(items, false)) && HeadSize(items) == 64
    requires Heads(items, 64, 0) == SizeWord(64) + x && Tails(items) == d + []
    ensures Encode(Array(items, false)) == SizeWord(64) + x + d
  {
    assert [] + Heads(items, 64, 0) == Heads(items, 64, 0);
  }

  lemma LastWord(x: Abi, headSize: nat, before: nat)
    requires Fits(x) && x.Word?
    ensures AllFit([x]) && HeadSize([x]) == 32
    ensures Heads([x], headSize, before) == Encode(x) && Tails([x]) == []
  {
    assert [x][1..] == [];
  }

  lemma PairSet(d: Abi, x: Abi, bytes: Bytes, tail: Bytes)
    requires !IsStatic(d) && x.Word? && |bytes| < TWO_64
    requires |bytes| >= 64 && bytes[..32] == SizeWord(64) && bytes[64..] == tail && SetBytes(d, tail).Some?
    ensures SetBytes(Array([d, x], false), bytes)
         == Some(Array([SetBytes(d, tail).value, Word(SizeWord(64), x.isAddress)], false))
  {
    var items, u, y := [d, x], SetBytes(d, tail).value, Word(SizeWord(64), x.isAddress);
    assert items[1..] == [x] && [x][1..] == [];
    assert bytes[0..] == bytes;
    FirstTailStart(items, bytes, 0, 64);
    LastWordSet(x, bytes);
    var tails: seq<U64> := [64];
    assert [64] + [] == tails && tails[1..] == [] && [u, y] == [u] + [y];
    assert bytes[64..64 + |tail|] == tail;
    FirstTailedSet(items, bytes, 0, tails, 64, |tail|, tail, u);
    ArraySet(items, false, bytes, 0, tails, [u] + [y]);
  }

  lemma LastWordSet(x: Abi, bytes: Bytes)
    requires x.Word? && |bytes| >= 32
    ensures Tailed([x]) == 0 && TailStarts([x], bytes, 32) == Some([])
    ensures SetItems([x], bytes, 0, []) == Some([Word(bytes[..32], x.isAddress)])
  {
    var items := [x];
    assert items[1..] == [] && bytes[0..32] == bytes[..32];
    assert Tailed(items[1..]) == 0;
    var word := Word(bytes[..32], x.isAddress);
    FirstStaticSet(items, bytes, 0, [], bytes[..32], word);
    assert [word] + [] == [word];
  }

  /**
    A word behind a dynamic component is taken from the wrong place: it gets
    the offset word, so that the pair's encoding comes back exactly if that is
    the word, and the dynamic component comes back by itself.
   */
  lemma PairComesBack(d: Abi, x: Abi)
    requires Writable(d, d) && Uniform(d) && !IsStatic(d) && Fits(x) && x.Word?
    requires Fits(Array([d, x], false)) && |Encode(Array([d, x], false))| < TWO_64
    ensures var pair := Array([d, x], false);
            var r := SetBytes(pair, Encode(pair));
            && r.Some? && Fits(r.value)
            && (Encode(r.value) == Encode(pair) <==> !HasString(d) && Encode(x) == SizeWord(64))
  {
    var bytes, y := Encode(Array([d, x], false)), Word(SizeWord(64), x.isAddress);
    PairEncoding(d, x);
    ComesBackOrGrows(d, d);
    var u := SetBytes(d, Encode(d)).value;
    PairPieces(SizeWord(64), Encode(x), Encode(d));
    PairSet(d, x, bytes, Encode(d));
    PairFits(u, y);
    PairEncoding(u, y);
    assert Encode(y) == Zeros(0) + SizeWord(64) == SizeWord(64);
    SamePair(SizeWord(64), Encode(x), Encode(d), Encode(y), Encode(u));
  }

  lemma PairPieces(a: Bytes, b: Bytes, c: Bytes)
    requires |a| == |b| == 32
    ensures (a + b + c)[..32] == a && (a + b + c)[64..] == c
  {
  }

  lemma SamePair(a: Bytes, b: Bytes, c: Bytes, b1: Bytes, c1: Bytes)
    requires |b| == |b1|
    ensures a + b + c == a + b1 + c1 <==> b == b1 && c == c1
  {
    var n := |a| + |b|;
    if a + b + c == a + b1 + c1 {
      assert b == (a + b + c)[|a|..n] && b1 == (a + b1 + c1)[|a|..n];
      assert c == (a + b + c)[n..] && c1 == (a + b1 + c1)[n..];
    }
  }

  lemma PairFits(u: Abi, y: Abi)
    requires Fits(u) && Fits(y)
    ensures Fits(Array([u, y], false))
  {
    var items := [u, y];
    assert items[1..] == [y] && items[1..][1..] == [];
    assert AllFit(items[1..]);
  }

  /** The encoding of a string never comes back: `set_bytes` takes the size word for data. */
  lemma DynamicNeverComesBack(data: Bytes)
    ensures var r := SetBytes(Dynamic(data), Encode(Dynamic(data)));
            r.Some? && Encode(r.value) != Encode(Dynamic(data))
  {
  }
}
