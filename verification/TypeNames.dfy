/**
  ABI type strings (src/evm/abi.rs, src/evm/contract_utils.rs): how they are
  printed from JSON, split at top-level commas and parsed to default values.
  `None` stands for the panics of the source.
 */
module TypeNames {
  import opened Words
  import opened Abi

  // ---------------------------------------------------------------- splitting

  function DepthAfter(c: char, depth: int): int {
    if c == '(' then depth + 1 else if c == ')' then depth - 1 else depth
  }

  function SplitFrom(s: string, current: string, depth: int): seq<string>
    decreases s
  {
    if s == "" then [current]
    else
      var depth1 := DepthAfter(s[0], depth);
      if s[0] == ',' && depth1 == 0 then [current] + SplitFrom(s[1..], "", depth1)
      else SplitFrom(s[1..], current + [s[0]], depth1)
  }

  /** The text between the commas outside all parentheses. */
  function Split(s: string): seq<string> {
    SplitFrom(s, "", 0)
  }

  /** `split_with_parenthesis`. */
  method SplitWithParenthesis(s: string) returns (result: seq<string>)
    ensures result == Split(s) && Join(result) == s
  {
    result := [];
    var current := "";
    var parenthesis := 0;
    for i := 0 to |s|
      invariant Split(s) == result + SplitFrom(s[i..], current, parenthesis)
    {
      var c := s[i];
      assert s[i..][1..] == s[i + 1..];
      if c == '(' {
        parenthesis := parenthesis + 1;
      } else if c == ')' {
        parenthesis := parenthesis - 1;
      }
      if c == ',' && parenthesis == 0 {
        result := result + [current];
        current := "";
      } else {
        current := current + [c];
      }
    }
    result := result + [current];
    JoinSplitFrom(s, "", 0);
  }

  function Join(pieces: seq<string>): string {
    if pieces == [] then ""
    else if |pieces| == 1 then pieces[0]
    else pieces[0] + "," + Join(pieces[1..])
  }

  /** Joining gives back whatever was split. */
  lemma {:induction false} JoinSplitFrom(s: string, current: string, depth: int)
    ensures SplitFrom(s, current, depth) != [] && Join(SplitFrom(s, current, depth)) == current + s
    decreases s
  {
    if s == "" {
      assert current + s == current;
    } else {
      var depth1 := DepthAfter(s[0], depth);
      if s[0] == ',' && depth1 == 0 {
        JoinSplitFrom(s[1..], "", depth1);
        var rest := SplitFrom(s[1..], "", depth1);
        assert ([current] + rest)[1..] == rest;
        assert current + "," + s[1..] == current + s;
      } else {
        JoinSplitFrom(s[1..], current + [s[0]], depth1);
        assert current + [s[0]] + s[1..] == current + s;
      }
    }
  }

  /** From `depth` on: no comma outside parentheses, and back to depth 0 at the end if `closed`. */
  predicate Whole(p: string, depth: int, closed: bool)
    decreases p
  {
    if p == "" then closed ==> depth == 0
    else !(p[0] == ',' && depth == 0) && Whole(p[1..], DepthAfter(p[0], depth), closed)
  }

  /** Pieces that commas can join without loss: all whole, only the last may leave parentheses open. */
  predicate Joinable(pieces: seq<string>) {
    pieces != [] && Whole(pieces[0], 0, |pieces| > 1) && (|pieces| > 1 ==> Joinable(pieces[1..]))
  }

  lemma {:induction false} SplitOffWhole(p: string, rest: string, current: string, depth: int)
    requires Whole(p, depth, true)
    ensures SplitFrom(p + "," + rest, current, depth) == [current + p] + SplitFrom(rest, "", 0)
    decreases p
  {
    if p == "" {
      assert p + "," + rest == "," + rest && ("," + rest)[1..] == rest && current + p == current;
    } else {
      assert (p + "," + rest)[1..] == p[1..] + "," + rest;
      SplitOffWhole(p[1..], rest, current + [p[0]], DepthAfter(p[0], depth));
      assert current + [p[0]] + p[1..] == current + p;
    }
  }

  lemma {:induction false} SplitLast(p: string, current: string, depth: int)
    requires Whole(p, depth, false)
    ensures SplitFrom(p, current, depth) == [current + p]
    decreases p
  {
    if p == "" {
      assert current + p == current;
    } else {
      SplitLast(p[1..], current + [p[0]], DepthAfter(p[0], depth));
      assert current + [p[0]] + p[1..] == current + p;
    }
  }

  lemma {:induction false} SplitJoin(pieces: seq<string>)
    requires Joinable(pieces)
    ensures Split(Join(pieces)) == pieces
    decreases |pieces|
  {
    if |pieces| == 1 {
      SplitLast(pieces[0], "", 0);
      assert "" + pieces[0] == pieces[0];
    } else {
      SplitOffWhole(pieces[0], Join(pieces[1..]), "", 0);
      SplitJoin(pieces[1..]);
      assert "" + pieces[0] == pieces[0] && [pieces[0]] + pieces[1..] == pieces;
    }
  }

  /** `current` was scanned from depth 0 to `depth` without a split. */
  lemma {:induction false} WholeAppend(p: string, c: char, depth: int, end: int)
    requires Whole(p, depth, false) && LevelAfter(p, depth) == end && !(c == ',' && end == 0)
    ensures Whole(p + [c], depth, false) && LevelAfter(p + [c], depth) == DepthAfter(c, end)
    decreases p
  {
    if p == "" {
      assert p + [c] == [c] && [c][1..] == "";
    } else {
      assert (p + [c])[1..] == p[1..] + [c];
      WholeAppend(p[1..], c, DepthAfter(p[0], depth), end);
    }
  }

  function LevelAfter(p: string, depth: int): int
    decreases p
  {
    if p == "" then depth else LevelAfter(p[1..], DepthAfter(p[0], depth))
  }

  lemma {:induction false} WholeIsClosed(p: string, depth: int)
    requires Whole(p, depth, false)
    ensures Whole(p, depth, true) <==> LevelAfter(p, depth) == 0
    decreases p
  {
    if p != "" {
      WholeIsClosed(p[1..], DepthAfter(p[0], depth));
    }
  }

  lemma {:induction false} SplitIsJoinable(s: string, current: string, depth: int)
    requires Whole(current, 0, false) && LevelAfter(current, 0) == depth
    ensures Joinable(SplitFrom(s, current, depth))
    decreases s
  {
    WholeIsClosed(current, 0);
    if s != "" {
      var depth1 := DepthAfter(s[0], depth);
      if s[0] == ',' && depth1 == 0 {
        SplitIsJoinable(s[1..], "", depth1);
        var rest := SplitFrom(s[1..], "", depth1);
        assert ([current] + rest)[1..] == rest;
      } else {
        WholeAppend(current, s[0], 0, depth);
        SplitIsJoinable(s[1..], current + [s[0]], depth1);
      }
    }
  }

  /** Splitting inverts joining exactly on joinable lists. */
  lemma SplitInvertsJoin(pieces: seq<string>)
    ensures Split(Join(pieces)) == pieces <==> Joinable(pieces)
  {
    if Joinable(pieces) {
      SplitJoin(pieces);
    } else {
      SplitIsJoinable(Join(pieces), "", 0);
    }
  }

  // ---------------------------------------------------------------- numbers

  function Digit(d: nat): char
    requires d < 10
  {
    ('0' as int + d) as char
  }

  function Decimal(n: nat): string {
    if n < 10 then [Digit(n)] else Decimal(n / 10) + [Digit(n % 10)]
  }

  function ParseDigits(s: string): Option<nat> {
    if s == "" then Some(0)
    else
      var c := s[|s| - 1];
      if !('0' <= c <= '9') then None
      else
        var high :- ParseDigits(s[..|s| - 1]);
        Some(high * 10 + (c as int - '0' as int))
  }

  /** `parse::<usize>`: a plus sign is allowed, and at least one digit needed. */
  function ParseUsize(s: string): Option<nat> {
    var digits := if s != "" && s[0] == '+' then s[1..] else s;
    if digits == "" then None
    else
      var n :- ParseDigits(digits);
      if n < TWO_64 then Some(n) else None
  }

  lemma {:induction false} DecimalParses(n: nat)
    ensures ParseDigits(Decimal(n)) == Some(n)
    ensures |Decimal(n)| > 0 && '0' <= Decimal(n)[0] <= '9'
    decreases n
  {
    if n >= 10 {
      DecimalParses(n / 10);
      assert Decimal(n)[..|Decimal(n)| - 1] == Decimal(n / 10);
    } else {
      assert [Digit(n)][..0] == "";
    }
  }

  lemma DecimalIsUsize(n: nat)
    requires n < TWO_64
    ensures ParseUsize(Decimal(n)) == Some(n)
  {
    DecimalParses(n);
  }

  // ---------------------------------------------------------------- parsing

  predicate StartsWith(s: string, t: string) {
    |t| <= |s| && s[..|t|] == t
  }

  predicate EndsWith(s: string, t: string) {
    |t| <= |s| && s[|s| - |t|..] == t
  }

  /** Where `c` stands last, or -1. */
  function LastIndex(s: string, c: char): int {
    if s == "" then -1 else if s[|s| - 1] == c then |s| - 1 else LastIndex(s[..|s| - 1], c)
  }

  lemma {:induction false} LastIndexBounds(s: string, c: char)
    ensures -1 <= LastIndex(s, c) < |s|
  {
    if s != "" {
      LastIndexBounds(s[..|s| - 1], c);
    }
  }

  /** The text before the first `c`. */
  function Before(s: string, c: char): string {
    if s == "" || s[0] == c then "" else [s[0]] + Before(s[1..], c)
  }

  function ZeroWord(length: nat): Abi {
    Word(Zeros(length), false)
  }

  function BitsWord(digits: string): Option<Abi> {
    var bits :- ParseUsize(digits);
    if bits % 8 == 0 && bits >= 8 then Some(ZeroWord(bits / 8)) else None
  }

  /** `get_abi_type_basic`. */
  function BasicType(name: string, address: Option<Bytes>): Option<Abi> {
    if name == "uint" || name == "int" then Some(ZeroWord(32))
    else if name == "address" then Some(Word(if address.Some? then address.value else Zeros(20), true))
    else if name == "bool" then Some(ZeroWord(1))
    else if name == "bytes" || name == "string" then Some(Dynamic([]))
    else if StartsWith(name, "uint") then BitsWord(name[4..])
    else if StartsWith(name, "int") then BitsWord(name[3..])
    else if name == "unknown" then Some(Unknown(ZeroWord(32)))
    else if StartsWith(name, "bytes") then
      var length :- ParseUsize(name[5..]);
      Some(ZeroWord(length))
    else if name == "" then Some(Empty)
    else None
  }

  predicate AllShorter(pieces: seq<string>, n: nat) {
    pieces == [] || (|pieces[0]| <= n && AllShorter(pieces[1..], n))
  }

  lemma {:induction false} SplitShorter(s: string, current: string, depth: int, n: nat)
    requires |current| + |s| <= n
    ensures AllShorter(SplitFrom(s, current, depth), n)
    decreases s
  {
    if s != "" {
      var depth1 := DepthAfter(s[0], depth);
      if s[0] == ',' && depth1 == 0 {
        SplitShorter(s[1..], "", depth1, n);
        var rest := SplitFrom(s[1..], "", depth1);
        assert ([current] + rest)[1..] == rest;
      } else {
        SplitShorter(s[1..], current + [s[0]], depth1, n);
      }
    }
  }

  /** `get_abi_type`; each recursive call is on a shorter string. */
  function AbiType(name: string, address: Option<Bytes>): Option<Abi>
    decreases |name|, 0, 0
  {
    if name == "()" then Some(Empty)
    else if StartsWith(name, "(") && EndsWith(name, ")") then
      assert name[..1][0] == '(' && name[|name| - 1..][0] == ')';
      var inner := name[1..|name| - 1];
      SplitShorter(inner, "", 0, |inner|);
      var items :- AbiTypes(Split(inner), address, |inner|);
      Some(Array(items, false))
    else if EndsWith(name, "[]") then
      var item :- AbiType(name[..|name| - 2], address);
      Some(Array([item], true))
    else if EndsWith(name, "]") && LastIndex(name, '[') >= 0 then
      LastIndexBounds(name, '[');
      var i := LastIndex(name, '[');
      var length :- ParseUsize(Before(name[i + 1..], ']'));
      var item :- AbiType(name[..i], address);
      Some(Array(seq(length, _ => item), false))
    else BasicType(name, address)
  }

  function AbiTypes(names: seq<string>, address: Option<Bytes>, n: nat): Option<seq<Abi>>
    requires AllShorter(names, n)
    decreases n, 1, |names|
  {
    if names == [] then Some([])
    else
      var item :- AbiType(names[0], address);
      var items :- AbiTypes(names[1..], address, n);
      Some([item] + items)
  }

  // ---------------------------------------------------------------- printed types

  datatype TypeName =
    | UintType(bits: nat)
    | IntType(bits: nat)
    | AddressType
    | BoolType
    | BytesType
    | FixedBytesType(length: nat)
    | StringType
    | TupleOf(types: seq<TypeName>)
    | ListOf(element: TypeName)
    | ArrayOf(element: TypeName, length: nat)

  function Print(t: TypeName): string
    decreases t
  {
    match t
    case UintType(bits) => "uint" + Decimal(bits)
    case IntType(bits) => "int" + Decimal(bits)
    case AddressType => "address"
    case BoolType => "bool"
    case BytesType => "bytes"
    case FixedBytesType(length) => "bytes" + Decimal(length)
    case StringType => "string"
    case TupleOf(types) => "(" + Join(PrintAll(types)) + ")"
    case ListOf(element) => Print(element) + "[]"
    case ArrayOf(element, length) => Print(element) + "[" + Decimal(length) + "]"
  }

  function PrintAll(types: seq<TypeName>): (r: seq<string>)
    ensures |r| == |types|
    decreases types
  {
    if types == [] then [] else [Print(types[0])] + PrintAll(types[1..])
  }

  /** The value a type string stands for: a list has one element, and words have the width of the type. */
  function Default(t: TypeName, address: Option<Bytes>): Abi
    decreases t
  {
    match t
    case UintType(bits) => ZeroWord(bits / 8)
    case IntType(bits) => ZeroWord(bits / 8)
    case AddressType => Word(if address.Some? then address.value else Zeros(20), true)
    case BoolType => ZeroWord(1)
    case BytesType => Dynamic([])
    case FixedBytesType(length) => ZeroWord(length)
    case StringType => Dynamic([])
    case TupleOf(types) => Array(Defaults(types, address), false)
    case ListOf(element) => Array([Default(element, address)], true)
    case ArrayOf(element, length) =>
      var item := Default(element, address);
      Array(seq(length, _ => item), false)
  }

  function Defaults(types: seq<TypeName>, address: Option<Bytes>): seq<Abi>
    decreases types
  {
    if types == [] then [] else [Default(types[0], address)] + Defaults(types[1..], address)
  }

  /** Widths are whole bytes, tuples are not empty, and numbers fit a usize. */
  predicate Proper(t: TypeName)
    decreases t
  {
    match t
    case UintType(bits) => bits % 8 == 0 && 8 <= bits < TWO_64
    case IntType(bits) => bits % 8 == 0 && 8 <= bits < TWO_64
    case FixedBytesType(length) => length < TWO_64
    case TupleOf(types) => types != [] && AllProper(types)
    case ListOf(element) => Proper(element)
    case ArrayOf(element, length) => Proper(element) && length < TWO_64
    case _ => true
  }

  predicate AllProper(types: seq<TypeName>)
    decreases types
  {
    types == [] || (Proper(types[0]) && AllProper(types[1..]))
  }

  // ---------------------------------------------------------------- printed types are balanced

  /** Parentheses close from `depth` to 0, never below, and commas stand inside them only. */
  predicate Balanced(p: string, depth: nat)
    decreases p
  {
    if p == "" then depth == 0
    else if p[0] == '(' then Balanced(p[1..], depth + 1)
    else if p[0] == ')' then depth > 0 && Balanced(p[1..], depth - 1)
    else (p[0] == ',' ==> depth > 0) && Balanced(p[1..], depth)
  }

  lemma {:induction false} BalancedThen(p: string, rest: string, depth: nat, outer: nat)
    requires Balanced(p, depth)
    ensures Balanced(p + rest, depth + outer) <==> Balanced(rest, outer)
    decreases p
  {
    if p == "" {
      assert p + rest == rest;
    } else {
      assert (p + rest)[1..] == p[1..] + rest;
      var depth1 := if p[0] == '(' then depth + 1 else if p[0] == ')' then depth - 1 else depth;
      BalancedThen(p[1..], rest, depth1, outer);
    }
  }

  lemma {:induction false} BalancedIsWhole(p: string, depth: nat)
    requires Balanced(p, depth)
    ensures Whole(p, depth, true) && Whole(p, depth, false)
    decreases p
  {
    if p != "" {
      BalancedIsWhole(p[1..], DepthAfter(p[0], depth));
    }
  }

  /** Letters, digits and square brackets only. */
  predicate Flat(p: string) {
    '(' !in p && ')' !in p && ',' !in p
  }

  lemma {:induction false} FlatIsBalanced(p: string)
    requires Flat(p)
    ensures Balanced(p, 0)
  {
    if p != "" {
      assert p == [p[0]] + p[1..];
      FlatIsBalanced(p[1..]);
    }
  }

  lemma {:induction false} DecimalIsFlat(n: nat)
    ensures Flat(Decimal(n))
    decreases n
  {
    if n >= 10 {
      DecimalIsFlat(n / 10);
    }
  }

  lemma NumberedIsBalanced(prefix: string, n: nat)
    requires Flat(prefix)
    ensures Balanced(prefix + Decimal(n), 0)
  {
    DecimalIsFlat(n);
    FlatIsBalanced(prefix + Decimal(n));
  }

  lemma ListIsBalanced(element: string)
    requires Balanced(element, 0)
    ensures Balanced(element + "[]", 0)
  {
    FlatIsBalanced("[]");
    BalancedThen(element, "[]", 0, 0);
  }

  lemma ArrayIsBalanced(element: string, length: nat)
    requires Balanced(element, 0)
    ensures Balanced(element + "[" + Decimal(length) + "]", 0)
  {
    var brackets := "[" + Decimal(length) + "]";
    DecimalIsFlat(length);
    FlatIsBalanced(brackets);
    BalancedThen(element, brackets, 0, 0);
    assert element + brackets == element + "[" + Decimal(length) + "]";
  }

  lemma TupleIsBalanced(inner: string)
    requires Balanced(inner + ")", 1) <==> Balanced(")", 1)
    ensures Balanced("(" + inner + ")", 0)
  {
    assert ("(" + inner + ")")[1..] == inner + ")";
    assert ")"[1..] == "";
  }

  lemma {:induction false} PrintIsBalanced(t: TypeName)
    ensures Balanced(Print(t), 0) && Print(t) != ""
    decreases t, 0
  {
    match t
    case UintType(bits) => NumberedIsBalanced("uint", bits);
    case IntType(bits) => NumberedIsBalanced("int", bits);
    case FixedBytesType(length) => NumberedIsBalanced("bytes", length);
    case TupleOf(types) =>
      JoinIsBalanced(types, ")");
      TupleIsBalanced(Join(PrintAll(types)));
    case ListOf(element) =>
      PrintIsBalanced(element);
      ListIsBalanced(Print(element));
    case ArrayOf(element, length) =>
      PrintIsBalanced(element);
      ArrayIsBalanced(Print(element), length);
    case _ => FlatIsBalanced(Print(t));
  }

  lemma OneMorePiece(first: string, rest: string)
    requires Balanced(first, 0)
    ensures Balanced(first + "," + rest, 1) <==> Balanced(rest, 1)
  {
    BalancedThen(first, "," + rest, 0, 1);
    assert first + ("," + rest) == first + "," + rest;
    assert ("," + rest)[1..] == rest;
  }

  /** Inside a pair of parentheses the joined pieces leave the depth as it is. */
  lemma {:induction false} JoinIsBalanced(types: seq<TypeName>, rest: string)
    ensures Balanced(Join(PrintAll(types)) + rest, 1) <==> Balanced(rest, 1)
    decreases types
  {
    if types == [] {
      assert Join(PrintAll(types)) + rest == rest;
    } else {
      PrintIsBalanced(types[0]);
      var first, others := Print(types[0]), PrintAll(types[1..]);
      assert PrintAll(types)[1..] == others;
      if |types| == 1 {
        BalancedThen(first, rest, 0, 1);
      } else {
        assert Join(PrintAll(types)) + rest == first + "," + (Join(others) + rest);
        OneMorePiece(first, Join(others) + rest);
        JoinIsBalanced(types[1..], rest);
      }
    }
  }

  lemma {:induction false} PrintedAreJoinable(types: seq<TypeName>)
    requires types != []
    ensures Joinable(PrintAll(types))
    decreases |types|
  {
    PrintIsBalanced(types[0]);
    BalancedIsWhole(Print(types[0]), 0);
    assert PrintAll(types)[1..] == PrintAll(types[1..]);
    if |types| > 1 {
      PrintedAreJoinable(types[1..]);
    }
  }

  // ---------------------------------------------------------------- parsing inverts printing

  lemma DecimalLast(n: nat)
    ensures '0' <= Decimal(n)[|Decimal(n)| - 1] <= '9'
  {
    if n >= 10 {
      assert Decimal(n)[|Decimal(n)| - 1] == Digit(n % 10);
    }
  }

  /** Where `t` starts or ends `s`, so do its characters. */
  lemma FirstAndLast(s: string, t: string)
    requires t != ""
    ensures StartsWith(s, t) ==> s != "" && s[0] == t[0]
    ensures EndsWith(s, t) ==> s != "" && s[|s| - 1] == t[|t| - 1]
  {
    if EndsWith(s, t) {
      assert s[|s| - 1] == s[|s| - |t|..][|t| - 1];
    }
  }

  /** A name that ends in a letter or digit and does not start with a parenthesis is a basic one. */
  lemma BasicName(name: string, address: Option<Bytes>)
    requires name != "" && name[0] != '(' && name[|name| - 1] != ']'
    ensures AbiType(name, address) == BasicType(name, address)
  {
    FirstAndLast(name, "(");
    FirstAndLast(name, "[]");
    FirstAndLast(name, "]");
  }

  lemma NumberedName(prefix: string, n: nat, address: Option<Bytes>)
    requires prefix != "" && prefix[0] != '('
    ensures AbiType(prefix + Decimal(n), address) == BasicType(prefix + Decimal(n), address)
    ensures (prefix + Decimal(n))[|prefix|..] == Decimal(n)
    ensures |prefix + Decimal(n)| > |prefix|
  {
    DecimalLast(n);
    DecimalParses(n);
    BasicName(prefix + Decimal(n), address);
  }

  lemma UintPrefix(digits: string)
    ensures StartsWith("uint" + digits, "uint") && ("uint" + digits)[0] == 'u' && ("uint" + digits)[1] == 'i'
  {
    assert ("uint" + digits)[..4] == "uint";
  }

  lemma IntPrefix(digits: string)
    ensures StartsWith("int" + digits, "int") && !StartsWith("int" + digits, "uint") && ("int" + digits)[0] == 'i'
  {
    assert ("int" + digits)[..3] == "int";
    FirstAndLast("int" + digits, "uint");
  }

  lemma BytesPrefix(digits: string)
    ensures StartsWith("bytes" + digits, "bytes") && ("bytes" + digits)[0] == 'b' && ("bytes" + digits)[1] == 'y'
    ensures !StartsWith("bytes" + digits, "uint") && !StartsWith("bytes" + digits, "int")
  {
    assert ("bytes" + digits)[..5] == "bytes";
    FirstAndLast("bytes" + digits, "uint");
    FirstAndLast("bytes" + digits, "int");
  }

  lemma UintParses(bits: nat, address: Option<Bytes>)
    requires Proper(UintType(bits))
    ensures AbiType("uint" + Decimal(bits), address) == Some(ZeroWord(bits / 8))
  {
    NumberedName("uint", bits, address);
    DecimalIsUsize(bits);
    UintPrefix(Decimal(bits));
  }

  lemma IntParses(bits: nat, address: Option<Bytes>)
    requires Proper(IntType(bits))
    ensures AbiType("int" + Decimal(bits), address) == Some(ZeroWord(bits / 8))
  {
    NumberedName("int", bits, address);
    DecimalIsUsize(bits);
    IntPrefix(Decimal(bits));
  }

  lemma FixedBytesParses(length: nat, address: Option<Bytes>)
    requires length < TWO_64
    ensures AbiType("bytes" + Decimal(length), address) == Some(ZeroWord(length))
  {
    NumberedName("bytes", length, address);
    DecimalIsUsize(length);
    BytesPrefix(Decimal(length));
  }

  lemma PlainParses(t: TypeName, address: Option<Bytes>)
    requires t.AddressType? || t.BoolType? || t.BytesType? || t.StringType?
    ensures AbiType(Print(t), address) == Some(Default(t, address))
  {
    BasicName(Print(t), address);
  }

  lemma TupleName(inner: string, address: Option<Bytes>)
    requires inner != ""
    ensures AllShorter(Split(inner), |inner|)
    ensures AbiType("(" + inner + ")", address)
         == var items := AbiTypes(Split(inner), address, |inner|); if items.None? then None
           else Some(Array(items.value, false))
  {
    var name := "(" + inner + ")";
    SplitShorter(inner, "", 0, |inner|);
    assert name[..1] == "(" && name[|name| - 1..] == ")" && name[1..|name| - 1] == inner;
  }

  lemma ListSuffix(element: string)
    ensures var name := element + "[]";
            && name != "()" && name != "tuple" && !EndsWith(name, ")") && EndsWith(name, "[]")
              && name[..|name| - 2] == element
  {
    var name := element + "[]";
    assert name[|name| - 2..] == "[]" && name[|name| - 1] == ']';
    FirstAndLast(name, ")");
  }

  lemma ListName(element: string, address: Option<Bytes>)
    ensures AbiType(element, address).None? ==> AbiType(element + "[]", address).None?
    ensures AbiType(element, address).Some? ==>
              AbiType(element + "[]", address) == Some(Array([AbiType(element, address).value], true))
  {
    ListSuffix(element);
  }

  lemma {:induction false} LastBracket(s: string, digits: string)
    requires ParseDigits(digits).Some?
    ensures LastIndex(s + "[" + digits, '[') == |s|
    decreases |digits|
  {
    var t := s + "[" + digits;
    if digits == "" {
      assert t == s + "[";
    } else {
      var n := |digits| - 1;
      assert t[..|t| - 1] == s + "[" + digits[..n];
      LastBracket(s, digits[..n]);
    }
  }

  lemma {:induction false} BeforeBracket(digits: string)
    requires ParseDigits(digits).Some?
    ensures Before(digits + "]", ']') == digits
    decreases |digits|
  {
    if digits == "" {
      assert digits + "]" == "]";
    } else {
      DigitsTail(digits);
      assert (digits + "]")[1..] == digits[1..] + "]";
      BeforeBracket(digits[1..]);
    }
  }

  lemma {:induction false} DigitsTail(digits: string)
    requires digits != "" && ParseDigits(digits).Some?
    ensures '0' <= digits[0] <= '9' && ParseDigits(digits[1..]).Some?
    decreases |digits|
  {
    if |digits| > 1 {
      var n := |digits| - 1;
      DigitsTail(digits[..n]);
      assert digits[..n][1..] == digits[1..][..n - 1];
    }
  }

  /** A bracketed number ends a name, and is no empty pair of brackets. */
  lemma NumberInBrackets(element: string, length: nat)
    ensures var name := element + "[" + Decimal(length) + "]";
            name != "()" && !EndsWith(name, ")") && !EndsWith(name, "[]") && EndsWith(name, "]") && name != "tuple"
  {
    var name := element + "[" + Decimal(length) + "]";
    var n := |name| - 1;
    DecimalLast(length);
    DecimalParses(length);
    assert name[n] == ']' && name[n - 1] == Decimal(length)[|Decimal(length)| - 1] && name[n..] == "]";
    FirstAndLast(name, ")");
    assert name[n - 1..] == [name[n - 1], ']'];
  }

  lemma ArraySuffix(element: string, length: nat)
    requires length < TWO_64
    ensures var name := element + "[" + Decimal(length) + "]";
            && LastIndex(name, '[') == |element| && name[..|element|] == element
            && ParseUsize(Before(name[|element| + 1..], ']')) == Some(length)
  {
    var digits := Decimal(length);
    var name := element + "[" + digits + "]";
    DecimalIsUsize(length);
    DecimalParses(length);
    LastBracket(element, digits);
    BeforeBracket(digits);
    assert name[..|name| - 1] == element + "[" + digits;
    assert name[|element| + 1..] == digits + "]";
  }

  lemma ArrayName(element: string, length: nat, address: Option<Bytes>)
    requires length < TWO_64
    ensures AbiType(element, address).None? ==> AbiType(element + "[" + Decimal(length) + "]", address).None?
    ensures AbiType(element, address).Some? ==>
              AbiType(element + "[" + Decimal(length) + "]", address)
              == Some(Array(seq(length, _ => AbiType(element, address).value), false))
  {
    ArraySuffix(element, length);
    NumberInBrackets(element, length);
  }

  /** Type strings round-trip: a printed type parses to the value of exactly its shape. */
  lemma {:induction false} ParseInvertsPrint(t: TypeName, address: Option<Bytes>)
    requires Proper(t)
    ensures AbiType(Print(t), address) == Some(Default(t, address))
    decreases t, 0
  {
    match t
    case UintType(bits) => UintParses(bits, address);
    case IntType(bits) => IntParses(bits, address);
    case FixedBytesType(length) => FixedBytesParses(length, address);
    case TupleOf(types) =>
      var names := PrintAll(types);
      var inner := Join(names);
      PrintedAreJoinable(types);
      SplitJoin(names);
      JoinNotEmpty(types);
      TupleName(inner, address);
      ParseAllInvertsPrint(types, address, |inner|);
    case ListOf(element) =>
      ParseInvertsPrint(element, address);
      ListName(Print(element), address);
    case ArrayOf(element, length) =>
      ParseInvertsPrint(element, address);
      ArrayName(Print(element), length, address);
    case _ => PlainParses(t, address);
  }

  lemma JoinNotEmpty(types: seq<TypeName>)
    requires types != []
    ensures Join(PrintAll(types)) != ""
  {
    PrintIsBalanced(types[0]);
    if |types| == 1 {
      assert Join(PrintAll(types)) == Print(types[0]);
    }
  }

  lemma {:induction false} ParseAllInvertsPrint(types: seq<TypeName>, address: Option<Bytes>, n: nat)
    requires AllProper(types) && AllShorter(PrintAll(types), n)
    ensures AbiTypes(PrintAll(types), address, n) == Some(Defaults(types, address))
    decreases types
  {
    if types != [] {
      ParseInvertsPrint(types[0], address);
      assert PrintAll(types)[1..] == PrintAll(types[1..]);
      ParseAllInvertsPrint(types[1..], address, n);
    }
  }

  // ---------------------------------------------------------------- from JSON

  /** A parameter of a JSON ABI: its type, and its components if it has any. */
  datatype Json = Leaf(ty: string) | Compound(ty: string, components: seq<Json>)

  /** `process_input`. */
  function ProcessInput(ty: string, input: Json): Option<string>
    decreases input, |ty|
  {
    if input.Leaf? then Some(ty)
    else if ty == "tuple" then
      var names :- ProcessAll(input.components);
      Some("(" + Join(names) + ")")
    else if EndsWith(ty, "[]") then
      var name :- ProcessInput(ty[..|ty| - 2], input);
      Some(name + "[]")
    else None
  }

  function ProcessAll(inputs: seq<Json>): Option<seq<string>>
    decreases inputs
  {
    if inputs == [] then Some([])
    else
      var name :- ProcessInput(inputs[0].ty, inputs[0]);
      var names :- ProcessAll(inputs[1..]);
      Some([name] + names)
  }

  /** How a compiler describes a type in JSON. */
  function Describe(t: TypeName): Json
    decreases t
  {
    match t
    case TupleOf(types) => Compound("tuple", DescribeAll(types))
    case ListOf(element) => Describe(element).(ty := Describe(element).ty + "[]")
    case ArrayOf(element, length) => Describe(element).(ty := Describe(element).ty + "[" + Decimal(length) + "]")
    case _ => Leaf(Print(t))
  }

  function DescribeAll(types: seq<TypeName>): seq<Json>
    decreases types
  {
    if types == [] then [] else [Describe(types[0])] + DescribeAll(types[1..])
  }

  /** The element type under all array brackets is a tuple. */
  predicate OfTuples(t: TypeName)
    decreases t
  {
    match t
    case TupleOf(_) => true
    case ListOf(element) => OfTuples(element)
    case ArrayOf(element, _) => OfTuples(element)
    case _ => false
  }

  /** No array of fixed length is made of tuples, at any depth. */
  predicate Supported(t: TypeName)
    decreases t
  {
    match t
    case TupleOf(types) => AllSupported(types)
    case ListOf(element) => Supported(element)
    case ArrayOf(element, _) => Supported(element) && !OfTuples(element)
    case _ => true
  }

  predicate AllSupported(types: seq<TypeName>)
    decreases types
  {
    types == [] || (Supported(types[0]) && AllSupported(types[1..]))
  }

  lemma {:induction false} ComponentsOfTuples(t: TypeName)
    ensures Describe(t).Compound? <==> OfTuples(t)
    ensures !OfTuples(t) ==> Describe(t).ty == Print(t) && Supported(t)
    decreases t
  {
    match t
    case ListOf(element) => ComponentsOfTuples(element);
    case ArrayOf(element, _) => ComponentsOfTuples(element);
    case _ =>
  }

  /** The components decide, not the type that stands beside them. */
  lemma {:induction false} SameComponents(ty: string, a: Json, b: Json)
    requires a.Compound? && b.Compound? && a.components == b.components
    ensures ProcessInput(ty, a) == ProcessInput(ty, b)
    decreases |ty|
  {
    if ty != "tuple" && EndsWith(ty, "[]") {
      SameComponents(ty[..|ty| - 2], a, b);
    }
  }

  /** A description is printed as its type, except that arrays of fixed length of tuples panic. */
  lemma {:induction false} ProcessIsPrint(t: TypeName)
    ensures ProcessInput(Describe(t).ty, Describe(t)) == if Supported(t) then Some(Print(t)) else None
    decreases t
  {
    ComponentsOfTuples(t);
    match t
    case TupleOf(types) => ProcessAllIsPrint(types);
    case ListOf(element) =>
      if OfTuples(element) {
        ComponentsOfTuples(element);
        ProcessIsPrint(element);
        SameComponents(Describe(element).ty, Describe(element), Describe(t));
        ListDescription(Describe(element).ty, Describe(t));
      }
    case ArrayOf(element, length) =>
      if OfTuples(element) {
        ArrayDescription(Describe(element).ty, length, Describe(t));
      }
    case _ =>
  }

  lemma ListDescription(ty: string, input: Json)
    requires input.Compound?
    ensures ProcessInput(ty, input).None? ==> ProcessInput(ty + "[]", input).None?
    ensures ProcessInput(ty, input).Some? ==>
              ProcessInput(ty + "[]", input) == Some(ProcessInput(ty, input).value + "[]")
  {
    ListSuffix(ty);
  }

  lemma ArrayDescription(ty: string, length: nat, input: Json)
    requires input.Compound?
    ensures ProcessInput(ty + "[" + Decimal(length) + "]", input) == None
  {
    NumberInBrackets(ty, length);
  }

  lemma {:induction false} ProcessAllIsPrint(types: seq<TypeName>)
    ensures ProcessAll(DescribeAll(types)) == if AllSupported(types) then Some(PrintAll(types)) else None
    decreases types
  {
    if types != [] {
      ProcessIsPrint(types[0]);
      assert DescribeAll(types)[1..] == DescribeAll(types[1..]);
      ProcessAllIsPrint(types[1..]);
    }
  }

  /** From JSON to the value: what `process_input` prints, `get_abi_type` reads. */
  lemma JsonToValue(t: TypeName, address: Option<Bytes>)
    requires Proper(t) && Supported(t)
    ensures var name := ProcessInput(Describe(t).ty, Describe(t));
            name.Some? && AbiType(name.value, address) == Some(Default(t, address))
  {
    ProcessIsPrint(t);
    ParseInvertsPrint(t, address);
  }
}
