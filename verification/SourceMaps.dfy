/**
  Source maps (src/evm/srcmap/parser.rs): entries separated by semicolons, fields
  by colons, a field left out when it repeats the one before (Source Mappings
  section of the Solidity documentation). `None` stands for a panic.
 */
module SourceMaps {
  import opened Words
  import opened TypeNames

  datatype Location = Location(file: Option<string>, offset: nat, length: nat)

  const DEFAULT_LOCATION := Location(None, 0, 0)

  // ---------------------------------------------------------------- separators

  function SplitAt(s: string, separator: char, current: string): seq<string>
    decreases s
  {
    if s == "" then [current]
    else if s[0] == separator then [current] + SplitAt(s[1..], separator, "")
    else SplitAt(s[1..], separator, current + [s[0]])
  }

  function JoinWith(pieces: seq<string>, separator: char): string {
    if pieces == [] then ""
    else if |pieces| == 1 then pieces[0]
    else pieces[0] + [separator] + JoinWith(pieces[1..], separator)
  }

  predicate Free(s: string, separator: char) {
    s == "" || (s[0] != separator && Free(s[1..], separator))
  }

  predicate AllFree(pieces: seq<string>, separator: char) {
    pieces == [] || (Free(pieces[0], separator) && AllFree(pieces[1..], separator))
  }

  lemma {:induction false} SplitPiece(p: string, rest: string, separator: char, current: string)
    requires Free(p, separator)
    ensures SplitAt(p, separator, current) == [current + p]
    ensures SplitAt(p + [separator] + rest, separator, current) == [current + p] + SplitAt(rest, separator, "")
    decreases p
  {
    if p == "" {
      assert p + [separator] + rest == [separator] + rest && ([separator] + rest)[1..] == rest
        && current + p == current;
    } else {
      assert (p + [separator] + rest)[1..] == p[1..] + [separator] + rest;
      SplitPiece(p[1..], rest, separator, current + [p[0]]);
      assert current + [p[0]] + p[1..] == current + p;
    }
  }

  lemma {:induction false} SplitJoined(pieces: seq<string>, separator: char)
    requires pieces != [] && AllFree(pieces, separator)
    ensures SplitAt(JoinWith(pieces, separator), separator, "") == pieces
    decreases |pieces|
  {
    assert "" + pieces[0] == pieces[0];
    if |pieces| == 1 {
      SplitPiece(pieces[0], "", separator, "");
    } else {
      SplitPiece(pieces[0], JoinWith(pieces[1..], separator), separator, "");
      SplitJoined(pieces[1..], separator);
      assert [pieces[0]] + pieces[1..] == pieces;
    }
  }

  // ---------------------------------------------------------------- uncompressing

  predicate Has(parts: seq<string>, field: nat) {
    |parts| > field && parts[field] != ""
  }

  /** A number, or the number before it when it is missing or malformed; there is none before the first. */
  function NumberOr(parts: seq<string>, field: nat, previous: Option<nat>): Option<nat> {
    if Has(parts, field) && ParseUsize(parts[field]).Some? then ParseUsize(parts[field]) else previous
  }

  function FileAt(text: string, files: seq<string>): Option<string> {
    var index := ParseUsize(text);
    if index.Some? && index.value < |files| then Some(files[index.value]) else None
  }

  /** One entry, given the location before it. */
  function Uncompressed(parts: seq<string>, files: seq<string>, previous: Option<Location>): Option<Location> {
    var complete := Has(parts, 0) && Has(parts, 1) && Has(parts, 2) && Has(parts, 3);
    if previous.None? && !complete then Some(DEFAULT_LOCATION)
    else
      var offset :- NumberOr(parts, 0, if previous.None? then None else Some(previous.value.offset));
      var length :- NumberOr(parts, 1, if previous.None? then None else Some(previous.value.length));
      if Has(parts, 2) then Some(Location(FileAt(parts[2], files), offset, length))
      else if previous.Some? then Some(Location(previous.value.file, offset, length))
      else None
  }

  function UncompressFrom(entries: seq<string>, files: seq<string>, previous: Option<Location>): Option<seq<Location>> {
    if entries == [] then Some([])
    else
      var first :- Uncompressed(SplitAt(entries[0], ':', ""), files, previous);
      var rest :- UncompressFrom(entries[1..], files, Some(first));
      Some([first] + rest)
  }

  function Uncompress(map_: string, files: seq<string>): Option<seq<Location>> {
    UncompressFrom(SplitAt(map_, ';', ""), files, None)
  }

  /** `uncompress_srcmap_single`. */
  method UncompressSrcmapSingle(map_: string, files: seq<string>) returns (r: Option<seq<Location>>)
    ensures r == Uncompress(map_, files)
  {
    var results: seq<Location> := [];
    var entries := SplitAt(map_, ';', "");
    ghost var whole := UncompressFrom(entries, files, None);
    assert whole.Some? ==> [] + whole.value == whole.value;
    for counter := 0 to |entries|
      invariant |results| == counter
      invariant Uncompress(map_, files)
             == var rest := UncompressFrom(entries[counter..], files, if counter == 0 then None
                                           else Some(results[counter - 1]));
                if rest.None? then None else Some(results + rest.value)
    {
      var parts := SplitAt(entries[counter], ':', "");
      var previous := if counter == 0 then None else Some(results[counter - 1]);
      var next := UncompressOne(parts, files, previous);
      if next.None? {
        return None;
      }
      ghost var rest := UncompressFrom(entries[counter + 1..], files, Some(next.value));
      assert entries[counter..][1..] == entries[counter + 1..];
      assert rest.Some? ==> results + ([next.value] + rest.value) == results + [next.value] + rest.value;
      results := results + [next.value];
    }
    assert results + [] == results;
    return Some(results);
  }

  /** The body of its loop. */
  method UncompressOne(parts: seq<string>, files: seq<string>, previous: Option<Location>) returns (r: Option<Location>)
    ensures r == Uncompressed(parts, files, previous)
  {
    var hasOffset := |parts| > 0 && parts[0] != "";
    var hasLength := |parts| > 1 && parts[1] != "";
    var hasFile := |parts| > 2 && parts[2] != "";
    var hasJump := |parts| > 3 && parts[3] != "";
    var hasEverything := hasOffset && hasLength && hasFile && hasJump;
    if previous.None? && !hasEverything {
      return Some(DEFAULT_LOCATION);
    }
    var file: Option<string>;
    if hasFile {
      file := FileAt(parts[2], files);
    } else {
      file := previous.value.file;
    }
    var offset: nat;
    if hasOffset && ParseUsize(parts[0]).Some? {
      offset := ParseUsize(parts[0]).value;
    } else {
      if previous.None? {
        return None;
      }
      offset := previous.value.offset;
    }
    var length: nat;
    if hasLength && ParseUsize(parts[1]).Some? {
      length := ParseUsize(parts[1]).value;
    } else {
      if previous.None? {
        return None;
      }
      length := previous.value.length;
    }
    return Some(Location(file, offset, length));
  }

  // ---------------------------------------------------------------- compression

  /** A mapping: start, length, source index or -1, jump kind, modifier depth. */
  datatype Mapping = Mapping(offset: nat, length: nat, source: int, jump: string, depth: nat)

  predicate Valid(m: Mapping) {
    && m.offset < TWO_64 && m.length < TWO_64 && -1 <= m.source < TWO_64
    && m.jump in {"i", "o", "-"}
  }

  predicate AllValid(mappings: seq<Mapping>) {
    mappings == [] || (Valid(mappings[0]) && AllValid(mappings[1..]))
  }

  function PrintSource(source: int): string
    requires source >= -1
  {
    if source == -1 then "-1" else Decimal(source)
  }

  function Fields(m: Mapping): seq<string>
    requires Valid(m)
  {
    [Decimal(m.offset), Decimal(m.length), PrintSource(m.source), m.jump, Decimal(m.depth)]
  }

  function LocationOf(m: Mapping, files: seq<string>): Location
    requires Valid(m)
  {
    Location(if 0 <= m.source < |files| then Some(files[m.source]) else None, m.offset, m.length)
  }

  function Locations(mappings: seq<Mapping>, files: seq<string>): seq<Location>
    requires AllValid(mappings)
  {
    if mappings == [] then [] else [LocationOf(mappings[0], files)] + Locations(mappings[1..], files)
  }

  /** Any way to write `m` after `previous`: a field may be empty, and the last ones missing, when they repeat. */
  predicate Compresses(parts: seq<string>, m: Mapping, previous: Mapping)
    requires Valid(m) && Valid(previous)
  {
    && 1 <= |parts| <= 5
    && (forall k | 0 <= k < |parts| ::
          parts[k] == Fields(m)[k] || (parts[k] == "" && Fields(m)[k] == Fields(previous)[k]))
    && (forall k | |parts| <= k < 5 :: Fields(m)[k] == Fields(previous)[k])
  }

  /** The first mapping is written out; the modifier depth may be missing, as older compilers leave it. */
  predicate WrittenOut(parts: seq<string>, m: Mapping)
    requires Valid(m)
  {
    parts == Fields(m) || parts == Fields(m)[..4]
  }

  predicate AllCompress(entries: seq<seq<string>>, mappings: seq<Mapping>, previous: Mapping)
    requires AllValid(mappings) && Valid(previous)
  {
    if mappings == [] then entries == []
    else
      && entries != [] && Compresses(entries[0], mappings[0], previous)
      && AllCompress(entries[1..], mappings[1..], mappings[0])
  }

  function Texts(entries: seq<seq<string>>): seq<string> {
    if entries == [] then [] else [JoinWith(entries[0], ':')] + Texts(entries[1..])
  }

  // ---------------------------------------------------------------- fields hold no separators

  predicate Digits(s: string) {
    s == "" || ('0' <= s[0] <= '9' && Digits(s[1..]))
  }

  lemma {:induction false} DigitsAppend(s: string, c: char)
    requires Digits(s) && '0' <= c <= '9'
    ensures Digits(s + [c])
  {
    if s == "" {
      assert s + [c] == [c] && [c][1..] == "";
    } else {
      assert (s + [c])[1..] == s[1..] + [c];
      DigitsAppend(s[1..], c);
    }
  }

  lemma {:induction false} DecimalIsDigits(n: nat)
    ensures Digits(Decimal(n))
    decreases n
  {
    if n < 10 {
      assert [Digit(n)][1..] == "";
    } else {
      DecimalIsDigits(n / 10);
      DigitsAppend(Decimal(n / 10), Digit(n % 10));
    }
  }

  lemma {:induction false} DigitsAreFree(s: string)
    requires Digits(s)
    ensures Free(s, ':') && Free(s, ';')
  {
    if s != "" {
      DigitsAreFree(s[1..]);
    }
  }

  lemma FieldIsFree(m: Mapping, k: nat)
    requires Valid(m) && k < 5
    ensures Free(Fields(m)[k], ':') && Free(Fields(m)[k], ';') && Fields(m)[k] != ""
  {
    DecimalIsDigits(m.offset);
    DecimalIsDigits(m.length);
    DecimalIsDigits(m.depth);
    DecimalParses(m.offset);
    DecimalParses(m.length);
    DecimalParses(m.depth);
    if m.source >= 0 {
      DecimalIsDigits(m.source);
      DecimalParses(m.source);
      DigitsAreFree(Decimal(m.source));
    }
    DigitsAreFree(Decimal(m.offset));
    DigitsAreFree(Decimal(m.length));
    DigitsAreFree(Decimal(m.depth));
    assert "-1"[1..] == "1" && "1"[1..] == "" && "i"[1..] == "" && "o"[1..] == "" && "-"[1..] == "";
  }

  lemma {:induction false} AllAreFree(parts: seq<string>)
    requires forall k | 0 <= k < |parts| :: Free(parts[k], ':') && Free(parts[k], ';')
    ensures AllFree(parts, ':')
    ensures Free(JoinWith(parts, ':'), ';')
  {
    if parts != [] {
      AllAreFree(parts[1..]);
      if |parts| > 1 {
        FreeJoin(parts[0], JoinWith(parts[1..], ':'));
      }
    }
  }

  lemma {:induction false} FreeJoin(p: string, q: string)
    requires Free(p, ';') && Free(q, ';')
    ensures Free(p + ":" + q, ';')
  {
    if p == "" {
      assert (p + ":" + q)[1..] == q;
    } else {
      assert (p + ":" + q)[1..] == p[1..] + ":" + q;
      FreeJoin(p[1..], q);
    }
  }

  /** Parts that stand for fields are read back from their text. */
  lemma PartsBack(parts: seq<string>, m: Mapping)
    requires Valid(m) && 1 <= |parts| <= 5
    requires forall k | 0 <= k < |parts| :: parts[k] == Fields(m)[k] || parts[k] == ""
    ensures SplitAt(JoinWith(parts, ':'), ':', "") == parts && Free(JoinWith(parts, ':'), ';')
  {
    forall k | 0 <= k < |parts|
      ensures Free(parts[k], ':') && Free(parts[k], ';')
    {
      FieldIsFree(m, k);
    }
    AllAreFree(parts);
    SplitJoined(parts, ':');
  }

  // ---------------------------------------------------------------- uncompressing inverts compression

  lemma {:induction false} DecimalInjective(m: nat, n: nat)
    requires Decimal(m) == Decimal(n)
    ensures m == n
  {
    DecimalParses(m);
    DecimalParses(n);
  }

  lemma SourceText(source: int, files: seq<string>)
    requires -1 <= source < TWO_64
    ensures FileAt(PrintSource(source), files) == if 0 <= source < |files| then Some(files[source]) else None
    ensures PrintSource(source) != ""
  {
    if source >= 0 {
      DecimalIsUsize(source);
      DecimalParses(source);
    } else {
      assert "-1"[..1] == "-" && ParseDigits("-").None?;
    }
  }

  /** Fields that repeat stand for equal numbers and files. */
  lemma SameField(m: Mapping, previous: Mapping, k: nat)
    requires Valid(m) && Valid(previous) && k < 3 && Fields(m)[k] == Fields(previous)[k]
    ensures k == 0 ==> m.offset == previous.offset
    ensures k == 1 ==> m.length == previous.length
    ensures k == 2 ==> m.source == previous.source
  {
    match k
    case 0 => DecimalInjective(m.offset, previous.offset);
    case 1 => DecimalInjective(m.length, previous.length);
    case 2 =>
      if m.source >= 0 {
        DecimalParses(m.source);
      }
      if previous.source >= 0 {
        DecimalParses(previous.source);
      }
      if m.source >= 0 && previous.source >= 0 {
        DecimalInjective(m.source, previous.source);
      }
  }

  /** The number of field `k` comes out whether it was written or left out. */
  lemma NumberBack(parts: seq<string>, m: Mapping, previous: Mapping, k: nat)
    requires Valid(m) && Valid(previous) && Compresses(parts, m, previous) && k < 2
    ensures k == 0 ==> NumberOr(parts, 0, Some(previous.offset)) == Some(m.offset)
    ensures k == 1 ==> NumberOr(parts, 1, Some(previous.length)) == Some(m.length)
  {
    DecimalIsUsize(m.offset);
    DecimalIsUsize(m.length);
    if !Has(parts, k) {
      FieldIsFree(m, k);
      SameField(m, previous, k);
    }
  }

  lemma EntryBack(parts: seq<string>, m: Mapping, previous: Mapping, files: seq<string>)
    requires Valid(m) && Valid(previous) && Compresses(parts, m, previous)
    ensures Uncompressed(parts, files, Some(LocationOf(previous, files))) == Some(LocationOf(m, files))
  {
    NumberBack(parts, m, previous, 0);
    NumberBack(parts, m, previous, 1);
    SourceText(m.source, files);
    if !Has(parts, 2) {
      FieldIsFree(m, 2);
      SameField(m, previous, 2);
    }
  }

  lemma FirstBack(parts: seq<string>, m: Mapping, files: seq<string>)
    requires Valid(m) && WrittenOut(parts, m)
    ensures Uncompressed(parts, files, None) == Some(LocationOf(m, files))
  {
    assert forall k | 0 <= k < 4 :: parts[k] == Fields(m)[k];
    FieldIsFree(m, 0);
    FieldIsFree(m, 1);
    FieldIsFree(m, 3);
    SourceText(m.source, files);
    DecimalIsUsize(m.offset);
    DecimalIsUsize(m.length);
  }

  lemma {:induction false} EntriesBack(entries: seq<seq<string>>, mappings: seq<Mapping>, previous: Mapping,
                                       files: seq<string>)
    requires AllValid(mappings) && Valid(previous) && AllCompress(entries, mappings, previous)
    ensures UncompressFrom(Texts(entries), files, Some(LocationOf(previous, files))) == Some(Locations(mappings, files))
    ensures AllFree(Texts(entries), ';')
    decreases |mappings|
  {
    if mappings != [] {
      PartsBack(entries[0], mappings[0]);
      EntryBack(entries[0], mappings[0], previous, files);
      EntriesBack(entries[1..], mappings[1..], mappings[0], files);
      assert Texts(entries)[1..] == Texts(entries[1..]);
    }
  }

  /** Uncompressing gives back every mapping, however its repeated fields were left out. */
  lemma UncompressInverts(entries: seq<seq<string>>, mappings: seq<Mapping>, files: seq<string>)
    requires mappings != [] && AllValid(mappings) && entries != []
    requires WrittenOut(entries[0], mappings[0]) && AllCompress(entries[1..], mappings[1..], mappings[0])
    ensures Uncompress(JoinWith(Texts(entries), ';'), files) == Some(Locations(mappings, files))
  {
    var texts := Texts(entries);
    PartsBack(entries[0], mappings[0]);
    FirstBack(entries[0], mappings[0], files);
    EntriesBack(entries[1..], mappings[1..], mappings[0], files);
    assert texts[1..] == Texts(entries[1..]);
    SplitJoined(texts, ';');
  }
}
