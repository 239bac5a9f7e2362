// yEnc articles: yenc of internal/adversarial/generate.go, and a decoder for the public yEnc
// format.
module Yenc {
  import opened Text
  import opened Wrappers

  predicate Critical(v: byte) {
    v == 0 || v == LF || v == CR || v == EQUALS
  }

  // One byte of data: shifted by 42, and escaped when the shifted byte is critical.
  function Coded(raw: byte): seq<byte> {
    var v: byte := (raw as int + 42) % 256;
    if Critical(v) then [EQUALS, (v as int + 64) % 256] else [v]
  }

  // The lines of data, from column col on, without the last line end.
  function Lines(data: seq<byte>, col: nat): seq<byte> {
    if |data| == 0 then []
    else if col >= 126 then CRLF + Coded(data[0]) + Lines(data[1..], |Coded(data[0])|)
    else Coded(data[0]) + Lines(data[1..], col + |Coded(data[0])|)
  }

  datatype Part = Single | Numbered(part: int, total: int, begin: int, size: int)

  // The text of the first line up to the name.
  function BeginText(length: nat, p: Part): string {
    match p
    case Single => "=ybegin line=128 size=" + Decimal(length) + " name="
    case Numbered(part, total, _, size) =>
      "=ybegin part=" + Signed(part) + (" total=" + Signed(total) + (" line=128 size=" + Signed(size) + " name="))
  }

  // The second line of a numbered part.
  function PartText(length: nat, begin: int): string {
    "=ypart begin=" + Signed(begin) + (" end=" + Signed(begin + length - 1))
  }

  function Header(name: seq<byte>, length: nat, p: Part): seq<byte> {
    Bytes(BeginText(length, p)) + name + CRLF +
    if p.Single? then [] else Bytes(PartText(length, p.begin)) + CRLF
  }

  function EndText(length: nat, checksum: uint32, p: Part): string {
    match p
    case Single => "=yend size=" + Decimal(length) + (" crc32=" + Hex8(checksum))
    case Numbered(part, _, _, _) =>
      "=yend size=" + Decimal(length) + (" part=" + Signed(part) + (" pcrc32=" + Hex8(checksum)))
  }

  function Trailer(length: nat, checksum: uint32, p: Part): seq<byte> {
    Bytes(EndText(length, checksum, p)) + CRLF
  }

  function Article(name: seq<byte>, data: seq<byte>, p: Part, checksum: uint32): seq<byte> {
    Header(name, |data|, p) + Lines(data, 0) + CRLF + Trailer(|data|, checksum, p)
  }

  lemma LinesStep(data: seq<byte>, i: nat, col: nat)
    requires i < |data|
    ensures var start := if col >= 126 then 0 else col;
            Lines(data[i..], col) ==
              (if col >= 126 then CRLF else []) + (Coded(data[i]) + Lines(data[i + 1..], start + |Coded(data[i])|))
  {
    var start := if col >= 126 then 0 else col;
    var rest := data[i..];
    assert rest[0] == data[i] && rest[1..] == data[i + 1..];
    LinesUnfold(rest, col);
    Grouped(if col >= 126 then CRLF else [], Coded(data[i]), Lines(data[i + 1..], start + |Coded(data[i])|));
  }

  lemma LinesUnfold(data: seq<byte>, col: nat)
    requires |data| > 0
    ensures var start := if col >= 126 then 0 else col;
            Lines(data, col) ==
              (if col >= 126 then CRLF else []) + Coded(data[0]) + Lines(data[1..], start + |Coded(data[0])|)
  {
    hide Coded;
    assert [] + Coded(data[0]) == Coded(data[0]);
  }

  lemma Grouped(a: seq<byte>, b: seq<byte>, c: seq<byte>)
    ensures a + b + c == a + (b + c)
  {
  }

  lemma CodedIs(raw: byte)
    ensures var v: byte := (raw as int + 42) % 256;
            Coded(raw) ==
              if v == 0 || v == 10 || v == 13 || v == EQUALS then [EQUALS, (v as int + 64) % 256] else [v]
  {
  }

  // The loop over the data.
  method EncodeLines(data: seq<byte>) returns (b: seq<byte>)
    ensures b == Lines(data, 0)
  {
    hide Lines, Coded;
    b := [];
    var col := 0;
    for i := 0 to |data|
      invariant b + Lines(data[i..], col) == Lines(data, 0)
    {
      var v: byte := (data[i] as int + 42) % 256;
      LinesStep(data, i, col);
      CodedIs(data[i]);
      ghost var before, line := b, if col >= 126 then CRLF else [];
      if col >= 126 {
        b := b + CRLF;
        col := 0;
      }
      if v == 0 || v == 10 || v == 13 || v == EQUALS {
        b := b + [EQUALS, (v as int + 64) % 256];
        col := col + 2;
      } else {
        b := b + [v];
        col := col + 1;
      }
      Appended(before, line, Coded(data[i]), Lines(data[i + 1..], col), b);
    }
    assert data[|data|..] == [];
    NoLines(col);
    assert b + [] == b;
  }

  lemma Appended(before: seq<byte>, line: seq<byte>, coded: seq<byte>, rest: seq<byte>, b: seq<byte>)
    requires b == if line == [] then before + coded else before + line + coded
    ensures b + rest == before + (line + (coded + rest))
  {
  }

  lemma NoLines(col: nat)
    ensures Lines([], col) == []
  {
  }

  method Encode(
    name: seq<byte>, data: seq<byte>, part: int, total: int, begin: int, size: int, crc: seq<byte> -> uint32)
    returns (b: seq<byte>)
    ensures b == Article(name, data, if total > 1 then Numbered(part, total, begin, size) else Single, crc(data))
  {
    var p := if total > 1 then Numbered(part, total, begin, size) else Single;
    var lines := EncodeLines(data);
    b := Header(name, |data|, p) + lines + CRLF + Trailer(|data|, crc(data), p);
  }

  // --- The decoder ----------------------------------------------------------------------------------------

  // Line ends carry nothing, "=" escapes the next byte, and "=y" begins the trailer.
  function DecodeLines(s: seq<byte>): Decoded {
    if |s| == 0 then Broken
    else if s[0] == CR || s[0] == LF then DecodeLines(s[1..])
    else if s[0] != EQUALS then PushAll([(s[0] as int - 42) % 256], DecodeLines(s[1..]))
    else if |s| == 1 then Broken
    else if s[1] == 'y' as int then Decoded([], s)
    else PushAll([(s[1] as int - 64 - 42) % 256], DecodeLines(s[2..]))
  }

  // One keyword=value pair of a header line.
  datatype Field = Field(key: seq<byte>, value: seq<byte>)

  // The pairs of a line, separated by single spaces. The name comes last and is the rest of
  // the line, spaces included.
  function ReadFields(s: seq<byte>): seq<Field>
    decreases |s|
  {
    var key := Before(s, EQUALS);
    BeforeHasNone(s, EQUALS);
    if |key| == |s| then []
    else
      var after := s[|key| + 1..];
      var value := if key == Bytes("name") then after else Before(after, SPACE);
      BeforeHasNone(after, SPACE);
      if |value| == |after| then [Field(key, value)] else [Field(key, value)] + ReadFields(after[|value| + 1..])
  }

  function Lookup(fields: seq<Field>, key: string): Option<seq<byte>> {
    if |fields| == 0 then None
    else if fields[0].key == Bytes(key) then Some(fields[0].value)
    else Lookup(fields[1..], key)
  }

  function LookupInteger(fields: seq<Field>, key: string): Option<int> {
    var v := Lookup(fields, key);
    if v.None? then None else ReadInteger(v.value)
  }

  function LookupHex(fields: seq<Field>, key: string): Option<nat> {
    var v := Lookup(fields, key);
    if v.None? then None else ReadHex(v.value)
  }

  // The pairs of a line that begins with a keyword.
  function KeywordLine(line: seq<byte>, keyword: string): Option<seq<Field>> {
    if Bytes(keyword) <= line then Some(ReadFields(line[|keyword|..])) else None
  }

  datatype File = Unreadable | File(name: seq<byte>, part: Part, data: seq<byte>, rest: seq<byte>)

  // Whether a =yend line states the length and the checksum of the data, and the part.
  function EndAgrees(line: seq<byte>, data: seq<byte>, part: Option<int>, crc: seq<byte> -> uint32): bool {
    var f := KeywordLine(line, "=yend ");
    f.Some? && LookupInteger(f.value, "size") == Some(|data|) &&
    if part.Some? then LookupInteger(f.value, "part") == part && LookupHex(f.value, "pcrc32") == Some(crc(data))
    else LookupHex(f.value, "crc32") == Some(crc(data))
  }

  // A file in one part: the size is stated twice.
  function DecodeSingle(name: seq<byte>, size: int, body: seq<byte>, crc: seq<byte> -> uint32): File {
    match DecodeLines(body)
    case Broken => Unreadable
    case Decoded(data, rest) =>
      if size == |data| && EndAgrees(FirstLine(rest), data, None, crc) then File(name, Single, data, AfterLine(rest))
      else Unreadable
  }

  // One of several parts: a second line states where it begins and ends in the file.
  function DecodePart(
    name: seq<byte>, size: int, part: int, total: int, s: seq<byte>, crc: seq<byte> -> uint32): File
  {
    var f := KeywordLine(FirstLine(s), "=ypart ");
    if f.None? then Unreadable
    else
      var begin, end := LookupInteger(f.value, "begin"), LookupInteger(f.value, "end");
      match DecodeLines(AfterLine(s))
      case Broken => Unreadable
      case Decoded(data, rest) =>
        if begin.Some? && end == Some(begin.value + |data| - 1) && EndAgrees(FirstLine(rest), data, Some(part), crc)
        then File(name, Numbered(part, total, begin.value, size), data, AfterLine(rest))
        else Unreadable
  }

  // The decoder reads everything from the article. A part number in the first line says that
  // the file has several parts.
  function Decode(s: seq<byte>, crc: seq<byte> -> uint32): File {
    var f := KeywordLine(FirstLine(s), "=ybegin ");
    if f.None? then Unreadable
    else
      var name, size := Lookup(f.value, "name"), LookupInteger(f.value, "size");
      var part, total := LookupInteger(f.value, "part"), LookupInteger(f.value, "total");
      if name.None? || size.None? || LookupInteger(f.value, "line").None? then Unreadable
      else if Lookup(f.value, "part").None? then DecodeSingle(name.value, size.value, AfterLine(s), crc)
      else if part.None? || total.None? then Unreadable
      else DecodePart(name.value, size.value, part.value, total.value, AfterLine(s), crc)
  }

  // --- Round trip -----------------------------------------------------------------------------------------

  lemma CodedDecodes(raw: byte, rest: seq<byte>)
    ensures DecodeLines(Coded(raw) + rest) == PushAll([raw], DecodeLines(rest))
  {
    var s := Coded(raw) + rest;
    if Critical((raw as int + 42) % 256) {
      assert s[2..] == rest;
    } else {
      assert s[1..] == rest;
    }
  }

  lemma LineEndDecodes(rest: seq<byte>)
    ensures DecodeLines(CRLF + rest) == DecodeLines(rest)
  {
    var s := CRLF + rest;
    assert s[1..][1..] == rest;
  }

  lemma {:induction false} LinesDecode(data: seq<byte>, col: nat, tail: seq<byte>)
    ensures DecodeLines(Lines(data, col) + tail) == PushAll(data, DecodeLines(tail))
  {
    hide DecodeLines, Coded;
    if |data| == 0 {
      assert Lines(data, col) + tail == tail;
      assert DecodeLines(tail).Decoded? ==> [] + DecodeLines(tail).data == DecodeLines(tail).data;
    } else {
      var raw, more := data[0], data[1..];
      var next := if col >= 126 then |Coded(raw)| else col + |Coded(raw)|;
      var r := Lines(more, next) + tail;
      LinesDecode(more, next, tail);
      CodedDecodes(raw, r);
      LineEndDecodes(Coded(raw) + r);
      assert data == [raw] + more;
      if col >= 126 {
        assert Lines(data, col) + tail == CRLF + (Coded(raw) + r);
      } else {
        assert Lines(data, col) + tail == Coded(raw) + r;
      }
    }
  }

  // --- Lines of pairs ---------------------------------------------------------------------------------------

  function Pair(key: string, value: seq<byte>): seq<byte> {
    Bytes(key) + [EQUALS] + value
  }

  predicate KeyText(key: string) {
    EQUALS !in Bytes(key)
  }

  lemma PairRead(key: string, value: seq<byte>, more: seq<byte>)
    requires KeyText(key) && Bytes(key) != Bytes("name") && SPACE !in value
    ensures ReadFields(Pair(key, value) + [SPACE] + more) == [Field(Bytes(key), value)] + ReadFields(more)
  {
    hide Before, Bytes;
    var after := value + [SPACE] + more;
    var s := Pair(key, value) + [SPACE] + more;
    assert s == Bytes(key) + [EQUALS] + after;
    BeforeIs(Bytes(key), EQUALS, after);
    BeforeIs(value, SPACE, more);
    assert s[|Bytes(key)| + 1..] == after && after[|value| + 1..] == more;
  }

  lemma LastPairRead(key: string, value: seq<byte>)
    requires KeyText(key) && (Bytes(key) == Bytes("name") || SPACE !in value)
    ensures ReadFields(Pair(key, value)) == [Field(Bytes(key), value)]
  {
    hide Before, Bytes;
    var s := Pair(key, value);
    BeforeIs(Bytes(key), EQUALS, value);
    BeforeHasNone(value, SPACE);
    assert s[|Bytes(key)| + 1..] == value;
  }

  lemma KeywordRead(keyword: string, s: seq<byte>)
    ensures KeywordLine(Bytes(keyword) + s, keyword) == Some(ReadFields(s))
  {
    hide ReadFields;
    assert (Bytes(keyword) + s)[|keyword|..] == s;
  }

  // No keyword is another one's text.
  lemma Keys()
    ensures KeyText("line") && KeyText("size") && KeyText("name") && KeyText("part") && KeyText("total")
    ensures KeyText("begin") && KeyText("end") && KeyText("crc32") && KeyText("pcrc32")
  {
  }

  lemma KeysDiffer()
    ensures Bytes("line")[0] == 108 && Bytes("size")[0] == 115 && Bytes("name")[0] == 110 && Bytes("part")[0] == 112
  {
  }

  lemma SignedWord(n: int)
    ensures SPACE !in Bytes(Signed(n)) && LF !in Bytes(Signed(n)) && CR !in Bytes(Signed(n))
    ensures LookupIs(Bytes(Signed(n)), n)
  {
    hide Bytes, Signed;
    SignedText(n);
    WordBytes(Signed(n));
    SignedRead(n);
  }

  lemma WordBytes(s: string)
    requires Printable(s) && ' ' !in s
    ensures SPACE !in Bytes(s) && LF !in Bytes(s) && CR !in Bytes(s)
  {
  }

  predicate LookupIs(value: seq<byte>, n: int) {
    ReadInteger(value) == Some(n)
  }

  lemma HexWord(n: uint32)
    ensures SPACE !in Bytes(Hex8(n)) && LF !in Bytes(Hex8(n)) && ReadHex(Bytes(Hex8(n))) == Some(n)
  {
    hide Bytes, Hex8;
    Hex8Read(n);
    WordBytes(Hex8(n));
  }

  lemma NotNegative(n: nat)
    ensures Signed(n) == Decimal(n)
  {
  }

  // A printed text that ends in a pair, and what follows it.
  lemma Captioned(caption: string, lead: string, key: string, value: string, more: string)
    requires caption == lead + key + "="
    ensures Bytes(caption + value + more) == Bytes(lead) + Pair(key, Bytes(value)) + Bytes(more)
  {
    assert Bytes("=") == [EQUALS];
    assert Bytes(caption) == Bytes(lead) + Bytes(key) + [EQUALS];
    assert Bytes(caption + value + more) == Bytes(caption) + Bytes(value) + Bytes(more);
  }

  lemma Captions()
    ensures "=ybegin line=128 size=" == "=ybegin line=128 " + "size" + "="
    ensures "=ybegin part=" == "=ybegin " + "part" + "=" && " total=" == " " + "total" + "="
    ensures " line=128 size=" == " line=128 " + "size" + "="
    ensures "=ypart begin=" == "=ypart " + "begin" + "=" && " end=" == " " + "end" + "="
    ensures "=yend size=" == "=yend " + "size" + "=" && " part=" == " " + "part" + "="
    ensures " crc32=" == " " + "crc32" + "=" && " pcrc32=" == " " + "pcrc32" + "="
  {
  }

  lemma Leads()
    ensures Bytes(" ") == [SPACE] && Bytes("") == []
    ensures Bytes(" name=") == [SPACE] + Pair("name", [])
    ensures Bytes(" line=128 ") == [SPACE] + Pair("line", Bytes("128")) + [SPACE]
    ensures Bytes("=ybegin line=128 ") == Bytes("=ybegin ") + Pair("line", Bytes("128")) + [SPACE]
  {
    assert " line=128 " == " " + "line" + "=" + "128" + " ";
    assert "=ybegin line=128 " == "=ybegin " + "line" + "=" + "128" + " ";
  }

  lemma Width128()
    ensures ReadInteger(Bytes("128")) == Some(128) && SPACE !in Bytes("128") && LF !in Bytes("128")
  {
    assert "128" == Signed(128);
    SignedWord(128);
  }

  // The fields that the first line states.
  function BeginFields(name: seq<byte>, length: nat, p: Part): seq<Field> {
    match p
    case Single =>
      [Field(Bytes("line"), Bytes("128")), Field(Bytes("size"), Bytes(Signed(length))), Field(Bytes("name"), name)]
    case Numbered(part, total, _, size) =>
      [Field(Bytes("part"), Bytes(Signed(part))), Field(Bytes("total"), Bytes(Signed(total))),
       Field(Bytes("line"), Bytes("128")), Field(Bytes("size"), Bytes(Signed(size))), Field(Bytes("name"), name)]
  }

  lemma SingleLine(name: seq<byte>, length: nat)
    ensures Bytes(BeginText(length, Single)) + name ==
              Bytes("=ybegin ") + (Pair("line", Bytes("128")) + [SPACE] +
                (Pair("size", Bytes(Signed(length))) + [SPACE] + Pair("name", name)))
  {
    hide Signed, Decimal, Bytes;
    Captions();
    Leads();
    NotNegative(length);
    Captioned("=ybegin line=128 size=", "=ybegin line=128 ", "size", Signed(length), " name=");
  }

  lemma NumberedLine(name: seq<byte>, length: nat, p: Part)
    requires p.Numbered?
    ensures Bytes(BeginText(length, p)) + name ==
              Bytes("=ybegin ") + (Pair("part", Bytes(Signed(p.part))) + [SPACE] +
                (Pair("total", Bytes(Signed(p.total))) + [SPACE] + (Pair("line", Bytes("128")) + [SPACE] +
                  (Pair("size", Bytes(Signed(p.size))) + [SPACE] + Pair("name", name)))))
  {
    hide Signed, Bytes;
    Captions();
    Leads();
    var last := " line=128 size=" + Signed(p.size) + " name=";
    var middle := " total=" + Signed(p.total) + last;
    Captioned(" line=128 size=", " line=128 ", "size", Signed(p.size), " name=");
    Captioned(" total=", " ", "total", Signed(p.total), last);
    Captioned("=ybegin part=", "=ybegin ", "part", Signed(p.part), middle);
  }

  lemma BeginRead(name: seq<byte>, length: nat, p: Part)
    ensures KeywordLine(Bytes(BeginText(length, p)) + name, "=ybegin ") == Some(BeginFields(name, length, p))
  {
    hide Signed, Bytes, ReadFields, KeywordLine, Pair;
    Keys();
    KeysDiffer();
    Width128();
    LastPairRead("name", name);
    if p.Single? {
      SingleLine(name, length);
      SignedWord(length);
      PairRead("size", Bytes(Signed(length)), Pair("name", name));
      PairRead("line", Bytes("128"), Pair("size", Bytes(Signed(length))) + [SPACE] + Pair("name", name));
      KeywordRead("=ybegin ", Pair("line", Bytes("128")) + [SPACE] +
        (Pair("size", Bytes(Signed(length))) + [SPACE] + Pair("name", name)));
      var f := BeginFields(name, length, p);
      assert f == [f[0]] + ([f[1]] + [f[2]]);
    } else {
      NumberedLine(name, length, p);
      SignedWord(p.size);
      SignedWord(p.total);
      SignedWord(p.part);
      var l0 := Pair("name", name);
      var l1 := Pair("size", Bytes(Signed(p.size))) + [SPACE] + l0;
      var l2 := Pair("line", Bytes("128")) + [SPACE] + l1;
      var l3 := Pair("total", Bytes(Signed(p.total))) + [SPACE] + l2;
      PairRead("size", Bytes(Signed(p.size)), l0);
      PairRead("line", Bytes("128"), l1);
      PairRead("total", Bytes(Signed(p.total)), l2);
      PairRead("part", Bytes(Signed(p.part)), l3);
      KeywordRead("=ybegin ", Pair("part", Bytes(Signed(p.part))) + [SPACE] + l3);
      var f := BeginFields(name, length, p);
      assert f == [f[0]] + ([f[1]] + ([f[2]] + ([f[3]] + [f[4]])));
    }
  }

  // What the reader finds in the fields of the first line.
  lemma BeginFound(name: seq<byte>, length: nat, p: Part)
    ensures var f := BeginFields(name, length, p);
            && Lookup(f, "name") == Some(name) && LookupInteger(f, "line") == Some(128)
            && LookupInteger(f, "size") == Some(if p.Single? then length else p.size)
            && (p.Single? ==> Lookup(f, "part").None?)
            && (p.Numbered? ==>
                  Lookup(f, "part").Some? && LookupInteger(f, "part") == Some(p.part) &&
                  LookupInteger(f, "total") == Some(p.total))
  {
    hide Signed, Bytes, ReadInteger, Lookup;
    KeysDiffer();
    Width128();
    var f := BeginFields(name, length, p);
    if p.Single? {
      SignedWord(length);
      Found(f, 0, "line");
      Found(f, 1, "size");
      Found(f, 2, "name");
      NotFound(f, "part");
    } else {
      SignedWord(p.size);
      SignedWord(p.total);
      SignedWord(p.part);
      Found(f, 0, "part");
      Found(f, 1, "total");
      Found(f, 2, "line");
      Found(f, 3, "size");
      Found(f, 4, "name");
    }
  }

  lemma {:induction false} Found(fields: seq<Field>, i: nat, key: string)
    requires i < |fields| && fields[i].key == Bytes(key)
    requires forall j :: 0 <= j < i ==> fields[j].key != Bytes(key)
    ensures Lookup(fields, key) == Some(fields[i].value)
  {
    if i != 0 {
      Found(fields[1..], i - 1, key);
    }
  }

  lemma {:induction false} NotFound(fields: seq<Field>, key: string)
    requires forall j :: 0 <= j < |fields| ==> fields[j].key != Bytes(key)
    ensures Lookup(fields, key) == None
  {
    if |fields| != 0 {
      NotFound(fields[1..], key);
    }
  }

  lemma PartRead(length: nat, begin: int)
    ensures KeywordLine(Bytes(PartText(length, begin)), "=ypart ") ==
              Some([Field(Bytes("begin"), Bytes(Signed(begin))), Field(Bytes("end"), Bytes(Signed(begin + length - 1)))])
  {
    hide Signed, Bytes, ReadFields, KeywordLine, Pair;
    Captions();
    Leads();
    Keys();
    var end := begin + length - 1;
    var more := " end=" + Signed(end);
    NothingAfter(more);
    Captioned(" end=", " ", "end", Signed(end), "");
    Captioned("=ypart begin=", "=ypart ", "begin", Signed(begin), more);
    SignedWord(begin);
    SignedWord(end);
    var last := Pair("end", Bytes(Signed(end)));
    LastPairRead("end", Bytes(Signed(end)));
    PairRead("begin", Bytes(Signed(begin)), last);
    KeywordRead("=ypart ", Pair("begin", Bytes(Signed(begin))) + [SPACE] + last);
    var a, b := Field(Bytes("begin"), Bytes(Signed(begin))), Field(Bytes("end"), Bytes(Signed(end)));
    assert [a] + [b] == [a, b];
    assert Bytes(PartText(length, begin)) == Bytes("=ypart ") + (Pair("begin", Bytes(Signed(begin))) + [SPACE] + last);
  }

  lemma NothingAfter(s: string)
    ensures s + "" == s
  {
  }

  function EndFields(length: nat, checksum: uint32, p: Part): seq<Field> {
    if p.Single? then [Field(Bytes("size"), Bytes(Signed(length))), Field(Bytes("crc32"), Bytes(Hex8(checksum)))]
    else
      [Field(Bytes("size"), Bytes(Signed(length))), Field(Bytes("part"), Bytes(Signed(p.part))),
       Field(Bytes("pcrc32"), Bytes(Hex8(checksum)))]
  }

  lemma EndRead(length: nat, checksum: uint32, p: Part)
    ensures KeywordLine(Bytes(EndText(length, checksum, p)), "=yend ") == Some(EndFields(length, checksum, p))
  {
    hide Signed, Decimal, Bytes, ReadFields, KeywordLine, Pair, Hex8;
    Captions();
    Leads();
    Keys();
    KeysDiffer();
    NotNegative(length);
    SignedWord(length);
    HexWord(checksum);
    var size, sum := Bytes(Signed(length)), Bytes(Hex8(checksum));
    var f := EndFields(length, checksum, p);
    if p.Single? {
      var more := " crc32=" + Hex8(checksum);
      NothingAfter(more);
      Captioned(" crc32=", " ", "crc32", Hex8(checksum), "");
      Captioned("=yend size=", "=yend ", "size", Signed(length), more);
      LastPairRead("crc32", sum);
      PairRead("size", size, Pair("crc32", sum));
      KeywordRead("=yend ", Pair("size", size) + [SPACE] + Pair("crc32", sum));
      assert f == [f[0]] + [f[1]];
      assert Bytes(EndText(length, checksum, p)) == Bytes("=yend ") + (Pair("size", size) + [SPACE] + Pair("crc32", sum));
    } else {
      SignedWord(p.part);
      var part := Bytes(Signed(p.part));
      var more := " pcrc32=" + Hex8(checksum);
      NothingAfter(more);
      Captioned(" pcrc32=", " ", "pcrc32", Hex8(checksum), "");
      Captioned(" part=", " ", "part", Signed(p.part), more);
      Captioned("=yend size=", "=yend ", "size", Signed(length), " part=" + Signed(p.part) + more);
      LastPairRead("pcrc32", sum);
      var last := Pair("part", part) + [SPACE] + Pair("pcrc32", sum);
      PairRead("part", part, Pair("pcrc32", sum));
      PairRead("size", size, last);
      KeywordRead("=yend ", Pair("size", size) + [SPACE] + last);
      assert f == [f[0]] + ([f[1]] + [f[2]]);
      assert Bytes(EndText(length, checksum, p)) == Bytes("=yend ") + (Pair("size", size) + [SPACE] + last);
    }
  }

  lemma EndAgreed(data: seq<byte>, p: Part, crc: seq<byte> -> uint32)
    ensures EndAgrees(Bytes(EndText(|data|, crc(data), p)), data, if p.Single? then None else Some(p.part), crc)
  {
    hide Signed, Decimal, Bytes, ReadInteger, ReadHex, Lookup, KeywordLine, Hex8;
    EndRead(|data|, crc(data), p);
    KeysDiffer();
    SignedWord(|data|);
    HexWord(crc(data));
    var f := EndFields(|data|, crc(data), p);
    Found(f, 0, "size");
    if p.Single? {
      Found(f, 1, "crc32");
    } else {
      SignedWord(p.part);
      Found(f, 1, "part");
      Found(f, 2, "pcrc32");
    }
  }

  // --- Round trip -----------------------------------------------------------------------------------------

  // The printed lines have no line end inside.
  lemma TextsPlain(length: nat, checksum: uint32, p: Part)
    ensures LF !in Bytes(BeginText(length, p)) && LF !in Bytes(EndText(length, checksum, p))
    ensures p.Numbered? ==> LF !in Bytes(PartText(length, p.begin))
  {
    hide Printable, BeginText, PartText, EndText;
    TextsPrintable(length, checksum, p);
    PrintableBytes(BeginText(length, p));
    PrintableBytes(EndText(length, checksum, p));
    if p.Numbered? {
      PrintableBytes(PartText(length, p.begin));
    }
  }

  // A literal, a number and more text.
  lemma FieldPrintable(caption: string, n: int, more: string)
    requires Printable(caption) && Printable(more)
    ensures Printable(caption + Signed(n) + more)
  {
    hide Signed;
    SignedText(n);
  }

  lemma LiteralsPrintable()
    ensures Printable("=ybegin line=128 size=") && Printable(" name=") && Printable("")
    ensures Printable("=ybegin part=") && Printable(" total=") && Printable(" line=128 size=")
  {
  }

  lemma EndsPrintable()
    ensures Printable("=ypart begin=") && Printable(" end=")
    ensures Printable("=yend size=") && Printable(" crc32=") && Printable(" part=") && Printable(" pcrc32=")
  {
  }

  lemma TwoPrintable(s: string, t: string)
    requires Printable(s) && Printable(t)
    ensures Printable(s + t)
  {
  }

  lemma TextsPrintable(length: nat, checksum: uint32, p: Part)
    ensures Printable(BeginText(length, p)) && Printable(EndText(length, checksum, p))
    ensures p.Numbered? ==> Printable(PartText(length, p.begin))
  {
    hide Signed, Printable, Decimal, Hex8;
    LiteralsPrintable();
    EndsPrintable();
    NotNegative(length);
    Hex8Read(checksum);
    if p.Single? {
      FieldPrintable("=ybegin line=128 size=", length, " name=");
      TwoPrintable(" crc32=", Hex8(checksum));
      FieldPrintable("=yend size=", length, " crc32=" + Hex8(checksum));
    } else {
      var size := " line=128 size=" + Signed(p.size) + " name=";
      FieldPrintable(" line=128 size=", p.size, " name=");
      FieldPrintable(" total=", p.total, size);
      FieldPrintable("=ybegin part=", p.part, " total=" + Signed(p.total) + size);
      TwoPrintable(" pcrc32=", Hex8(checksum));
      FieldPrintable(" part=", p.part, " pcrc32=" + Hex8(checksum));
      FieldPrintable("=yend size=", length, " part=" + Signed(p.part) + (" pcrc32=" + Hex8(checksum)));
      FieldPrintable(" end=", p.begin + length - 1, "");
      NothingAfter(" end=" + Signed(p.begin + length - 1));
      FieldPrintable("=ypart begin=", p.begin, " end=" + Signed(p.begin + length - 1));
    }
  }

  // The lines of data end where the trailer begins.
  lemma BodyDecodes(data: seq<byte>, checksum: uint32, p: Part, rest: seq<byte>)
    ensures DecodeLines(Lines(data, 0) + CRLF + (Trailer(|data|, checksum, p) + rest)) ==
              Decoded(data, Trailer(|data|, checksum, p) + rest)
  {
    hide DecodeLines, Lines, Trailer;
    var t := Trailer(|data|, checksum, p) + rest;
    LinesDecode(data, 0, CRLF + t);
    assert Lines(data, 0) + (CRLF + t) == Lines(data, 0) + CRLF + t;
    LineEndDecodes(t);
    TrailerBegins(|data|, checksum, p);
    TailDecodes(t);
    assert data + [] == data;
  }

  lemma TrailerBegins(length: nat, checksum: uint32, p: Part)
    ensures var t := Trailer(length, checksum, p);
            |t| >= 2 && t[0] == EQUALS && t[1] == 'y' as int
  {
    hide Decimal, Hex8, Signed;
  }

  lemma TailDecodes(s: seq<byte>)
    requires |s| >= 2 && s[0] == EQUALS && s[1] == 'y' as int
    ensures DecodeLines(s) == Decoded([], s)
  {
  }

  lemma TrailerRead(data: seq<byte>, p: Part, crc: seq<byte> -> uint32, rest: seq<byte>)
    ensures var t := Trailer(|data|, crc(data), p) + rest;
            EndAgrees(FirstLine(t), data, if p.Single? then None else Some(p.part), crc) && AfterLine(t) == rest
  {
    hide EndText, FirstLine, AfterLine, EndAgrees;
    TextsPlain(|data|, crc(data), p);
    FirstLineIs(Bytes(EndText(|data|, crc(data), p)), rest);
    EndAgreed(data, p, crc);
  }

  lemma SingleDecodes(name: seq<byte>, data: seq<byte>, crc: seq<byte> -> uint32, rest: seq<byte>)
    ensures DecodeSingle(name, |data|, Lines(data, 0) + CRLF + (Trailer(|data|, crc(data), Single) + rest), crc) ==
              File(name, Single, data, rest)
  {
    hide DecodeLines, Lines, Trailer, FirstLine, AfterLine, EndAgrees;
    BodyDecodes(data, crc(data), Single, rest);
    TrailerRead(data, Single, crc, rest);
  }

  // A line that states where a part of this length begins and ends.
  predicate States(line: seq<byte>, begin: int, length: nat) {
    var f := KeywordLine(line, "=ypart ");
    && f.Some? && LookupInteger(f.value, "begin") == Some(begin)
    && LookupInteger(f.value, "end") == Some(begin + length - 1)
  }

  lemma PartFound(length: nat, begin: int)
    ensures States(Bytes(PartText(length, begin)), begin, length)
  {
    hide PartText, KeywordLine, Lookup, Signed, Bytes, ReadInteger;
    PartRead(length, begin);
    var f := [Field(Bytes("begin"), Bytes(Signed(begin))), Field(Bytes("end"), Bytes(Signed(begin + length - 1)))];
    Found(f, 0, "begin");
    Found(f, 1, "end");
    SignedWord(begin);
    SignedWord(begin + length - 1);
  }

  lemma PartDecodesFrom(
    name: seq<byte>, s: seq<byte>, data: seq<byte>, p: Part, crc: seq<byte> -> uint32, tail: seq<byte>)
    requires p.Numbered? && States(FirstLine(s), p.begin, |data|)
    requires DecodeLines(AfterLine(s)) == Decoded(data, tail)
    requires EndAgrees(FirstLine(tail), data, Some(p.part), crc)
    ensures DecodePart(name, p.size, p.part, p.total, s, crc) == File(name, p, data, AfterLine(tail))
  {
    hide DecodeLines, FirstLine, AfterLine, EndAgrees, KeywordLine, LookupInteger, Bytes;
  }

  lemma PartDecodes(name: seq<byte>, data: seq<byte>, p: Part, crc: seq<byte> -> uint32, rest: seq<byte>)
    requires p.Numbered?
    ensures var body := Lines(data, 0) + CRLF + (Trailer(|data|, crc(data), p) + rest);
            DecodePart(name, p.size, p.part, p.total, Bytes(PartText(|data|, p.begin)) + CRLF + body, crc) ==
              File(name, p, data, rest)
  {
    hide DecodeLines, Lines, Trailer, FirstLine, AfterLine, EndAgrees, PartText, Bytes, DecodePart, States;
    var tail := Trailer(|data|, crc(data), p) + rest;
    var line, body := Bytes(PartText(|data|, p.begin)), Lines(data, 0) + CRLF + tail;
    var s := line + CRLF + body;
    assert FirstLine(s) == line && AfterLine(s) == body by {
      TextsPlain(|data|, crc(data), p);
      FirstLineIs(line, body);
    }
    PartFound(|data|, p.begin);
    assert DecodeLines(body) == Decoded(data, tail) by {
      BodyDecodes(data, crc(data), p, rest);
    }
    assert EndAgrees(FirstLine(tail), data, Some(p.part), crc) && AfterLine(tail) == rest by {
      TrailerRead(data, p, crc, rest);
    }
    PartDecodesFrom(name, s, data, p, crc, tail);
  }

  lemma Regrouped(h: seq<byte>, l: seq<byte>, t: seq<byte>, rest: seq<byte>)
    ensures h + l + CRLF + t + rest == h + (l + CRLF + (t + rest))
  {
  }

  lemma ArticleSplit(name: seq<byte>, data: seq<byte>, p: Part, checksum: uint32, rest: seq<byte>)
    ensures var body := Lines(data, 0) + CRLF + (Trailer(|data|, checksum, p) + rest);
            Article(name, data, p, checksum) + rest ==
              Bytes(BeginText(|data|, p)) + name + CRLF +
              (if p.Single? then body else Bytes(PartText(|data|, p.begin)) + CRLF + body)
  {
    hide BeginText, PartText, Lines, Trailer, Bytes;
    Regrouped(Header(name, |data|, p), Lines(data, 0), Trailer(|data|, checksum, p), rest);
    var first := Bytes(BeginText(|data|, p)) + name + CRLF;
    var body := Lines(data, 0) + CRLF + (Trailer(|data|, checksum, p) + rest);
    var second := if p.Single? then [] else Bytes(PartText(|data|, p.begin)) + CRLF;
    Grouped(first, second, body);
    assert p.Single? ==> second + body == body;
  }

  // The decoder gets name, part and data back, and stops right after the trailer, exactly when
  // the name has no LF: nothing escapes it.
  lemma RoundTrip(name: seq<byte>, data: seq<byte>, p: Part, crc: seq<byte> -> uint32, rest: seq<byte>)
    ensures Decode(Article(name, data, p, crc(data)) + rest, crc) == File(name, p, data, rest) <==> LF !in name
  {
    hide BeginText, PartText, Lines, Trailer, Bytes, FirstLine, AfterLine, KeywordLine, Article, Decode;
    var s := Article(name, data, p, crc(data)) + rest;
    if LF !in name {
      PlainNameDecodes(name, data, p, crc, rest);
    } else {
      NameHasNoLineEnd(s, crc);
    }
  }

  lemma PlainNameDecodes(name: seq<byte>, data: seq<byte>, p: Part, crc: seq<byte> -> uint32, rest: seq<byte>)
    requires LF !in name
    ensures Decode(Article(name, data, p, crc(data)) + rest, crc) == File(name, p, data, rest)
  {
    hide BeginText, PartText, Lines, Trailer, Bytes, FirstLine, AfterLine, KeywordLine, Article, Lookup, LookupInteger,
      DecodeSingle, DecodePart, BeginFields;
    var checksum := crc(data);
    var body := Lines(data, 0) + CRLF + (Trailer(|data|, checksum, p) + rest);
    var line := Bytes(BeginText(|data|, p)) + name;
    ArticleSplit(name, data, p, checksum, rest);
    TextsPlain(|data|, checksum, p);
    FirstLineIs(line, if p.Single? then body else Bytes(PartText(|data|, p.begin)) + CRLF + body);
    BeginRead(name, |data|, p);
    BeginFound(name, |data|, p);
    if p.Single? {
      SingleDecodes(name, data, crc, rest);
    } else {
      PartDecodes(name, data, p, crc, rest);
    }
  }

  // A name that the decoder returns is part of the first line.
  lemma NameHasNoLineEnd(s: seq<byte>, crc: seq<byte> -> uint32)
    ensures Decode(s, crc).File? ==> LF !in Decode(s, crc).name
  {
    hide Bytes, FirstLine, AfterLine, LookupInteger, EndAgrees, DecodeLines;
    FirstLineHasNone(s);
    var line := FirstLine(s);
    if Bytes("=ybegin ") <= line {
      FieldsPlain(line[|"=ybegin "|..]);
      LookupPlain(ReadFields(line[|"=ybegin "|..]), "name");
    }
  }

  lemma {:induction false} FieldsPlain(s: seq<byte>)
    requires LF !in s
    ensures forall i :: 0 <= i < |ReadFields(s)| ==> LF !in ReadFields(s)[i].value
    decreases |s|
  {
    hide Bytes, Before;
    var key := Before(s, EQUALS);
    BeforeHasNone(s, EQUALS);
    if |key| == |s| {
      assert ReadFields(s) == [];
    } else {
      var after := s[|key| + 1..];
      BeforeHasNone(after, SPACE);
      var value := if key == Bytes("name") then after else Before(after, SPACE);
      assert LF !in value;
      if |value| < |after| {
        FieldsPlain(after[|value| + 1..]);
      }
    }
  }

  lemma {:induction false} LookupPlain(fields: seq<Field>, key: string)
    requires forall i :: 0 <= i < |fields| ==> LF !in fields[i].value
    ensures Lookup(fields, key).Some? ==> LF !in Lookup(fields, key).value
  {
    if |fields| != 0 {
      LookupPlain(fields[1..], key);
    }
  }

  // A name that is one LF does not come back.
  lemma LineEndInName(data: seq<byte>, p: Part, crc: seq<byte> -> uint32)
    ensures Decode(Article([LF], data, p, crc(data)), crc) != File([LF], p, data, [])
  {
    hide Decode, Article;
    var s := Article([LF], data, p, crc(data));
    RoundTrip([LF], data, p, crc, []);
    assert s + [] == s;
  }

  // --- What the lines look like ---------------------------------------------------------------------------

  // From column col on: a line that is ended has 126 or 127 octets, and none has more.
  predicate Filled(s: seq<byte>, col: nat) {
    |s| == 0 ||
    if s[0] == CR then col >= 126 && Filled(s[1..], col)
    else if s[0] == LF then Filled(s[1..], 0)
    else col + 1 <= 127 && Filled(s[1..], col + 1)
  }

  lemma CodedFilled(raw: byte, col: nat, rest: seq<byte>)
    requires col + |Coded(raw)| <= 127 && Filled(rest, col + |Coded(raw)|)
    ensures Filled(Coded(raw) + rest, col)
  {
    var s := Coded(raw) + rest;
    if |Coded(raw)| == 2 {
      assert s[1..][1..] == rest;
    } else {
      assert s[1..] == rest;
    }
  }

  lemma BreakFilled(col: nat, rest: seq<byte>)
    requires col >= 126 && Filled(rest, 0)
    ensures Filled(CRLF + rest, col)
  {
    assert (CRLF + rest)[1..][1..] == rest;
  }

  // Every line but the last has 126 or 127 octets, and the last at most 127.
  lemma {:induction false} LinesFilled(data: seq<byte>, col: nat)
    requires col <= 127
    ensures Filled(Lines(data, col), col)
  {
    hide Filled, Coded;
    if |data| == 0 {
      NothingFilled(col);
    } else {
      CodedWidth(data[0]);
      var start := if col >= 126 then 0 else col;
      var rest := Lines(data[1..], start + |Coded(data[0])|);
      LinesFilled(data[1..], start + |Coded(data[0])|);
      CodedFilled(data[0], start, rest);
      if col >= 126 {
        BreakFilled(col, Coded(data[0]) + rest);
        assert Lines(data, col) == CRLF + (Coded(data[0]) + rest);
      }
    }
  }

  lemma NothingFilled(col: nat)
    ensures Filled([], col)
  {
  }

  lemma CodedWidth(raw: byte)
    ensures 1 <= |Coded(raw)| <= 2
  {
  }

  // An equals sign is always an escape, followed by the escaped form of one of the four
  // critical bytes; in particular "=y" never occurs. An LF always follows a CR.
  predicate Escaped(s: seq<byte>, i: nat)
    requires i < |s|
  {
    s[i] == EQUALS ==> i + 1 < |s| && (s[i + 1] == 64 || s[i + 1] == 74 || s[i + 1] == 77 || s[i + 1] == 125)
  }

  predicate AllEscaped(s: seq<byte>) {
    forall i :: 0 <= i < |s| ==> Escaped(s, i)
  }

  lemma EscapedConcat(s: seq<byte>, t: seq<byte>)
    requires AllEscaped(s) && AllEscaped(t)
    ensures AllEscaped(s + t)
  {
    forall i | 0 <= i < |s + t|
      ensures Escaped(s + t, i)
    {
      if i < |s| {
        assert Escaped(s, i);
      } else {
        assert Escaped(t, i - |s|);
      }
    }
  }

  lemma CodedEscaped(raw: byte)
    ensures AllEscaped(Coded(raw)) && AllEscaped(CRLF)
    ensures CR !in Coded(raw) && LF !in Coded(raw)
  {
  }

  lemma {:induction false} LinesEscaped(data: seq<byte>, col: nat)
    ensures AllEscaped(Lines(data, col))
    ensures forall cr :: Paired(Lines(data, col), cr)
  {
    hide AllEscaped, Coded, Paired;
    if |data| == 0 {
      NothingEscaped();
    } else {
      CodedWidth(data[0]);
      CodedEscaped(data[0]);
      var start := if col >= 126 then 0 else col;
      var rest := Lines(data[1..], start + |Coded(data[0])|);
      LinesEscaped(data[1..], start + |Coded(data[0])|);
      EscapedConcat(Coded(data[0]), rest);
      forall cr
        ensures Paired(Coded(data[0]) + rest, cr)
      {
        NoLinePaired(Coded(data[0]), cr);
        PairedConcat(Coded(data[0]), rest, cr);
      }
      if col >= 126 {
        EscapedConcat(CRLF, Coded(data[0]) + rest);
        assert Lines(data, col) == CRLF + (Coded(data[0]) + rest);
        forall cr
          ensures Paired(CRLF + (Coded(data[0]) + rest), cr)
        {
          CrlfPaired(cr);
          PairedConcat(CRLF, Coded(data[0]) + rest, cr);
        }
      }
    }
  }

  lemma NothingEscaped()
    ensures AllEscaped([]) && forall cr :: Paired([], cr)
  {
  }

  lemma NoMarker(data: seq<byte>, i: nat)
    requires i + 1 < |Lines(data, 0)|
    ensures !(Lines(data, 0)[i] == EQUALS && Lines(data, 0)[i + 1] == 'y' as int)
  {
    LinesEscaped(data, 0);
    assert Escaped(Lines(data, 0), i);
  }

  // --- The whole article ----------------------------------------------------------------------------------

  // An article whose name has no LF pairs every LF with a CR, and ends with CRLF.
  lemma ArticlePaired(name: seq<byte>, data: seq<byte>, p: Part, checksum: uint32)
    requires LF !in name
    ensures Paired(Article(name, data, p, checksum), false) && EndsWithCrlf(Article(name, data, p, checksum))
  {
    hide BeginText, PartText, EndText, Bytes, Paired, Lines;
    var h := Bytes(BeginText(|data|, p)) + name;
    var l, t := Lines(data, 0), Trailer(|data|, checksum, p);
    TextsPlain(|data|, checksum, p);
    LinePaired(h);
    LinePaired(Bytes(EndText(|data|, checksum, p)));
    LinesEscaped(data, 0);
    CrlfPaired(false);
    CrlfPaired(true);
    if p.Numbered? {
      var second := Bytes(PartText(|data|, p.begin));
      LinePaired(second);
      JoinPaired(h + CRLF, second + CRLF);
      assert Header(name, |data|, p) == (h + CRLF) + (second + CRLF);
    } else {
      assert Header(name, |data|, p) == h + CRLF;
    }
    var header := Header(name, |data|, p);
    JoinPaired(header, l);
    JoinPaired(header + l, CRLF);
    JoinPaired(header + l + CRLF, t);
  }
}
