// uuencode of internal/adversarial/archives.go, and a decoder for the uuencode format of
// IEEE Std 1003.1.
module Uuencode {
  import opened Text

  const ROW := 45

  type sextet = x: int | 0 <= x < 64

  function Enc(v: sextet): (r: byte)
    ensures 33 <= r <= 96
  {
    if v == 0 then '`' as int else v + 32
  }

  // Three bytes as four characters. a >> 2, (a<<4 | c>>4) & 63, (c<<2 | d>>6) & 63 and d & 63
  // are written as quotients and remainders; SextetBits says that these are the same.
  function Quad(a: byte, c: byte, d: byte): (r: seq<byte>)
    ensures |r| == 4
  {
    [Enc(a / 4), Enc(a % 4 * 16 + c / 16), Enc(c % 16 * 4 + d / 64), Enc(d % 64)]
  }

  lemma SextetBits(a: bv8, c: bv8, d: bv8)
    ensures a >> 2 == a / 4
    ensures ((a << 4) | (c >> 4)) & 63 == a % 4 * 16 + c / 16
    ensures ((c << 2) | (d >> 6)) & 63 == c % 16 * 4 + d / 64
    ensures d & 63 == d % 64
  {
  }

  // The characters of a chunk, filled up with zero bytes to a multiple of three.
  function Quads(chunk: seq<byte>): (r: seq<byte>)
    ensures |r| == (|chunk| + 2) / 3 * 4 && |r| % 4 == 0
  {
    if |chunk| == 0 then []
    else if |chunk| == 1 then Quad(chunk[0], 0, 0)
    else if |chunk| == 2 then Quad(chunk[0], chunk[1], 0)
    else Quad(chunk[0], chunk[1], chunk[2]) + Quads(chunk[3..])
  }

  function Row(chunk: seq<byte>): seq<byte>
    requires |chunk| <= ROW
  {
    [Enc(|chunk|)] + Quads(chunk) + CRLF
  }

  function Rows(data: seq<byte>): seq<byte> {
    if |data| == 0 then []
    else
      var n := if |data| > ROW then ROW else |data|;
      Row(data[..n]) + Rows(data[n..])
  }

  function End(): seq<byte> {
    [Enc(0)] + CRLF + Bytes("end") + CRLF
  }

  function Encoded(name: seq<byte>, data: seq<byte>): seq<byte> {
    Bytes("begin 600 ") + name + CRLF + Rows(data) + End()
  }

  // --- The encoder ------------------------------------------------------------------------------------------

  // The chunk filled up with zero bytes.
  method Pad(data: seq<byte>) returns (chunk: seq<byte>)
    requires 0 < |data|
    ensures |chunk| % 3 == 0 && Quads(chunk) == Quads(data)
  {
    hide Quads;
    chunk := data;
    while |chunk| % 3 != 0
      invariant |chunk| <= (|data| + 2) / 3 * 3
      invariant Quads(chunk) == Quads(data)
      decreases (|data| + 2) / 3 * 3 - |chunk|
    {
      QuadsPadded(chunk);
      chunk := chunk + [0];
    }
  }

  lemma QuadsAt(chunk: seq<byte>, i: nat)
    requires i + 3 <= |chunk|
    ensures Quads(chunk[i..]) == Quad(chunk[i], chunk[i + 1], chunk[i + 2]) + Quads(chunk[i + 3..])
  {
    hide Quad;
    assert chunk[i..][3..] == chunk[i + 3..];
  }

  lemma NoQuads()
    ensures Quads([]) == []
  {
  }

  method EncodeQuads(chunk: seq<byte>) returns (b: seq<byte>)
    requires |chunk| % 3 == 0
    ensures b == Quads(chunk)
  {
    hide Quads, Quad;
    b := [];
    var i := 0;
    assert chunk[0..] == chunk;
    while i < |chunk|
      invariant 0 <= i <= |chunk| && i % 3 == 0
      invariant b + Quads(chunk[i..]) == Quads(chunk)
    {
      QuadsAt(chunk, i);
      var quad := Quad(chunk[i], chunk[i + 1], chunk[i + 2]);
      assert b + (quad + Quads(chunk[i + 3..])) == b + quad + Quads(chunk[i + 3..]);
      b := b + quad;
      i := i + 3;
    }
    assert chunk[i..] == [];
    NoQuads();
    assert b + [] == b;
  }

  method EncodeRow(data: seq<byte>) returns (b: seq<byte>)
    requires 0 < |data| <= ROW
    ensures b == Row(data)
  {
    hide Enc;
    var chunk := Pad(data);
    var quads := EncodeQuads(chunk);
    b := [Enc(|data|)] + quads + CRLF;
  }

  lemma {:induction false} QuadsPadded(chunk: seq<byte>)
    requires |chunk| % 3 != 0
    ensures Quads(chunk + [0]) == Quads(chunk)
  {
    hide Quad;
    var padded := chunk + [0];
    if |chunk| > 3 {
      QuadsPadded(chunk[3..]);
      assert padded[3..] == chunk[3..] + [0];
    } else if |chunk| == 2 {
      assert padded[3..] == [];
      assert Quad(chunk[0], chunk[1], 0) + [] == Quad(chunk[0], chunk[1], 0);
    }
  }

  method Encode(name: seq<byte>, data: seq<byte>) returns (b: seq<byte>)
    ensures b == Encoded(name, data)
  {
    b := Bytes("begin 600 ") + name + CRLF;
    ghost var header := b;
    var rest := data;
    while |rest| > 0
      invariant b + Rows(rest) == header + Rows(data)
      decreases |rest|
    {
      var n := if |rest| > ROW then ROW else |rest|;
      assert b + Rows(rest) == b + Row(rest[..n]) + Rows(rest[n..]);
      var row := EncodeRow(rest[..n]);
      b := b + row;
      rest := rest[n..];
    }
    assert b + [] == b;
    b := b + End();
  }

  // --- The decoder ------------------------------------------------------------------------------------------

  function Dec(v: byte): sextet {
    (v - 32) % 64
  }

  // Four characters as three bytes.
  function Triple(w: byte, x: byte, y: byte, z: byte): (r: seq<byte>)
    ensures |r| == 3
  {
    [Dec(w) * 4 + Dec(x) / 16, Dec(x) % 16 * 16 + Dec(y) / 4, Dec(y) % 4 * 64 + Dec(z)]
  }

  function Triples(s: seq<byte>): seq<byte>
    requires |s| % 4 == 0
  {
    if |s| == 0 then [] else Triple(s[0], s[1], s[2], s[3]) + Triples(s[4..])
  }

  lemma {:induction false} TriplesLength(s: seq<byte>)
    requires |s| % 4 == 0
    ensures |Triples(s)| == |s| / 4 * 3
  {
    if |s| != 0 {
      TriplesLength(s[4..]);
    }
  }

  // The number of characters that carry n bytes.
  function Width(n: nat): (l: nat)
    ensures l % 4 == 0 && l / 4 * 3 >= n
  {
    (n + 2) / 3 * 4
  }

  // The n bytes that these characters carry.
  function Carried(s: seq<byte>, n: nat): (r: seq<byte>)
    requires |s| == Width(n)
    ensures |r| == n
  {
    TriplesLength(s);
    Triples(s)[..n]
  }

  // A row states how many bytes it carries; a row of none, and the end line, close the file.
  function DecodeRows(s: seq<byte>): Decoded
    decreases |s|
  {
    if |s| == 0 then Broken
    else
      var n := Dec(s[0]);
      if n == 0 then
        var last := AfterLine(s);
        if FirstLine(last) == Bytes("end") then Decoded([], AfterLine(last)) else Broken
      else
        var l := Width(n);
        if |s| < l + 3 || s[l + 1..l + 3] != CRLF then Broken
        else PushAll(Carried(s[1..l + 1], n), DecodeRows(s[l + 3..]))
  }

  datatype File = Unreadable | File(name: seq<byte>, mode: nat, data: seq<byte>, rest: seq<byte>)

  // "begin", the permission bits in octal, and the name up to the end of the line.
  function Decode(s: seq<byte>): File {
    var line := FirstLine(s);
    if !(Bytes("begin ") <= line) then Unreadable
    else
      var words := line[6..];
      var mode := Before(words, SPACE);
      BeforeHasNone(words, SPACE);
      if |mode| == 0 || |mode| == |words| || !Numeral(mode, 8) then Unreadable
      else
        match DecodeRows(AfterLine(s))
        case Broken => Unreadable
        case Decoded(data, rest) => File(words[|mode| + 1..], Number(mode, 8), data, rest)
  }

  // --- Round trip -------------------------------------------------------------------------------------------

  lemma EncDec(v: sextet)
    ensures Dec(Enc(v)) == v
  {
  }

  // Splitting bytes at a power of two and joining the pieces of neighbours.
  lemma Pieces16(high: nat, low: nat)
    requires low < 16
    ensures (high * 16 + low) / 16 == high && (high * 16 + low) % 16 == low
  {
  }

  lemma Pieces4(high: nat, low: nat)
    requires low < 4
    ensures (high * 4 + low) / 4 == high && (high * 4 + low) % 4 == low
  {
  }

  lemma QuadTriple(a: byte, c: byte, d: byte)
    ensures var q := Quad(a, c, d);
            Triple(q[0], q[1], q[2], q[3]) == [a, c, d]
  {
    hide Enc, Dec;
    EncDec(a / 4);
    EncDec(a % 4 * 16 + c / 16);
    EncDec(c % 16 * 4 + d / 64);
    EncDec(d % 64);
    Pieces16(a % 4, c / 16);
    Pieces4(c % 16, d / 64);
  }

  lemma QuadsUnfold(chunk: seq<byte>)
    requires |chunk| > 0
    ensures Quads(chunk) ==
              Quad(chunk[0], if |chunk| > 1 then chunk[1] else 0, if |chunk| > 2 then chunk[2] else 0) +
              Quads(if |chunk| > 3 then chunk[3..] else [])
  {
    hide Quad;
    if |chunk| == 3 {
      assert chunk[3..] == [];
    }
  }

  lemma TriplesUnfold(q: seq<byte>, s: seq<byte>)
    requires |q| == 4 && |s| % 4 == 0
    ensures Triples(q + s) == Triple(q[0], q[1], q[2], q[3]) + Triples(s)
  {
    assert (q + s)[4..] == s;
  }

  lemma {:induction false} QuadsTriples(chunk: seq<byte>)
    ensures |Triples(Quads(chunk))| >= |chunk| && Triples(Quads(chunk))[..|chunk|] == chunk
    decreases |chunk|
  {
    hide Quad, Quads, Triple, Triples;
    if |chunk| == 0 {
      TriplesLength(Quads(chunk));
    } else {
      var a := chunk[0];
      var c := if |chunk| > 1 then chunk[1] else 0;
      var d := if |chunk| > 2 then chunk[2] else 0;
      var more := if |chunk| > 3 then chunk[3..] else [];
      QuadTriple(a, c, d);
      QuadsTriples(more);
      QuadsUnfold(chunk);
      TriplesUnfold(Quad(a, c, d), Quads(more));
      FirstThree(chunk, a, c, d, more, Triples(Quads(more)));
    }
  }

  lemma FirstThree(chunk: seq<byte>, a: byte, c: byte, d: byte, more: seq<byte>, t: seq<byte>)
    requires |chunk| > 0 && more == (if |chunk| > 3 then chunk[3..] else []) && |t| >= |more| && t[..|more|] == more
    requires a == chunk[0] && (|chunk| > 1 ==> c == chunk[1]) && (|chunk| > 2 ==> d == chunk[2])
    ensures |[a, c, d] + t| >= |chunk| && ([a, c, d] + t)[..|chunk|] == chunk
  {
    forall i | 0 <= i < |chunk|
      ensures ([a, c, d] + t)[i] == chunk[i]
    {
      if i >= 3 {
        assert t[..|more|][i - 3] == more[i - 3];
      }
    }
  }

  lemma RowDecodes(chunk: seq<byte>, rest: seq<byte>)
    requires 0 < |chunk| <= ROW
    ensures DecodeRows(Row(chunk) + rest) == PushAll(chunk, DecodeRows(rest))
  {
    hide Quads, Triples, Enc, Dec, Bytes, FirstLine, AfterLine, Row;
    var n := |chunk|;
    EncDec(n);
    QuadsTriples(chunk);
    RowParts(chunk, rest);
  }

  lemma RowParts(chunk: seq<byte>, rest: seq<byte>)
    requires 0 < |chunk| <= ROW
    ensures var s, l := Row(chunk) + rest, Width(|chunk|);
            && |s| >= l + 3 && s[0] == Enc(|chunk|) && s[1..l + 1] == Quads(chunk)
            && s[l + 1..l + 3] == CRLF && s[l + 3..] == rest
  {
    hide Quads, Enc;
    var s, l := Row(chunk) + rest, Width(|chunk|);
    assert s == [Enc(|chunk|)] + Quads(chunk) + CRLF + rest;
  }

  lemma EndDecodes(rest: seq<byte>)
    ensures DecodeRows(End() + rest) == Decoded([], rest)
  {
    hide FirstLine, AfterLine, Bytes;
    var s, last := End() + rest, Bytes("end") + CRLF + rest;
    EncDec(0);
    EndPlain();
    FirstLineIs([Enc(0)], last);
    FirstLineIs(Bytes("end"), rest);
    assert s == [Enc(0)] + CRLF + last;
  }

  lemma EndPlain()
    ensures LF !in Bytes("end")
  {
  }

  lemma {:induction false} RowsDecode(data: seq<byte>, rest: seq<byte>)
    ensures DecodeRows(Rows(data) + End() + rest) == Decoded(data, rest)
    decreases |data|
  {
    hide DecodeRows, Row, End;
    EndDecodes(rest);
    if |data| == 0 {
      assert Rows(data) + End() + rest == End() + rest;
    } else {
      var n := if |data| > ROW then ROW else |data|;
      RowsDecode(data[n..], rest);
      RowDecodes(data[..n], Rows(data[n..]) + End() + rest);
      assert Rows(data) + End() + rest == Row(data[..n]) + (Rows(data[n..]) + End() + rest);
      assert data == data[..n] + data[n..];
    }
  }

  lemma BeginLine()
    ensures LF !in Bytes("begin 600 ") && Bytes("begin 600 ") == Bytes("begin ") + Bytes("600") + [SPACE]
    ensures SPACE !in Bytes("600")
  {
    assert "begin 600 " == "begin " + "600" + " ";
  }

  lemma Mode600()
    ensures Numeral(Bytes("600"), 8) && Number(Bytes("600"), 8) == 384
  {
    hide Number, Numeral, Bytes;
    NumberNone(8);
    NumberAppend([], 6, 8);
    NumberAppend([54], 0, 8);
    NumberAppend([54, 48], 0, 8);
    assert [] + [54] == [54] && [54] + [48] == [54, 48];
    Text600();
  }

  lemma Text600()
    ensures Bytes("600") == [54, 48] + [48]
  {
  }

  lemma PlainNameDecodes(name: seq<byte>, data: seq<byte>, rest: seq<byte>)
    requires LF !in name
    ensures Decode(Encoded(name, data) + rest) == File(name, 384, data, rest)
  {
    hide Rows, End, Bytes, DecodeRows, AfterLine, FirstLine, Before, Number;
    BeginLine();
    Mode600();
    var line := Bytes("begin 600 ") + name;
    var body := Rows(data) + End() + rest;
    assert Encoded(name, data) + rest == line + CRLF + body;
    FirstLineIs(line, body);
    RowsDecode(data, rest);
    var words := Bytes("600") + [SPACE] + name;
    assert line == Bytes("begin ") + words && line[6..] == words;
    BeforeIs(Bytes("600"), SPACE, name);
    assert words[4..] == name;
  }

  // The decoder gets name, mode and data back, and stops right after the end line, exactly
  // when the name has no LF.
  lemma RoundTrip(name: seq<byte>, data: seq<byte>, rest: seq<byte>)
    ensures Decode(Encoded(name, data) + rest) == File(name, 384, data, rest) <==> LF !in name
  {
    hide Encoded, DecodeRows, FirstLine;
    if LF !in name {
      PlainNameDecodes(name, data, rest);
    } else {
      FirstLineHasNone(Encoded(name, data) + rest);
    }
  }

  // A name that is one LF does not come back.
  lemma LineEndInName(data: seq<byte>, rest: seq<byte>)
    ensures Decode(Encoded([LF], data) + rest) != File([LF], 384, data, rest)
  {
    hide Decode, Encoded;
    RoundTrip([LF], data, rest);
  }

  // --- What the lines look like -------------------------------------------------------------------------

  lemma {:induction false} QuadsShown(chunk: seq<byte>)
    ensures forall i :: 0 <= i < |Quads(chunk)| ==> 33 <= Quads(chunk)[i] <= 96
  {
    if |chunk| >= 3 {
      QuadsShown(chunk[3..]);
    }
  }

  lemma RowPaired(chunk: seq<byte>)
    requires |chunk| <= ROW
    ensures Safe(Row(chunk))
  {
    hide Safe, Quads;
    QuadsShown(chunk);
    var line := [Enc(|chunk|)] + Quads(chunk);
    assert LF !in line;
    LinePaired(line);
  }

  lemma {:induction false} RowsPaired(data: seq<byte>)
    ensures Safe(Rows(data))
    decreases |data|
  {
    hide Row;
    if |data| != 0 {
      var n := if |data| > ROW then ROW else |data|;
      RowPaired(data[..n]);
      RowsPaired(data[n..]);
      JoinPaired(Row(data[..n]), Rows(data[n..]));
    }
  }

  lemma EndPaired()
    ensures Safe(End()) && EndsWithCrlf(End())
  {
    var first, last: seq<byte> := [Enc(0)], Bytes("end");
    LinePaired(first);
    LinePaired(last);
    JoinPaired(first + CRLF, last + CRLF);
    assert End() == (first + CRLF) + (last + CRLF);
  }

  // A file whose name has no LF pairs every LF with a CR, and ends with CRLF.
  lemma EncodedPaired(name: seq<byte>, data: seq<byte>)
    requires LF !in name
    ensures Paired(Encoded(name, data), false) && EndsWithCrlf(Encoded(name, data))
  {
    hide Bytes, Rows, End, Paired;
    BeginLine();
    var line := Bytes("begin 600 ") + name;
    LinePaired(line);
    RowsPaired(data);
    EndPaired();
    JoinPaired(line + CRLF, Rows(data));
    JoinPaired(line + CRLF + Rows(data), End());
  }

  // --- What the rows look like --------------------------------------------------------------------------------

  // Every row but the last carries 45 bytes: its count, its 60 characters and CRLF.
  lemma {:induction false} RowsFilled(data: seq<byte>)
    ensures |Rows(data)| ==
              |data| / 45 * 63 + if |data| % 45 == 0 then 0 else 3 + (|data| % 45 + 2) / 3 * 4
    decreases |data|
  {
    hide Row;
    if |data| > 45 {
      RowsFilled(data[45..]);
      RowLength(data[..45]);
      assert |data| / 45 == 1 + |data[45..]| / 45 && |data| % 45 == |data[45..]| % 45;
    } else if |data| != 0 {
      RowLength(data);
      assert data[..|data|] == data && data[|data|..] == [];
    }
  }

  lemma RowLength(chunk: seq<byte>)
    requires |chunk| <= ROW
    ensures |Row(chunk)| == 3 + (|chunk| + 2) / 3 * 4
  {
  }

  // The rows hold line ends and characters from ! to `, and so no space that could be stripped.
  predicate RowByte(v: byte) {
    v == CR || v == LF || 33 <= v <= 96
  }

  lemma {:induction false} QuadsPlain(chunk: seq<byte>)
    ensures forall i :: 0 <= i < |Quads(chunk)| ==> RowByte(Quads(chunk)[i])
  {
    if |chunk| >= 3 {
      QuadsPlain(chunk[3..]);
    }
  }

  lemma {:induction false} RowsPlain(data: seq<byte>)
    ensures forall i :: 0 <= i < |Rows(data)| ==> RowByte(Rows(data)[i])
    decreases |data|
  {
    if |data| != 0 {
      var n := if |data| > ROW then ROW else |data|;
      QuadsPlain(data[..n]);
      RowsPlain(data[n..]);
    }
  }
}
