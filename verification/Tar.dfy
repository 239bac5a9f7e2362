// ustar archives of internal/adversarial/archives.go, and a reader for the ustar Interchange
// Format of IEEE Std 1003.1.
module Tar {
  import opened Arithmetic
  import opened Text

  const BLOCK := 512
  const NUL: byte := 0
  const SLASH: byte := '/' as int
  const REGULAR: byte := '0' as int

  function Zeros(n: nat): (r: seq<byte>)
    ensures |r| == n && forall i :: 0 <= i < n ==> r[i] == 0
  {
    seq(n, i => 0)
  }

  // --- Numbers in a header ------------------------------------------------------------------------------

  // "%0wo": at least w octal digits.
  function Octal(n: nat, w: nat): seq<byte> {
    if n == 0 && w == 0 then [] else Octal(n / 8, if w == 0 then 0 else w - 1) + [48 + n % 8]
  }

  lemma {:induction false} OctalFits(n: nat, w: nat)
    ensures Numeral(Octal(n, w), 8) && Number(Octal(n, w), 8) == n
    ensures |Octal(n, w)| >= w
    ensures |Octal(n, w)| == w <==> n < PowerOf(8, w)
    decreases n, w
  {
    hide Number, Numeral;
    if n == 0 && w == 0 {
      NumberNone(8);
    } else {
      OctalFits(n / 8, if w == 0 then 0 else w - 1);
      NumberAppend(Octal(n / 8, if w == 0 then 0 else w - 1), n % 8, 8);
    }
  }

  // --- Headers ----------------------------------------------------------------------------------------------

  // copy(h[at:], text) of the source: what does not fit is left out.
  function Copied(h: seq<byte>, at: nat, text: seq<byte>): (r: seq<byte>)
    requires at <= |h|
    ensures |r| == |h|
    ensures forall i :: 0 <= i < |h| ==> r[i] == if at <= i < at + |text| then text[i - at] else h[i]
  {
    var n := if |text| < |h| - at then |text| else |h| - at;
    h[..at] + text[..n] + h[at + n..]
  }

  function SumOf(h: seq<byte>): nat {
    if |h| == 0 then 0 else SumOf(h[..|h| - 1]) + h[|h| - 1]
  }

  const SPACES: seq<byte> := [32, 32, 32, 32, 32, 32, 32, 32]

  // The header with its checksum field blank, as the checksum is taken.
  function Blanked(h: seq<byte>): (r: seq<byte>)
    requires |h| == BLOCK
    ensures |r| == BLOCK
  {
    Copied(h, 148, SPACES)
  }

  function Checksummed(h: seq<byte>): (r: seq<byte>)
    requires |h| == BLOCK
    ensures |r| == BLOCK
  {
    Copied(Blanked(h), 148, Octal(SumOf(Blanked(h)), 6) + [NUL, SPACE])
  }

  const MODE: seq<byte> := Bytes("0000600") + [NUL]
  const OWNER: seq<byte> := Bytes("0000000") + [NUL]
  const TIME: seq<byte> := Bytes("00000000000") + [NUL]
  const MAGIC: seq<byte> := Bytes("ustar") + [NUL]
  const VERSION: seq<byte> := Bytes("00")

  function Fields(name: seq<byte>, size: nat, kind: byte, link: seq<byte>): (h: seq<byte>)
    ensures |h| == BLOCK
  {
    var h := Copied(Zeros(BLOCK), 0, name);
    var h := Copied(h, 100, MODE);
    var h := Copied(h, 108, OWNER);
    var h := Copied(h, 116, OWNER);
    var h := Copied(h, 124, Octal(size, 11) + [NUL]);
    var h := Copied(h, 136, TIME);
    var h := h[156 := kind];
    var h := Copied(h, 157, if |link| > 100 then link[..100] else link);
    Copied(h, 257, MAGIC + VERSION)
  }

  function Header(name: seq<byte>, size: nat, kind: byte, link: seq<byte>): (h: seq<byte>)
    ensures |h| == BLOCK
  {
    Checksummed(Fields(name, size, kind, link))
  }

  method Copy(h: array<byte>, at: nat, text: seq<byte>)
    requires at <= h.Length
    modifies h
    ensures h[..] == Copied(old(h[..]), at, text)
  {
    var n := if |text| < h.Length - at then |text| else h.Length - at;
    for i := 0 to n
      invariant forall k :: 0 <= k < h.Length ==>
        h[k] == if at <= k < at + i then text[k - at] else old(h[k])
    {
      h[at + i] := text[i];
    }
  }

  method TarChecksum(h: array<byte>)
    requires h.Length == BLOCK
    modifies h
    ensures h[..] == Checksummed(old(h[..]))
  {
    for i := 148 to 156
      invariant forall k :: 0 <= k < BLOCK ==> h[k] == if 148 <= k < i then 32 else old(h[k])
    {
      h[i] := 32;
    }
    assert h[..] == Blanked(old(h[..]));
    var sum: nat := 0;
    for i := 0 to h.Length
      invariant sum == SumOf(h[..i])
    {
      assert h[..i + 1][..i] == h[..i];
      sum := sum + h[i];
    }
    assert h[..h.Length] == h[..];
    Copy(h, 148, Octal(sum, 6) + [NUL, SPACE]);
  }

  method TarHeader(name: seq<byte>, size: nat, kind: byte, link: seq<byte>) returns (h: array<byte>)
    ensures fresh(h) && h[..] == Header(name, size, kind, link)
  {
    hide Copied, Octal, Checksummed;
    h := new byte[BLOCK](i => 0);
    assert h[..] == Zeros(BLOCK);
    Copy(h, 0, name);
    Copy(h, 100, MODE);
    Copy(h, 108, OWNER);
    Copy(h, 116, OWNER);
    Copy(h, 124, Octal(size, 11) + [NUL]);
    Copy(h, 136, TIME);
    ghost var before := h[..];
    h[156] := kind;
    assert h[..] == before[156 := kind];
    Copy(h, 157, if |link| > 100 then link[..100] else link);
    Copy(h, 257, MAGIC + VERSION);
    TarChecksum(h);
  }

  // --- Archives ---------------------------------------------------------------------------------------------

  datatype File = File(name: seq<byte>, data: seq<byte>)

  function Padding(n: nat): nat {
    (BLOCK - n % BLOCK) % BLOCK
  }

  function Entry(name: seq<byte>, data: seq<byte>, kind: byte, link: seq<byte>): seq<byte> {
    Header(name, |data|, kind, link) + data + Zeros(Padding(|data|))
  }

  function Entries(files: seq<File>): seq<byte> {
    if |files| == 0 then []
    else Entry(files[0].name, files[0].data, REGULAR, []) + Entries(files[1..])
  }

  function Archive(files: seq<File>): seq<byte> {
    Entries(files) + Zeros(2 * BLOCK)
  }

  method TarEntry(name: seq<byte>, data: seq<byte>, kind: byte, link: seq<byte>) returns (e: seq<byte>)
    ensures e == Entry(name, data, kind, link)
  {
    hide Header;
    var h := TarHeader(name, |data|, kind, link);
    e := h[..] + data;
    var padding := (BLOCK - |data| % BLOCK) % BLOCK;
    e := e + Zeros(padding);
  }

  method TarArchive(files: seq<File>) returns (d: seq<byte>)
    ensures d == Archive(files)
  {
    hide Entry;
    d := [];
    for i := 0 to |files|
      invariant d + Entries(files[i..]) == Entries(files)
    {
      var e := TarEntry(files[i].name, files[i].data, REGULAR, []);
      assert files[i..][1..] == files[i + 1..];
      assert d + (e + Entries(files[i + 1..])) == d + e + Entries(files[i + 1..]);
      d := d + e;
    }
    assert d + [] == d;
    d := d + Zeros(2 * BLOCK);
  }

  // --- The reader -------------------------------------------------------------------------------------------

  datatype Parsed<T> = Malformed | Parsed(value: T)

  // The octal digits at the front of a field.
  function Digits(f: seq<byte>): (r: seq<byte>)
    ensures |r| <= |f| && Numeral(r, 8)
  {
    if |f| > 0 && 48 <= f[0] < 56 then [f[0]] + Digits(f[1..]) else []
  }

  // The magic of the format, with its NUL.
  const USTAR: seq<byte> := [117, 115, 116, 97, 114, 0]

  // A numeric field: octal digits, ended by a space or a NUL.
  function FieldNumber(f: seq<byte>): Parsed<nat> {
    var d := Digits(f);
    if 0 < |d| < |f| && (f[|d|] == NUL || f[|d|] == SPACE) then Parsed(Number(d, 8)) else Malformed
  }

  // The stored checksum is the sum of the bytes with the checksum field read as spaces.
  predicate Verifies(h: seq<byte>)
    requires |h| == BLOCK
  {
    FieldNumber(h[148..156]) == Parsed(SumOf(Blanked(h)))
  }

  // A text field ends at its first NUL, or fills its whole width.
  function FieldText(f: seq<byte>): seq<byte> {
    Before(f, NUL)
  }

  // A name that is too long for its field begins in the prefix field.
  function FullName(h: seq<byte>): seq<byte>
    requires |h| == BLOCK
  {
    var prefix := FieldText(h[345..500]);
    (if prefix == [] then [] else prefix + [SLASH]) + FieldText(h[0..100])
  }

  // The permission bits, the owner and group numbers and the modification time.
  datatype Attributes = Attributes(mode: nat, uid: nat, gid: nat, time: nat)

  datatype Member = Member(name: seq<byte>, kind: byte, link: seq<byte>, attributes: Attributes, data: seq<byte>)

  function ReadAttributes(h: seq<byte>): Parsed<Attributes>
    requires |h| == BLOCK
  {
    var mode, uid, gid := FieldNumber(h[100..108]), FieldNumber(h[108..116]), FieldNumber(h[116..124]);
    var time := FieldNumber(h[136..148]);
    if mode.Malformed? || uid.Malformed? || gid.Malformed? || time.Malformed? then Malformed
    else Parsed(Attributes(mode.value, uid.value, gid.value, time.value))
  }

  function ReadArchive(s: seq<byte>): Parsed<seq<Member>>
    decreases |s|
  {
    if |s| < BLOCK then Malformed
    else
      var h := s[..BLOCK];
      if h == Zeros(BLOCK) then
        if |s| >= 2 * BLOCK && s[BLOCK..2 * BLOCK] == Zeros(BLOCK) then Parsed([]) else Malformed
      else if !Verifies(h) || h[257..263] != USTAR || h[263..265] != [48, 48] then Malformed
      else if ReadAttributes(h).Malformed? then Malformed
      else
        match FieldNumber(h[124..136])
        case Malformed => Malformed
        case Parsed(size) =>
          var end := BLOCK + size + Padding(size);
          if |s| < end then Malformed
          else
            match ReadArchive(s[end..])
            case Malformed => Malformed
            case Parsed(more) =>
              Parsed([Member(FullName(h), h[156], FieldText(h[157..257]), ReadAttributes(h).value,
                             s[BLOCK..BLOCK + size])] + more)
  }

  // --- Checksums --------------------------------------------------------------------------------------------

  lemma {:induction false} SumBound(h: seq<byte>)
    ensures SumOf(h) <= 255 * |h|
  {
    if |h| != 0 {
      SumBound(h[..|h| - 1]);
    }
  }

  lemma {:induction false} DigitsAre(d: seq<byte>, rest: seq<byte>)
    requires Numeral(d, 8) && (|rest| == 0 || !(48 <= rest[0] < 56))
    ensures Digits(d + rest) == d
  {
    if |d| == 0 {
      assert d + rest == rest;
    } else {
      DigitsAre(d[1..], rest);
      assert (d + rest)[1..] == d[1..] + rest;
    }
  }

  lemma FieldIs(d: seq<byte>, rest: seq<byte>)
    requires Numeral(d, 8) && |d| > 0
    ensures |rest| > 0 && (rest[0] == NUL || rest[0] == SPACE) ==> FieldNumber(d + rest) == Parsed(Number(d, 8))
    ensures |rest| == 0 ==> FieldNumber(d + rest) == Malformed
  {
    if |rest| == 0 || rest[0] == NUL || rest[0] == SPACE {
      DigitsAre(d, rest);
    }
  }

  lemma BlankSum(h: seq<byte>)
    requires |h| == BLOCK
    ensures |Octal(SumOf(Blanked(h)), 6)| == 6
  {
    hide Blanked;
    SumBound(Blanked(h));
    assert PowerOf(8, 3) == 512;
    assert PowerOf(8, 6) == 262144;
    OctalFits(SumOf(Blanked(h)), 6);
  }

  // Writing a checksum changes nothing but the checksum field.
  lemma ChecksumField(h: seq<byte>)
    requires |h| == BLOCK
    ensures Checksummed(h)[148..156] == Octal(SumOf(Blanked(h)), 6) + [NUL, SPACE]
    ensures forall i :: 0 <= i < BLOCK && !(148 <= i < 156) ==> Checksummed(h)[i] == h[i]
    ensures Blanked(Checksummed(h)) == Blanked(h)
  {
    hide SumOf, Octal;
    BlankSum(h);
    var text := Octal(SumOf(Blanked(h)), 6) + [NUL, SPACE];
    assert |text| == 8;
    assert Checksummed(h)[148..156] == text;
  }

  // Any header verifies once its checksum is written.
  lemma ChecksumVerifies(h: seq<byte>)
    requires |h| == BLOCK
    ensures Verifies(Checksummed(h))
  {
    hide Checksummed, Blanked, SumOf, Octal, FieldNumber, Number;
    ChecksumField(h);
    BlankSum(h);
    OctalFits(SumOf(Blanked(h)), 6);
    FieldIs(Octal(SumOf(Blanked(h)), 6), [NUL, SPACE]);
  }

  // Writing the checksum twice is writing it once.
  lemma ChecksumIdempotent(h: seq<byte>)
    requires |h| == BLOCK
    ensures Checksummed(Checksummed(h)) == Checksummed(h)
  {
    hide Blanked, SumOf, Octal;
    ChecksumField(h);
  }

  // --- The fields of a header -----------------------------------------------------------------------------

  // The bytes of a name where the fields between leave them in place.
  function NameByte(name: seq<byte>, i: nat): byte {
    if i < |name| then name[i] else 0
  }

  lemma FieldsLayout(name: seq<byte>, size: nat, kind: byte)
    ensures var h := Fields(name, size, kind, []);
            && (|Octal(size, 11)| == 11 ==>
                  forall i :: 0 <= i < 100 || 157 <= i < 257 || 345 <= i < 500 ==> h[i] == NameByte(name, i))
            && (forall i :: 124 <= i < 136 ==>
                  i - 124 < |Octal(size, 11)| + 1 ==> h[i] == (Octal(size, 11) + [NUL])[i - 124])
            && h[156] == kind && h[100] == 48
            && (forall i :: 100 <= i < 124 ==> h[i] == (MODE + OWNER + OWNER)[i - 100])
            && (forall i :: 136 <= i < 148 ==> h[i] == TIME[i - 136])
            && (forall i :: 257 <= i < 265 ==> h[i] == (MAGIC + VERSION)[i - 257])
  {
    hide Octal;
  }

  // The same fields once the checksum is written.
  lemma HeaderLayout(name: seq<byte>, size: nat, kind: byte)
    ensures var h := Header(name, size, kind, []);
            && (|Octal(size, 11)| == 11 ==>
                  forall i :: 0 <= i < 100 || 157 <= i < 257 || 345 <= i < 500 ==> h[i] == NameByte(name, i))
            && (forall i :: 124 <= i < 136 ==>
                  i - 124 < |Octal(size, 11)| + 1 ==> h[i] == (Octal(size, 11) + [NUL])[i - 124])
            && h[156] == kind && h[100] == 48
            && h[257..263] == USTAR && h[263..265] == [48, 48]
            && h[100..108] == MODE && h[108..116] == OWNER && h[116..124] == OWNER && h[136..148] == TIME
            && Verifies(h)
  {
    hide Octal, Fields, Checksummed, Blanked, SumOf, Verifies, NameByte;
    var f := Fields(name, size, kind, []);
    FieldsLayout(name, size, kind);
    ChecksumField(f);
    ChecksumVerifies(f);
    var h := Header(name, size, kind, []);
    assert h[257..265] == MAGIC + VERSION;
    assert h[257..263] == h[257..265][..6] && h[263..265] == h[257..265][6..];
    assert h[100..124] == MODE + OWNER + OWNER;
    assert h[100..108] == h[100..124][..8] && h[108..116] == h[100..124][8..16] && h[116..124] == h[100..124][16..];
    Magic();
  }

  lemma Magic()
    ensures MAGIC == USTAR && VERSION == [48, 48]
  {
  }

  lemma {:induction false} ZeroOctal(w: nat)
    ensures Octal(0, w) == seq(w, i => 48)
  {
    if w != 0 {
      ZeroOctal(w - 1);
    }
  }

  // A field that holds a number in octal and a NUL.
  lemma OctalField(n: nat, w: nat)
    requires w > 0
    ensures FieldNumber(Octal(n, w) + [NUL]) == Parsed(n)
  {
    OctalFits(n, w);
    FieldIs(Octal(n, w), [NUL]);
  }

  // Read and write for the owner, owner and group 0, and time 0: the texts of the source.
  lemma LiteralFields()
    ensures FieldNumber(MODE) == Parsed(384) && FieldNumber(OWNER) == Parsed(0) && FieldNumber(TIME) == Parsed(0)
  {
    hide FieldNumber;
    OctalField(384, 7);
    OctalField(0, 7);
    OctalField(0, 11);
    ZeroOctal(4);
    ZeroOctal(7);
    ZeroOctal(11);
    assert Octal(48, 6) == Octal(6, 5) + [48] && Octal(6, 5) == Octal(0, 4) + [54];
    assert Bytes("0000600") == Octal(384, 7);
    assert Bytes("0000000") == Octal(0, 7);
    assert Bytes("00000000000") == Octal(0, 11);
  }

  lemma AttributesRead(name: seq<byte>, size: nat, kind: byte)
    ensures ReadAttributes(Header(name, size, kind, [])) == Parsed(PLAIN)
  {
    hide Header, FieldNumber, Octal, Verifies, NameByte, MODE, OWNER, TIME;
    HeaderLayout(name, size, kind);
    LiteralFields();
  }

  // The size is read back exactly when it has at most eleven octal digits.
  lemma SizeField(name: seq<byte>, size: nat, kind: byte)
    ensures FieldNumber(Header(name, size, kind, [])[124..136]) ==
              if size < PowerOf(8, 11) then Parsed(size) else Malformed
  {
    hide Header, FieldNumber, Octal, Verifies, PowerOf;
    var h, d := Header(name, size, kind, []), Octal(size, 11);
    HeaderLayout(name, size, kind);
    OctalFits(size, 11);
    if |d| == 11 {
      assert h[124..136] == d + [NUL];
      FieldIs(d, [NUL]);
    } else {
      assert h[124..136] == d[..12];
      FieldIs(d[..12], []);
      assert d[..12] + [] == d[..12];
    }
  }

  // A field that holds the bytes of a name from position at on.
  lemma NameField(name: seq<byte>, at: nat, f: seq<byte>)
    requires forall i :: 0 <= i < |f| ==> f[i] == NameByte(name, at + i)
    ensures |name| <= at ==> FieldText(f) == []
    ensures at < |name| <= at + |f| && NUL !in name ==> FieldText(f) == name[at..]
  {
    if at < |name| <= at + |f| && NUL !in name {
      var text := name[at..];
      assert NUL !in text;
      if |name| == at + |f| {
        assert f == text;
        BeforeAll(text, NUL);
      } else {
        assert f == text + [NUL] + f[|text| + 1..];
        BeforeIs(text, NUL, f[|text| + 1..]);
      }
    } else if |name| <= at && |f| > 0 {
      assert f[0] == 0;
    }
  }

  // The name is read back exactly when it fits its field and has no NUL.
  lemma NameRead(name: seq<byte>, size: nat, kind: byte)
    requires size < PowerOf(8, 11)
    ensures FullName(Header(name, size, kind, [])) == name <==> |name| <= 100 && NUL !in name
    ensures |name| <= 100 ==> FieldText(Header(name, size, kind, [])[157..257]) == []
  {
    hide Header, Verifies, FieldText, Octal, NameByte;
    var h := Header(name, size, kind, []);
    HeaderLayout(name, size, kind);
    OctalFits(size, 11);
    NameField(name, 0, h[0..100]);
    NameField(name, 157, h[157..257]);
    NameField(name, 345, h[345..500]);
    FieldTextBounds(h[0..100]);
    FieldTextBounds(h[345..500]);
    if |name| <= 100 && NUL !in name {
      if |name| == 0 {
        NameField(name, 0, h[0..100]);
      } else {
        assert name[0..] == name;
      }
      assert [] + FieldText(h[0..100]) == FieldText(h[0..100]);
    }
  }

  lemma FieldTextBounds(f: seq<byte>)
    ensures |FieldText(f)| <= |f| && NUL !in FieldText(f)
  {
    BeforeHasNone(f, NUL);
  }

  // --- Round trip -------------------------------------------------------------------------------------------

  predicate Storable(f: File) {
    |f.name| <= 100 && NUL !in f.name && |f.data| < PowerOf(8, 11)
  }

  // Octal 600, and zeros.
  const PLAIN := Attributes(384, 0, 0, 0)

  function MemberOf(f: File): Member {
    Member(f.name, REGULAR, [], PLAIN, f.data)
  }

  function MembersOf(files: seq<File>): (r: seq<Member>)
    ensures |r| == |files|
  {
    seq(|files|, i requires 0 <= i < |files| => MemberOf(files[i]))
  }

  // Reading one entry and whatever follows it.
  lemma EntryRead(f: File, rest: seq<byte>)
    ensures var h := Header(f.name, |f.data|, REGULAR, []);
            ReadArchive(Entry(f.name, f.data, REGULAR, []) + rest) ==
              if |f.data| >= PowerOf(8, 11) || ReadArchive(rest).Malformed? then Malformed
              else Parsed([Member(FullName(h), REGULAR, FieldText(h[157..257]), PLAIN, f.data)] + ReadArchive(rest).value)
  {
    hide Header, Verifies, FieldNumber, FullName, FieldText, PowerOf, Octal, NameByte, ReadAttributes, MODE, OWNER, TIME;
    var h := Header(f.name, |f.data|, REGULAR, []);
    var padding := Zeros(Padding(|f.data|));
    var s := Entry(f.name, f.data, REGULAR, []) + rest;
    assert s == h + (f.data + (padding + rest));
    HeaderLayout(f.name, |f.data|, REGULAR);
    SizeField(f.name, |f.data|, REGULAR);
    AttributesRead(f.name, |f.data|, REGULAR);
    assert s[..BLOCK] == h && h[100] != Zeros(BLOCK)[100];
    var end := BLOCK + |f.data| + |padding|;
    assert s[BLOCK..BLOCK + |f.data|] == f.data && s[end..] == rest;
  }

  lemma EndRead()
    ensures ReadArchive(Zeros(2 * BLOCK)) == Parsed([])
  {
    var s := Zeros(2 * BLOCK);
    assert s[..BLOCK] == Zeros(BLOCK) && s[BLOCK..2 * BLOCK] == Zeros(BLOCK);
  }

  // An archive is read back as its files exactly when every file can be stored: a name of at
  // most 100 bytes without NUL, and less than 8 GiB of data.
  lemma {:induction false} ArchiveRoundTrip(files: seq<File>)
    ensures ReadArchive(Archive(files)) == Parsed(MembersOf(files)) <==>
              forall i :: 0 <= i < |files| ==> Storable(files[i])
  {
    hide ReadArchive, Header, FullName, FieldText, PowerOf, Entry;
    if |files| == 0 {
      assert Archive(files) == Zeros(2 * BLOCK);
      EndRead();
    } else {
      var f, more := files[0], files[1..];
      var h := Header(f.name, |f.data|, REGULAR, []);
      ArchiveRoundTrip(more);
      EntryRead(f, Archive(more));
      if |f.data| < PowerOf(8, 11) {
        NameRead(f.name, |f.data|, REGULAR);
      }
      assert Archive(files) == Entry(f.name, f.data, REGULAR, []) + Archive(more);
      assert MembersOf(files) == [MemberOf(f)] + MembersOf(more);
      HeadAndTail(Member(FullName(h), REGULAR, FieldText(h[157..257]), PLAIN, f.data), ReadArchive(Archive(more)),
        f, more);
      assert forall i :: 0 <= i < |more| ==> more[i] == files[i + 1];
    }
  }

  lemma HeadAndTail(m: Member, r: Parsed<seq<Member>>, f: File, more: seq<File>)
    ensures r.Parsed? ==>
              ([m] + r.value == [MemberOf(f)] + MembersOf(more) <==> m == MemberOf(f) && r.value == MembersOf(more))
  {
    if r.Parsed? && [m] + r.value == [MemberOf(f)] + MembersOf(more) {
      assert ([m] + r.value)[0] == m && ([MemberOf(f)] + MembersOf(more))[0] == MemberOf(f);
      assert ([m] + r.value)[1..] == r.value && ([MemberOf(f)] + MembersOf(more))[1..] == MembersOf(more);
    }
  }

  // A name of 101 bytes comes back short.
  lemma LongName(data: seq<byte>)
    ensures var name := seq(101, i => 97);
            ReadArchive(Archive([File(name, data)])) != Parsed(MembersOf([File(name, data)]))
  {
    hide ReadArchive, Archive, MembersOf;
    var files := [File(seq(101, i => 97), data)];
    ArchiveRoundTrip(files);
    assert !Storable(files[0]);
  }
}
