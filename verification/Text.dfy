// Bytes, decimal numerals and lines: what fmt and bytes.Buffer do for the encoders.
module Text {
  import opened Arithmetic
  import opened Wrappers

  type byte = x: int | 0 <= x < 256

  const CR: byte := 13
  const LF: byte := 10
  const SPACE: byte := 32
  const DOT: byte := '.' as int
  const EQUALS: byte := '=' as int
  const CRLF: seq<byte> := [CR, LF]

  // The bytes of an ASCII string.
  function Bytes(s: string): (r: seq<byte>)
    ensures |r| == |s|
  {
    seq(|s|, i requires 0 <= i < |s| => s[i] as int % 256)
  }

  // --- Decimal numerals -------------------------------------------------------------------------------

  function Digit(d: nat): char
    requires d < 10
  {
    '0' + d as char
  }

  function Decimal(n: nat): string {
    if n < 10 then [Digit(n)] else Decimal(n / 10) + [Digit(n % 10)]
  }

  function Value(s: string): int {
    if |s| == 0 then 0 else 10 * Value(s[..|s| - 1]) + (s[|s| - 1] as int - '0' as int)
  }

  lemma {:induction false} DecimalValue(n: nat)
    ensures Value(Decimal(n)) == n
    ensures forall i :: 0 <= i < |Decimal(n)| ==> '0' <= Decimal(n)[i] <= '9'
  {
    if n >= 10 {
      DecimalValue(n / 10);
      assert Decimal(n)[..|Decimal(n)| - 1] == Decimal(n / 10);
    }
  }

  // --- Line ends ----------------------------------------------------------------------------------------

  // Every LF is preceded by CR; cr says whether a CR comes before s.
  predicate Paired(s: seq<byte>, cr: bool) {
    forall i :: 0 <= i < |s| ==> PairedAt(s, cr, i)
  }

  predicate PairedAt(s: seq<byte>, cr: bool, i: nat)
    requires i < |s|
  {
    s[i] == LF ==> if i == 0 then cr else s[i - 1] == CR
  }

  predicate EndsWithCrlf(s: seq<byte>) {
    |s| >= 2 && s[|s| - 2] == CR && s[|s| - 1] == LF
  }

  lemma PairedConcat(s: seq<byte>, t: seq<byte>, cr: bool)
    requires Paired(s, cr) && Paired(t, if |s| == 0 then cr else s[|s| - 1] == CR)
    ensures Paired(s + t, cr)
  {
    forall i | 0 <= i < |s + t|
      ensures PairedAt(s + t, cr, i)
    {
      if i < |s| {
        assert PairedAt(s, cr, i);
      } else {
        assert PairedAt(t, if |s| == 0 then cr else s[|s| - 1] == CR, i - |s|);
      }
    }
  }

  // Paired whatever comes before.
  ghost predicate Safe(s: seq<byte>) {
    forall cr :: Paired(s, cr)
  }

  lemma JoinPaired(s: seq<byte>, t: seq<byte>)
    requires Safe(s) && Safe(t)
    ensures Safe(s + t)
  {
    forall cr
      ensures Paired(s + t, cr)
    {
      PairedConcat(s, t, cr);
    }
  }

  lemma NoLinePaired(s: seq<byte>, cr: bool)
    requires LF !in s
    ensures Paired(s, cr)
  {
    forall i | 0 <= i < |s|
      ensures PairedAt(s, cr, i)
    {
      assert s[i] in s;
    }
  }

  lemma CrlfPaired(cr: bool)
    ensures Paired(CRLF, cr)
  {
  }

  lemma LinePaired(line: seq<byte>)
    requires LF !in line
    ensures Safe(line + CRLF)
  {
    forall cr
      ensures Paired(line + CRLF, cr)
    {
      NoLinePaired(line, cr);
      CrlfPaired(if |line| == 0 then cr else line[|line| - 1] == CR);
      PairedConcat(line, CRLF, cr);
    }
  }

  predicate Printable(s: string) {
    forall i :: 0 <= i < |s| ==> ' ' <= s[i] <= '~'
  }

  lemma PrintableBytes(s: string)
    requires Printable(s)
    ensures LF !in Bytes(s) && CR !in Bytes(s)
  {
  }

  // The bytes after the first line end.
  function AfterLine(s: seq<byte>): seq<byte> {
    if |s| == 0 then [] else if s[0] == LF then s[1..] else AfterLine(s[1..])
  }

  lemma {:induction false} LineSkipped(line: seq<byte>, rest: seq<byte>)
    requires LF !in line
    ensures AfterLine(line + CRLF + rest) == rest
  {
    var s := line + CRLF + rest;
    if |line| == 0 {
      assert s[1..][1..] == rest;
    } else {
      LineSkipped(line[1..], rest);
      assert s[1..] == line[1..] + CRLF + rest;
    }
  }

  // The bytes before the first v.
  function Before(s: seq<byte>, v: byte): seq<byte> {
    if |s| == 0 || s[0] == v then [] else [s[0]] + Before(s[1..], v)
  }

  lemma {:induction false} BeforeIs(line: seq<byte>, v: byte, rest: seq<byte>)
    requires v !in line
    ensures Before(line + [v] + rest, v) == line
  {
    var s := line + [v] + rest;
    if |line| != 0 {
      BeforeIs(line[1..], v, rest);
      assert s[1..] == line[1..] + [v] + rest;
    }
  }

  lemma {:induction false} BeforeAll(line: seq<byte>, v: byte)
    requires v !in line
    ensures Before(line, v) == line
  {
    if |line| != 0 {
      BeforeAll(line[1..], v);
    }
  }

  lemma {:induction false} BeforeHasNone(s: seq<byte>, v: byte)
    ensures v !in Before(s, v) && |Before(s, v)| <= |s|
    ensures Before(s, v) <= s
    ensures v !in s ==> Before(s, v) == s
  {
    if |s| != 0 && s[0] != v {
      BeforeHasNone(s[1..], v);
    }
  }

  // The first line, without the LF or CRLF that ends it.
  function FirstLine(s: seq<byte>): seq<byte> {
    var line := Before(s, LF);
    if |line| > 0 && line[|line| - 1] == CR then line[..|line| - 1] else line
  }

  lemma FirstLineIs(line: seq<byte>, rest: seq<byte>)
    requires LF !in line
    ensures FirstLine(line + CRLF + rest) == line && AfterLine(line + CRLF + rest) == rest
  {
    LineSkipped(line, rest);
    BeforeIs(line + [CR], LF, rest);
    assert line + CRLF + rest == line + [CR] + [LF] + rest;
  }

  lemma FirstLineHasNone(s: seq<byte>)
    ensures LF !in FirstLine(s)
  {
    BeforeHasNone(s, LF);
  }

  // --- Numerals as bytes ----------------------------------------------------------------------------------

  predicate Numeral(s: seq<byte>, base: nat) {
    forall i :: 0 <= i < |s| ==> 48 <= s[i] < 48 + base
  }

  function Number(s: seq<byte>, base: nat): nat
    requires Numeral(s, base)
  {
    if |s| == 0 then 0 else Number(s[..|s| - 1], base) * base + (s[|s| - 1] - 48)
  }

  lemma NumberAppend(s: seq<byte>, d: nat, base: nat)
    requires Numeral(s, base) && d < base <= 10
    ensures Numeral(s + [48 + d], base) && Number(s + [48 + d], base) == Number(s, base) * base + d
  {
    assert (s + [48 + d])[..|s|] == s;
  }

  lemma {:induction false} DecimalNumber(n: nat)
    ensures |Decimal(n)| >= 1 && Numeral(Bytes(Decimal(n)), 10) && Number(Bytes(Decimal(n)), 10) == n
  {
    hide Number, Numeral;
    if n < 10 {
      NumberNone(10);
      NumberAppend([], n, 10);
      assert Bytes(Decimal(n)) == [] + [48 + n];
    } else {
      DecimalNumber(n / 10);
      NumberAppend(Bytes(Decimal(n / 10)), n % 10, 10);
      assert Bytes(Decimal(n)) == Bytes(Decimal(n / 10)) + [48 + n % 10];
    }
  }

  lemma NumberNone(base: nat)
    ensures Numeral([], base) && Number([], base) == 0
  {
  }

  // --- Integers and checksums -----------------------------------------------------------------------------

  const MINUS: byte := '-' as int

  // "%d"
  function Signed(n: int): string {
    if n < 0 then "-" + Decimal(-n) else Decimal(n)
  }

  function ReadNatural(s: seq<byte>): Option<int> {
    if |s| > 0 && Numeral(s, 10) then Some(Number(s, 10)) else None
  }

  function ReadInteger(s: seq<byte>): Option<int> {
    if |s| > 0 && s[0] == MINUS then
      var n := ReadNatural(s[1..]);
      if n.None? then None else Some(-n.value)
    else ReadNatural(s)
  }

  // A printed integer is digits, after a sign if it is negative.
  lemma SignedText(n: int)
    ensures Printable(Signed(n)) && ' ' !in Signed(n)
  {
    hide Decimal;
    DecimalValue(if n < 0 then -n else n);
  }

  lemma SignedRead(n: int)
    ensures ReadInteger(Bytes(Signed(n))) == Some(n)
  {
    hide Number, Decimal;
    var digits := Bytes(Decimal(if n < 0 then -n else n));
    DecimalNumber(if n < 0 then -n else n);
    if n < 0 {
      assert Bytes(Signed(n))[1..] == digits;
    }
  }

  function HexDigit(d: nat): char
    requires d < 16
  {
    if d < 10 then '0' + d as char else 'a' + (d - 10) as char
  }

  // "%0wx" of a number that w digits can hold.
  function Hex(n: nat, w: nat): (r: string)
    ensures |r| == w
  {
    if w == 0 then "" else Hex(n / 16, w - 1) + [HexDigit(n % 16)]
  }

  function HexValue(v: byte): Option<nat> {
    if 48 <= v < 58 then Some(v - 48)
    else if 97 <= v < 103 then Some(v - 87)
    else if 65 <= v < 71 then Some(v - 55)
    else None
  }

  function ReadHex(s: seq<byte>): Option<nat> {
    if |s| == 0 then Some(0)
    else
      var high, low := ReadHex(s[..|s| - 1]), HexValue(s[|s| - 1]);
      if high.None? || low.None? then None else Some(16 * high.value + low.value)
  }

  type uint32 = x: int | 0 <= x < 0x1_0000_0000

  // "%08x"
  function Hex8(n: uint32): (r: string)
    ensures |r| == 8
  {
    Hex(n, 8)
  }

  lemma Hex8Read(n: uint32)
    ensures ReadHex(Bytes(Hex8(n))) == Some(n)
    ensures Printable(Hex8(n)) && ' ' !in Hex8(n)
  {
    assert PowerOf(16, 4) == 65536;
    assert PowerOf(16, 6) == 65536 * 256;
    assert PowerOf(16, 8) == 0x1_0000_0000;
    HexRead(n, 8);
  }

  lemma {:induction false} HexRead(n: nat, w: nat)
    requires n < PowerOf(16, w)
    ensures ReadHex(Bytes(Hex(n, w))) == Some(n)
    ensures Printable(Hex(n, w)) && ' ' !in Hex(n, w)
  {
    hide HexDigit, HexValue, Bytes, Printable, ReadHex;
    if w == 0 {
      NothingHex();
    } else {
      var more := Hex(n / 16, w - 1);
      HexRead(n / 16, w - 1);
      HexDigitRead(n % 16);
      HexNext(more, n % 16);
      TakeDigit(n, PowerOf(16, w - 1));
    }
  }

  lemma NothingHex()
    ensures ReadHex(Bytes("")) == Some(0) && Printable("")
  {
  }

  lemma TakeDigit(n: nat, p: nat)
    requires n < 16 * p
    ensures n / 16 < p && 16 * (n / 16) + n % 16 == n
  {
  }

  lemma HexDigitRead(d: nat)
    requires d < 16
    ensures HexValue(HexDigit(d) as int) == Some(d) && ' ' < HexDigit(d) <= '~'
  {
  }

  lemma HexNext(s: string, d: nat)
    requires d < 16 && ReadHex(Bytes(s)).Some? && HexValue(HexDigit(d) as int) == Some(d)
    requires ' ' < HexDigit(d) <= '~'
    ensures ReadHex(Bytes(s + [HexDigit(d)])) == Some(16 * ReadHex(Bytes(s)).value + d)
    ensures Printable(s) && ' ' !in s ==> Printable(s + [HexDigit(d)]) && ' ' !in s + [HexDigit(d)]
  {
    hide HexDigit, HexValue;
    var t := Bytes(s + [HexDigit(d)]);
    assert t[..|s|] == Bytes(s) && t[|s|] == HexDigit(d) as int;
  }

  // --- What a decoder returns -----------------------------------------------------------------------------

  datatype Decoded = Broken | Decoded(data: seq<byte>, rest: seq<byte>)

  function PushAll(data: seq<byte>, d: Decoded): Decoded {
    match d
    case Broken => Broken
    case Decoded(more, rest) => Decoded(data + more, rest)
  }
}
