// Variable-length integers of internal/adversarial/binary_formats.go: RAR 5 vint and the
// 7z number. The readers follow the two public formats.
module Numbers {
  import opened Arithmetic
  import opened Text

  const TWO_TO_64 := 0x1_0000_0000_0000_0000

  type uint64 = x: int | 0 <= x < TWO_TO_64

  datatype Parsed = Malformed | Parsed(value: nat, rest: seq<byte>)

  // --- RAR 5 vint -----------------------------------------------------------------------------------

  // Seven bits to a byte, least significant first; byte(v)|128 is v % 128 + 128.
  function VintOf(v: nat): (r: seq<byte>)
    ensures |r| >= 1
  {
    if v < 128 then [v] else [v % 128 + 128] + VintOf(v / 128)
  }

  // The masks and shifts of the loop are these remainders and quotients.
  lemma VintBits(v: bv64)
    ensures (v & 0xff) | 0x80 == v % 128 + 128
    ensures v >> 7 == v / 128 && v & 0xff == v % 256 && v >> 8 == v / 256
  {
  }

  method Vint(v: uint64) returns (out: seq<byte>)
    ensures out == VintOf(v)
  {
    out := [];
    var rest: nat := v;
    while rest >= 128
      invariant out + VintOf(rest) == VintOf(v)
    {
      assert out + VintOf(rest) == out + [rest % 128 + 128] + VintOf(rest / 128);
      out := out + [rest % 128 + 128];
      rest := rest / 128;
    }
    out := out + [rest];
  }

  // The reader: bytes with the high bit set are continued.
  function ReadVint(s: seq<byte>): Parsed {
    if |s| == 0 then Malformed
    else if s[0] < 128 then Parsed(s[0], s[1..])
    else
      match ReadVint(s[1..])
      case Malformed => Malformed
      case Parsed(v, rest) => Parsed(s[0] - 128 + 128 * v, rest)
  }

  lemma {:induction false} VintRoundTrip(v: nat, rest: seq<byte>)
    ensures ReadVint(VintOf(v) + rest) == Parsed(v, rest)
  {
    var s := VintOf(v) + rest;
    if v < 128 {
      assert s[1..] == rest;
    } else {
      VintRoundTrip(v / 128, rest);
      assert s[1..] == VintOf(v / 128) + rest;
    }
  }

  lemma VintPrefixFree(v: nat, w: nat)
    requires VintOf(v) <= VintOf(w)
    ensures v == w
  {
    var rest := VintOf(w)[|VintOf(v)|..];
    VintRoundTrip(v, rest);
    VintRoundTrip(w, []);
    assert VintOf(v) + rest == VintOf(w) == VintOf(w) + [];
  }

  // No other spelling that a reader accepts is shorter.
  lemma {:induction false} VintShortest(s: seq<byte>, v: nat)
    requires ReadVint(s) == Parsed(v, [])
    ensures |VintOf(v)| <= |s|
  {
    if s[0] >= 128 {
      var w := ReadVint(s[1..]).value;
      VintShortest(s[1..], w);
      assert v == s[0] - 128 + 128 * w;
      VintLonger(v, w);
    }
  }

  lemma VintLonger(v: nat, w: nat)
    requires v / 128 == w
    ensures |VintOf(v)| <= |VintOf(w)| + 1
  {
  }

  // The length counts the base-128 digits, so no 64-bit number needs more than ten bytes.
  lemma {:induction false} VintLength(v: nat, n: nat)
    requires n >= 1
    ensures |VintOf(v)| <= n <==> v < PowerOf(128, n)
  {
    if n == 1 {
      assert PowerOf(128, 1) == 128;
    } else {
      assert PowerOf(128, n) == 128 * PowerOf(128, n - 1);
      VintLength(v / 128, n - 1);
      VintOneByte(v, n);
    }
  }

  lemma VintOneByte(v: nat, n: nat)
    requires n >= 2
    ensures v < 128 ==> v < 128 * PowerOf(128, n - 1)
  {
    PowerPositive(128, n - 1);
  }

  lemma {:induction false} PowerPositive(base: nat, n: nat)
    requires base >= 1
    ensures PowerOf(base, n) >= 1
  {
    if n != 0 {
      PowerPositive(base, n - 1);
      AtLeastOne(base, PowerOf(base, n - 1));
    }
  }

  lemma AtLeastOne(a: nat, b: nat)
    requires a >= 1 && b >= 1
    ensures a * b >= 1
  {
  }

  lemma VintTenBytes(v: uint64)
    ensures |VintOf(v)| <= 10
  {
    PowersOf128();
    VintLength(v, 10);
  }

  lemma PowersOf128()
    ensures PowerOf(128, 10) == 64 * TWO_TO_64
  {
    assert PowerOf(128, 2) == 16384;
    assert PowerOf(128, 4) == 16384 * 16384;
    assert PowerOf(128, 6) == 16384 * 16384 * 16384;
    assert PowerOf(128, 8) == 16384 * 16384 * 16384 * 16384;
  }

  // --- 7z number ------------------------------------------------------------------------------------

  // The n low bytes of v, least significant first, and v shifted right by n bytes.
  function Little(v: nat, n: nat): (r: seq<byte>)
    ensures |r| == n
  {
    if n == 0 then [] else [v % 256] + Little(v / 256, n - 1)
  }

  function Shifted(v: nat, n: nat): nat {
    if n == 0 then v else Shifted(v / 256, n - 1)
  }

  // The number with these low bytes and the rest above them.
  function Joined(low: seq<byte>, high: nat): nat {
    if |low| == 0 then high else low[0] + 256 * Joined(low[1..], high)
  }

  // 1 << (7 + 7 * n): the first number that does not fit n extra bytes.
  function Limit(n: nat): nat
    requires n < 8
  {
    PowerOf(2, 7 + 7 * n)
  }

  // What the first byte can hold beside its prefix of n one bits.
  function Room(n: nat): nat
    requires n < 8
  {
    PowerOf(2, 7 - n)
  }

  // The prefix: byte(0xff << (8 - n)).
  function Prefix(n: nat): nat
    requires n < 8
  {
    Rooms(n);
    256 - 2 * Room(n)
  }

  lemma Rooms(n: nat)
    requires n < 8
    ensures 1 <= Room(n) <= 128
    ensures n < 7 ==> Room(n) == 2 * Room(n + 1)
    ensures n == 0 ==> Room(n) == 128
    ensures n == 7 ==> Room(n) == 1
  {
    assert PowerOf(2, 3) == 8;
    assert PowerOf(2, 5) == 32;
    assert PowerOf(2, 7) == 128;
    assert Room(0) == 128 && Room(1) == 64 && Room(2) == 32 && Room(3) == 16;
    assert Room(4) == 8 && Room(5) == 4 && Room(6) == 2 && Room(7) == 1;
  }

  // Or-ing the prefix with what fits beside it adds the two.
  lemma FirstByteBits(high: bv16, n: bv16)
    requires n < 8 && high < 1 << (7 - n)
    ensures ((0xff << (8 - n)) & 0xff) | high == (256 - 2 * (1 << (7 - n))) + high
  {
  }

  // The fewest extra bytes, from n on; eight when none of the shorter forms fits.
  function Extra(v: nat, n: nat): (r: nat)
    requires n <= 8
    ensures n <= r <= 8
    ensures r < 8 ==> v < Limit(r)
    ensures forall k :: n <= k < r ==> v >= Limit(k)
    decreases 8 - n
  {
    if n == 8 || v < Limit(n) then n else Extra(v, n + 1)
  }

  function SevenOf(v: nat): (r: seq<byte>)
    requires v < TWO_TO_64
    ensures |r| == 1 + Extra(v, 0)
  {
    var n := Extra(v, 0);
    if n == 8 then [255] + Little(v, 8) else [FirstByte(v, n)] + Little(v, n)
  }

  function FirstByte(v: nat, n: nat): byte
    requires n < 8 && v < Limit(n)
  {
    FirstByteFits(v, n);
    Prefix(n) + Shifted(v, n)
  }

  lemma FirstByteFits(v: nat, n: nat)
    ensures n < 8 && v < Limit(n) ==> Shifted(v, n) < Room(n) && 0 <= Prefix(n) + Shifted(v, n) < 256 - Room(n)
  {
    if n < 8 && v < Limit(n) {
      LimitIs(n);
      ShiftedBound(v, n, Room(n));
      Rooms(n);
    }
  }

  lemma LimitIs(n: nat)
    requires n < 8
    ensures Limit(n) == Room(n) * PowerOf(256, n)
    decreases n
  {
    if n == 0 {
      assert PowerOf(256, 0) == 1;
    } else {
      LimitIs(n - 1);
      Rooms(n - 1);
      PowerSeven(7 * n);
      assert Limit(n) == 128 * Limit(n - 1);
      Regroup(Room(n), PowerOf(256, n - 1));
    }
  }

  lemma PowerSeven(n: nat)
    ensures PowerOf(2, n + 7) == 128 * PowerOf(2, n)
  {
    assert PowerOf(2, n + 2) == 4 * PowerOf(2, n);
    assert PowerOf(2, n + 4) == 16 * PowerOf(2, n);
    assert PowerOf(2, n + 6) == 64 * PowerOf(2, n);
  }

  lemma Regroup(a: nat, b: nat)
    ensures 128 * (2 * a * b) == a * (256 * b)
  {
  }

  lemma {:induction false} ShiftedBound(v: nat, n: nat, r: nat)
    ensures Shifted(v, n) < r <==> v < r * PowerOf(256, n)
  {
    if n != 0 {
      ShiftedBound(v / 256, n - 1, r);
      Regroup256(r, PowerOf(256, n - 1));
    } else {
      assert r * PowerOf(256, 0) == r;
    }
  }

  lemma Regroup256(a: nat, b: nat)
    ensures a * (256 * b) == 256 * (a * b)
  {
  }

  method LittleBytes(v: nat, n: nat) returns (out: seq<byte>)
    ensures out == Little(v, n)
  {
    out := [];
    var rest := v;
    for j := 0 to n
      invariant out + Little(rest, n - j) == Little(v, n)
    {
      assert out + Little(rest, n - j) == out + [rest % 256] + Little(rest / 256, n - j - 1);
      out := out + [rest % 256];
      rest := rest / 256;
    }
    assert out + [] == out;
  }

  method SevenUint(v: uint64) returns (out: seq<byte>)
    ensures out == SevenOf(v)
  {
    hide Limit, Prefix, Room, Shifted;
    for n := 0 to 8
      invariant Extra(v, 0) == Extra(v, n)
    {
      if v < Limit(n) {
        var low := LittleBytes(v, n);
        out := [FirstByte(v, n)] + low;
        return;
      }
    }
    var low := LittleBytes(v, 8);
    out := [255] + low;
  }

  // The number of leading one bits of a first byte, from n on.
  function Leading(first: byte, n: nat): (r: nat)
    requires n <= 8
    ensures n <= r <= 8
    decreases 8 - n
  {
    if n == 8 || first < 256 - Room(n) then n else Leading(first, n + 1)
  }

  // The reader: that many bytes follow, least significant first, and the first byte's
  // remaining bits go above them.
  function ReadSeven(s: seq<byte>): Parsed {
    if |s| == 0 then Malformed
    else
      var n := Leading(s[0], 0);
      if |s| < 1 + n then Malformed
      else
        var high := if n == 8 then 0 else s[0] - Prefix(n);
        LeadingPrefix(s[0]);
        Parsed(Joined(s[1..1 + n], high), s[1 + n..])
  }

  lemma LeadingAt(first: byte, n: nat, k: nat)
    requires k <= n <= 8
    requires n < 8 ==> Prefix(n) <= first < 256 - Room(n)
    requires n == 8 ==> first == 255
    ensures Leading(first, k) == n
    decreases n - k
  {
    if k < n {
      RoomsFall(k, n);
      LeadingAt(first, n, k + 1);
    }
  }

  lemma RoomsFall(k: nat, n: nat)
    requires k < n <= 8
    ensures n < 8 ==> Room(k) >= 2 * Room(n)
    ensures n == 8 ==> Room(k) >= 1
  {
    Rooms(0);
    Rooms(1);
    Rooms(2);
    Rooms(3);
    Rooms(4);
    Rooms(5);
    Rooms(6);
    Rooms(7);
  }

  lemma LeadingPrefix(first: byte)
    ensures var n := Leading(first, 0);
            && (n < 8 ==> Prefix(n) <= first < 256 - Room(n))
            && (n == 8 ==> first == 255)
  {
    LeadingFrom(first, 0);
  }

  lemma LeadingFrom(first: byte, k: nat)
    requires k <= 8
    requires k < 8 ==> Prefix(k) <= first
    requires k == 8 ==> first == 255
    ensures var n := Leading(first, k);
            && (n < 8 ==> Prefix(n) <= first < 256 - Room(n))
            && (n == 8 ==> first == 255)
    decreases 8 - k
  {
    if k < 8 {
      Rooms(k);
      if first >= 256 - Room(k) {
        LeadingFrom(first, k + 1);
      }
    }
  }

  lemma {:induction false} JoinedLittle(v: nat, n: nat)
    ensures Joined(Little(v, n), Shifted(v, n)) == v
  {
    if n != 0 {
      JoinedLittle(v / 256, n - 1);
      assert Little(v, n)[1..] == Little(v / 256, n - 1);
    }
  }

  lemma SevenRoundTrip(v: uint64, rest: seq<byte>)
    ensures ReadSeven(SevenOf(v) + rest) == Parsed(v, rest)
  {
    hide Limit, Shifted, Little, Joined, Room;
    var n := Extra(v, 0);
    var s := SevenOf(v) + rest;
    FirstByteFits(v, n);
    assert s[1..1 + n] == Little(v, n) && s[1 + n..] == rest;
    LeadingAt(s[0], n, 0);
    JoinedLittle(v, n);
    if n == 8 {
      EightBytes(v);
    }
  }

  lemma EightBytes(v: uint64)
    ensures Shifted(v, 8) == 0
  {
    assert PowerOf(256, 2) == 65536;
    assert PowerOf(256, 4) == 65536 * 65536;
    assert PowerOf(256, 6) == 65536 * 65536 * 65536;
    assert PowerOf(256, 8) == TWO_TO_64;
    ShiftedBound(v, 8, 1);
  }

  lemma SevenPrefixFree(v: uint64, w: uint64)
    requires SevenOf(v) <= SevenOf(w)
    ensures v == w
  {
    hide SevenOf, ReadSeven;
    var rest := SevenOf(w)[|SevenOf(v)|..];
    SevenRoundTrip(v, rest);
    SevenRoundTrip(w, []);
    assert SevenOf(v) + rest == SevenOf(w) == SevenOf(w) + [];
  }

  // No other spelling that a reader accepts is shorter.
  lemma SevenShortest(s: seq<byte>, v: uint64)
    requires ReadSeven(s) == Parsed(v, [])
    ensures |SevenOf(v)| <= |s|
  {
    var n := Leading(s[0], 0);
    assert |s| == 1 + n;
    if n < 8 {
      LeadingPrefix(s[0]);
      Rooms(n);
      ShiftedJoined(s[1..1 + n], s[0] - Prefix(n));
      LimitIs(n);
      ShiftedBound(v, n, Room(n));
      assert v < Limit(n);
    }
  }

  lemma {:induction false} ShiftedJoined(low: seq<byte>, high: nat)
    ensures Shifted(Joined(low, high), |low|) == high
  {
    if |low| != 0 {
      ShiftedJoined(low[1..], high);
      assert Joined(low, high) / 256 == Joined(low[1..], high);
    }
  }

  // The nine-byte form starts exactly where eight bytes no longer hold the number.
  lemma SevenNineBytes(v: uint64)
    ensures |SevenOf(v)| == 9 <==> v >= 0x100_0000_0000_0000
  {
    LimitSeven();
    LimitsRise(v);
  }

  lemma LimitSeven()
    ensures Limit(7) == 0x100_0000_0000_0000
  {
    Rooms(7);
    LimitIs(7);
    assert PowerOf(256, 2) == 65536;
    assert PowerOf(256, 4) == 65536 * 65536;
    assert PowerOf(256, 6) == 65536 * 65536 * 65536;
  }

  lemma LimitsRise(v: nat)
    ensures Extra(v, 0) == 8 <==> v >= Limit(7)
  {
    if v >= Limit(7) && Extra(v, 0) < 8 {
      LimitMonotone(Extra(v, 0), 7);
    }
  }

  lemma LimitMonotone(n: nat, m: nat)
    requires n <= m < 8
    ensures Limit(n) <= Limit(m)
    decreases m - n
  {
    if n < m {
      PowerSeven(7 + 7 * n);
      LimitMonotone(n + 1, m);
    }
  }
}
