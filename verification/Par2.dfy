// The multi-slice PAR2 set of internal/adversarial/par2_multi.go: input files are cut into
// zero-padded slices, and each recovery block is a linear combination of all slices over
// the PAR2 field.
module Par2 {
  import opened Arithmetic
  import opened GaloisField
  import opened Constants
  import opened LinearAlgebra
  import Ordering

  type Byte = bv8
  type Bytes = seq<Byte>

  // --- Little-endian 16-bit words ---------------------------------------------------------------

  function Word(lo: Byte, hi: Byte): Elem {
    lo as Elem | (hi as Elem << 8)
  }

  function LowByte(w: Elem): Byte {
    (w & 0xff) as Byte
  }

  function HighByte(w: Elem): Byte {
    (w >> 8) as Byte
  }

  lemma WordBytes(lo: Byte, hi: Byte)
    ensures LowByte(Word(lo, hi)) == lo && HighByte(Word(lo, hi)) == hi
  {
  }

  lemma BytesWord(w: Elem)
    ensures Word(LowByte(w), HighByte(w)) == w
  {
  }

  // Words are little-endian.
  lemma WordValue(lo: Byte, hi: Byte)
    ensures Word(lo, hi) as int == lo as int + 256 * hi as int
  {
    hide Word;
    WordParts(lo, hi);
    ElemValue(Word(lo, hi));
    ByteValue(lo);
    ByteValue(hi);
  }

  lemma WordParts(lo: Byte, hi: Byte)
    ensures Word(lo, hi) >> 8 == hi as Elem && Word(lo, hi) & 0xff == lo as Elem
  {
  }

  lemma ElemValue(w: Elem)
    ensures w as int == (w & 0xff) as int + 256 * (w >> 8) as int
  {
  }

  lemma ByteValue(b: Byte)
    ensures (b as Elem) as int == b as int
  {
  }

  lemma BytesValue(w: Elem)
    ensures LowByte(w) as int + 256 * HighByte(w) as int == w as int
  {
    hide Word, LowByte, HighByte;
    BytesWord(w);
    WordValue(LowByte(w), HighByte(w));
  }

  // The j-th word of a block.
  function WordAt(block: Bytes, j: nat): Elem
    requires 2 * j + 1 < |block|
  {
    Word(block[2 * j], block[2 * j + 1])
  }

  // --- Cutting a file into slices -----------------------------------------------------------------

  function Zeros(n: nat): Bytes {
    seq(n, i => 0)
  }

  function Padded(data: Bytes, size: nat): (block: Bytes)
    requires |data| <= size
    ensures |block| == size
  {
    data + Zeros(size - |data|)
  }

  function SlicesOf(data: Bytes, size: nat): seq<Bytes>
    requires size > 0
  {
    if |data| == 0 then []
    else if |data| <= size then [Padded(data, size)]
    else [data[..size]] + SlicesOf(data[size..], size)
  }

  // The slicing loop of multiPAR2 for one file: a zeroed block, and as much of the file as
  // there is copied over it.
  method CutSlices(data: Bytes, size: nat) returns (slices: seq<Bytes>)
    requires size > 0
    ensures slices == SlicesOf(data, size)
  {
    slices := [];
    var offset := 0;
    while offset < |data|
      invariant 0 <= offset
      invariant slices + SlicesOf(data[if offset < |data| then offset else |data|..], size) == SlicesOf(data, size)
    {
      var end := if offset + size < |data| then offset + size else |data|;
      var block := CopySlice(data[offset..end], size);
      CutFirst(data, size, offset);
      assert slices + ([block] + SlicesOf(data[end..], size)) == slices + [block] + SlicesOf(data[end..], size);
      slices := slices + [block];
      offset := offset + size;
    }
  }

  lemma CutFirst(data: Bytes, size: nat, offset: nat)
    requires size > 0 && offset < |data|
    ensures var end := if offset + size < |data| then offset + size else |data|;
            SlicesOf(data[offset..], size) == [Padded(data[offset..end], size)] + SlicesOf(data[end..], size)
  {
    var end := if offset + size < |data| then offset + size else |data|;
    assert data[offset..][end - offset..] == data[end..] && data[offset..][..end - offset] == data[offset..end];
    if end == |data| {
      assert data[offset..end] == data[offset..] && data[end..] == [];
      assert SlicesOf(data[end..], size) == [];
    } else {
      assert Padded(data[offset..end], size) == data[offset..end];
    }
  }

  // A zeroed block, and the part copied over its start.
  method CopySlice(part: Bytes, size: nat) returns (slice: Bytes)
    requires |part| <= size
    ensures slice == Padded(part, size)
  {
    var block := new Byte[size](i => 0);
    for i := 0 to |part|
      invariant block[..] == part[..i] + Zeros(size - i)
    {
      block[i] := part[i];
      assert part[..i] + [part[i]] == part[..i + 1];
    }
    assert part[..|part|] == part;
    slice := block[..];
  }

  function Flat(slices: seq<Bytes>): Bytes {
    if |slices| == 0 then [] else slices[0] + Flat(slices[1..])
  }

  // Nothing is lost: the slices have the slice size, the file is what they start with, and
  // zeros follow.
  lemma {:induction false} SlicesRestore(data: Bytes, size: nat)
    requires size > 0
    ensures forall i :: 0 <= i < |SlicesOf(data, size)| ==> |SlicesOf(data, size)[i]| == size
    ensures |Flat(SlicesOf(data, size))| >= |data|
    ensures Flat(SlicesOf(data, size))[..|data|] == data
    ensures forall k :: |data| <= k < |Flat(SlicesOf(data, size))| ==> Flat(SlicesOf(data, size))[k] == 0
  {
    hide Padded;
    if |data| <= size {
      if |data| > 0 {
        PaddedParts(data, size);
        FlatFirst(Padded(data, size), []);
        assert [Padded(data, size)] + [] == [Padded(data, size)];
      }
    } else {
      var first, rest := data[..size], SlicesOf(data[size..], size);
      SlicesRestore(data[size..], size);
      FlatFirst(first, rest);
      assert data == first + data[size..];
    }
  }

  lemma PaddedParts(data: Bytes, size: nat)
    requires |data| <= size
    ensures Padded(data, size)[..|data|] == data
    ensures forall k :: |data| <= k < size ==> Padded(data, size)[k] == 0
  {
  }

  lemma FlatFirst(first: Bytes, rest: seq<Bytes>)
    ensures Flat([first] + rest) == first + Flat(rest)
  {
    assert ([first] + rest)[1..] == rest;
  }

  lemma PaddedDamage(data: Bytes, size: nat, t: nat, value: Byte)
    requires t < |data| <= size
    ensures Padded(data, size)[t] == data[t] && Padded(data[t := value], size) == Padded(data, size)[t := value]
  {
  }

  // Changing one byte of a file changes that byte of the one slice it lies in.
  lemma {:induction false} DamageOneSlice(data: Bytes, size: nat, t: nat, value: Byte)
    requires size > 0 && t < |data|
    ensures t / size < |SlicesOf(data, size)| && 0 <= t % size < |SlicesOf(data, size)[t / size]|
    ensures SlicesOf(data, size)[t / size][t % size] == data[t]
    ensures SlicesOf(data[t := value], size) ==
            SlicesOf(data, size)[t / size := SlicesOf(data, size)[t / size][t % size := value]]
  {
    hide Padded;
    var damaged := data[t := value];
    if t < size {
      SmallQuotient(t, size);
      if |data| <= size {
        PaddedDamage(data, size, t, value);
      } else {
        assert damaged[size..] == data[size..];
        assert damaged[..size] == data[..size][t := value];
      }
    } else if |data| > size {
      NextQuotient(t, size);
      DamageOneSlice(data[size..], size, t - size, value);
      assert damaged[size..] == data[size..][t - size := value];
      assert damaged[..size] == data[..size];
    }
  }

  // --- Recovery blocks -------------------------------------------------------------------------------

  predicate SameSize(slices: seq<Bytes>, size: nat) {
    forall i :: 0 <= i < |slices| ==> |slices[i]| == size
  }

  ghost function Column(slices: seq<Bytes>, size: nat, j: nat): Vector
    requires SameSize(slices, size) && 2 * j + 1 < size
  {
    seq(|slices|, i requires 0 <= i < |slices| => WordAt(slices[i], j))
  }

  // Word j of the recovery block with exponent e over the first i slices.
  ghost function RecoveryWord(slices: seq<Bytes>, c: Vector, size: nat, e: nat, i: nat, j: nat): Elem
    requires SameSize(slices, size) && 2 * j + 1 < size && i <= |slices| == |c|
  {
    Dot(Column(slices, size, j)[..i], Powers(c, e)[..i])
  }

  // The recovery block. The slice size is even in the source: its word loop would otherwise
  // run off the block.
  ghost function RecoveryBlock(slices: seq<Bytes>, c: Vector, size: nat, e: nat): (block: Bytes)
    requires SameSize(slices, size) && |c| == |slices| && size % 2 == 0
    ensures |block| == size
  {
    seq(size, t requires 0 <= t < size =>
      var w := RecoveryWord(slices, c, size, e, |slices|, t / 2);
      if t % 2 == 0 then LowByte(w) else HighByte(w))
  }

  lemma RecoveryWordNext(slices: seq<Bytes>, c: Vector, size: nat, e: nat, i: nat, j: nat)
    requires SameSize(slices, size) && 2 * j + 1 < size && i < |slices| == |c|
    ensures RecoveryWord(slices, c, size, e, i + 1, j) ==
            Add(RecoveryWord(slices, c, size, e, i, j), Mul(WordAt(slices[i], j), Pow(c[i], e)))
  {
    hide Add, Mul, Pow, Word;
    var x, y := Column(slices, size, j), Powers(c, e);
    assert x[..i + 1][..i] == x[..i] && y[..i + 1][..i] == y[..i];
  }

  lemma XorIsAdd(a: Elem, b: Elem)
    ensures a ^ b == Add(a, b)
  {
  }

  lemma ZeroWord()
    ensures Word(0, 0) == 0
  {
  }

  // The recovery loop for one exponent: a zeroed block, updated in place, slice by slice and
  // word by word.
  method Recover(slices: seq<Bytes>, constants: Vector, size: nat, e: nat) returns (recovery: array<Byte>)
    requires size % 2 == 0 && SameSize(slices, size) && |constants| == |slices| && e < WORD32
    ensures fresh(recovery) && recovery[..] == RecoveryBlock(slices, constants, size, e)
    ensures forall j: nat :: 2 * j + 1 < size ==>
              recovery[2 * j] as int + 256 * recovery[2 * j + 1] as int ==
              XorOver(slices, constants, e, j, |slices|) as int
  {
    hide Add, Mul, Pow, Word, LowByte, HighByte, Dot, RecoveryWord, Summed, XorOver, RecoveryBlock;
    recovery := new Byte[size](k => 0);
    RecoveryStarts(recovery[..], slices, constants, size, e);
    var i := 0;
    while i < |slices|
      invariant 0 <= i <= |slices| && recovery.Length == size && fresh(recovery)
      invariant Summed(recovery[..], slices, constants, size, e, i, 0)
    {
      var coefficient := GfPower(constants[i], e);
      var offset := 0;
      while offset < size
        invariant 0 <= offset <= size && offset % 2 == 0
        invariant Summed(recovery[..], slices, constants, size, e, i, offset)
      {
        ghost var before := recovery[..];
        var product := GfMultiply(Word(slices[i][offset], slices[i][offset + 1]), coefficient);
        var value := Word(recovery[offset], recovery[offset + 1]) ^ product;
        XorIsAdd(Word(recovery[offset], recovery[offset + 1]), product);
        PutWord(recovery, offset, value);
        SummedNext(before, recovery[..], slices, constants, size, e, i, offset, value);
        offset := offset + 2;
      }
      SummedAll(recovery[..], slices, constants, size, e, i);
      i := i + 1;
    }
    WordsGiveBytes(recovery[..], slices, constants, size, e);
    forall j: nat | 2 * j + 1 < size
      ensures recovery[..][2 * j] as int + 256 * recovery[..][2 * j + 1] as int ==
              XorOver(slices, constants, e, j, |slices|) as int
    {
      RecoveryBytes(slices, constants, size, e, j);
    }
  }

  // The sum over the first n slices for word j, on byte values: a word is its first byte and 256
  // times its second one, and sums are exclusive ors.
  ghost function XorOver(slices: seq<Bytes>, c: Vector, e: nat, j: nat, n: nat): Elem
    requires n <= |slices| == |c| && forall i :: 0 <= i < n ==> 2 * j + 1 < |slices[i]|
  {
    if n == 0 then 0
    else
      Add(XorOver(slices, c, e, j, n - 1),
          Mul(Spelled(slices[n - 1][2 * j], slices[n - 1][2 * j + 1]), Pow(c[n - 1], e)))
  }

  function Spelled(first: Byte, second: Byte): Elem {
    (first as int + 256 * second as int) as Elem
  }

  lemma {:induction false} XorOverIs(slices: seq<Bytes>, c: Vector, size: nat, e: nat, j: nat, n: nat)
    requires SameSize(slices, size) && 2 * j + 1 < size && n <= |slices| == |c|
    ensures XorOver(slices, c, e, j, n) == RecoveryWord(slices, c, size, e, n, j)
  {
    hide Mul, Pow, Word, RecoveryWord, Add, XorOver;
    if n == 0 {
      NothingSummed(slices, c, size, e, j);
    } else {
      XorOverIs(slices, c, size, e, j, n - 1);
      RecoveryWordNext(slices, c, size, e, n - 1, j);
      XorOverNext(slices, c, e, j, n - 1);
    }
  }

  lemma XorOverNext(slices: seq<Bytes>, c: Vector, e: nat, j: nat, n: nat)
    requires n < |slices| == |c| && forall i :: 0 <= i <= n ==> 2 * j + 1 < |slices[i]|
    ensures XorOver(slices, c, e, j, n + 1) ==
              Add(XorOver(slices, c, e, j, n), Mul(WordAt(slices[n], j), Pow(c[n], e)))
  {
    hide Mul, Pow, Word, Add, Spelled;
    WordBack(slices[n][2 * j], slices[n][2 * j + 1]);
  }

  lemma WordBack(lo: Byte, hi: Byte)
    ensures Spelled(lo, hi) == Word(lo, hi)
  {
    hide Word;
    WordValue(lo, hi);
    ElemBack(Word(lo, hi));
  }

  lemma NothingSummed(slices: seq<Bytes>, c: Vector, size: nat, e: nat, j: nat)
    requires SameSize(slices, size) && 2 * j + 1 < size && |slices| == |c|
    ensures RecoveryWord(slices, c, size, e, 0, j) == 0 && XorOver(slices, c, e, j, 0) == 0
  {
  }

  lemma ElemBack(w: Elem)
    ensures (w as int) as Elem == w
  {
  }

  // What the bytes of a recovery block are.
  lemma RecoveryBytes(slices: seq<Bytes>, c: Vector, size: nat, e: nat, j: nat)
    requires SameSize(slices, size) && 2 * j + 1 < size && |slices| == |c| && size % 2 == 0
    ensures var block := RecoveryBlock(slices, c, size, e);
            block[2 * j] as int + 256 * block[2 * j + 1] as int == XorOver(slices, c, e, j, |slices|) as int
  {
    hide LowByte, HighByte, RecoveryWord, XorOver;
    var w := RecoveryWord(slices, c, size, e, |slices|, j);
    XorOverIs(slices, c, size, e, j, |slices|);
    BytesValue(w);
  }

  // The words before offset hold the sums over i + 1 slices, the others those over i.
  ghost predicate Summed(
    block: Bytes, slices: seq<Bytes>, c: Vector, size: nat, e: nat, i: nat, offset: nat)
    requires SameSize(slices, size) && |slices| == |c| && |block| == size && i <= |slices|
    requires offset > 0 ==> i < |slices|
  {
    forall j: nat :: 2 * j + 1 < size ==>
      Word(block[2 * j], block[2 * j + 1]) ==
      RecoveryWord(slices, c, size, e, if 2 * j < offset then i + 1 else i, j)
  }

  lemma SummedNext(
    before: Bytes, after: Bytes, slices: seq<Bytes>, c: Vector, size: nat, e: nat, i: nat, offset: nat, value: Elem)
    requires SameSize(slices, size) && |slices| == |c| && |before| == |after| == size && i < |slices|
    requires Summed(before, slices, c, size, e, i, offset) && offset % 2 == 0 && offset + 1 < size
    requires forall k: nat :: 2 * k + 1 < size ==>
               Word(after[2 * k], after[2 * k + 1]) ==
               if 2 * k == offset then value else Word(before[2 * k], before[2 * k + 1])
    requires value == Add(Word(before[offset], before[offset + 1]),
                          Mul(Word(slices[i][offset], slices[i][offset + 1]), Pow(c[i], e)))
    ensures Summed(after, slices, c, size, e, i, offset + 2)
  {
    hide Add, Mul, Pow, Word, RecoveryWord;
    var j := offset / 2;
    assert offset == 2 * j;
    RecoveryWordNext(slices, c, size, e, i, j);
  }

  lemma SummedAll(block: Bytes, slices: seq<Bytes>, c: Vector, size: nat, e: nat, i: nat)
    requires SameSize(slices, size) && |slices| == |c| && |block| == size && i < |slices|
    requires Summed(block, slices, c, size, e, i, size)
    ensures Summed(block, slices, c, size, e, i + 1, 0)
  {
  }

  // PutUint16: the other words stay.
  method PutWord(block: array<Byte>, offset: nat, value: Elem)
    requires offset % 2 == 0 && offset + 1 < block.Length
    modifies block
    ensures forall k: nat :: 2 * k + 1 < block.Length ==>
              Word(block[2 * k], block[2 * k + 1]) ==
              if 2 * k == offset then value else old(Word(block[2 * k], block[2 * k + 1]))
  {
    hide Word, LowByte, HighByte;
    block[offset] := LowByte(value);
    block[offset + 1] := HighByte(value);
    BytesWord(value);
  }

  lemma RecoveryStarts(block: Bytes, slices: seq<Bytes>, c: Vector, size: nat, e: nat)
    requires SameSize(slices, size) && |slices| == |c| && |block| == size && forall t :: 0 <= t < size ==> block[t] == 0
    ensures Summed(block, slices, c, size, e, 0, 0)
  {
    hide Word;
    ZeroWord();
  }

  lemma WordsGiveBytes(block: Bytes, slices: seq<Bytes>, c: Vector, size: nat, e: nat)
    requires SameSize(slices, size) && |c| == |slices| && size % 2 == 0 && |block| == size
    requires Summed(block, slices, c, size, e, |slices|, 0)
    ensures block == RecoveryBlock(slices, c, size, e)
  {
    hide Word, LowByte, HighByte, RecoveryWord;
    forall t | 0 <= t < size
      ensures block[t] == RecoveryBlock(slices, c, size, e)[t]
    {
      var j := t / 2;
      assert Word(block[2 * j], block[2 * j + 1]) == RecoveryWord(slices, c, size, e, |slices|, j);
      WordBytes(block[2 * j], block[2 * j + 1]);
      assert t == if t % 2 == 0 then 2 * j else 2 * j + 1;
    }
  }

  // Two equal recovery blocks have equal words.
  lemma BytesGiveWords(u: seq<Bytes>, v: seq<Bytes>, c: Vector, size: nat, e: nat, j: nat)
    requires SameSize(u, size) && SameSize(v, size) && |c| == |u| == |v| && size % 2 == 0
    requires 2 * j + 1 < size
    ensures RecoveryBlock(u, c, size, e) == RecoveryBlock(v, c, size, e) ==>
              RecoveryWord(u, c, size, e, |u|, j) == RecoveryWord(v, c, size, e, |v|, j)
  {
    hide Word, LowByte, HighByte, RecoveryWord;
    var x, y := RecoveryBlock(u, c, size, e), RecoveryBlock(v, c, size, e);
    BytesWord(RecoveryWord(u, c, size, e, |u|, j));
    BytesWord(RecoveryWord(v, c, size, e, |v|, j));
    assert x[2 * j] == LowByte(RecoveryWord(u, c, size, e, |u|, j));
    assert y[2 * j] == LowByte(RecoveryWord(v, c, size, e, |v|, j));
    assert x[2 * j + 1] == HighByte(RecoveryWord(u, c, size, e, |u|, j));
    assert y[2 * j + 1] == HighByte(RecoveryWord(v, c, size, e, |v|, j));
  }

  // --- What the recovery blocks determine --------------------------------------------------------

  // u and v are two contents of the same slices that agree outside of the lost ones.
  ghost predicate Alike(u: seq<Bytes>, v: seq<Bytes>, size: nat, lost: set<nat>) {
    && |u| == |v| && SameSize(u, size) && SameSize(v, size)
    && forall i: nat :: i < |u| && i !in lost ==> u[i] == v[i]
  }

  ghost predicate SameRecovery(u: seq<Bytes>, v: seq<Bytes>, size: nat, exponents: seq<nat>)
    requires SameSize(u, size) && SameSize(v, size) && |u| == |v| && size % 2 == 0
  {
    forall k :: 0 <= k < |exponents| ==>
      RecoveryBlock(u, ConstantsOf(|u|), size, exponents[k]) == RecoveryBlock(v, ConstantsOf(|v|), size, exponents[k])
  }

  ghost function Difference(u: seq<Bytes>, v: seq<Bytes>, size: nat, j: nat): Vector
    requires SameSize(u, size) && SameSize(v, size) && |u| == |v| && 2 * j + 1 < size
  {
    Plus(Column(u, size, j), Column(v, size, j))
  }

  lemma DifferenceDot(u: seq<Bytes>, v: seq<Bytes>, c: Vector, size: nat, e: nat, j: nat)
    requires SameSize(u, size) && SameSize(v, size) && |u| == |v| == |c| && 2 * j + 1 < size
    ensures Dot(Difference(u, v, size, j), Powers(c, e)) ==
            Add(RecoveryWord(u, c, size, e, |u|, j), RecoveryWord(v, c, size, e, |v|, j))
  {
    hide Word, Pow, Add, Mul;
    var x, y, p := Column(u, size, j), Column(v, size, j), Powers(c, e);
    assert x[..|u|] == x && y[..|v|] == y && p[..|u|] == p;
    DotPlus(x, y, p);
  }

  // k recovery blocks with consecutive exponents determine any k lost slices, for up to
  // 32768 slices of any content.
  lemma RecoveryDetermines(u: seq<Bytes>, v: seq<Bytes>, size: nat, lost: set<nat>, exponents: seq<nat>, first: nat)
    requires size % 2 == 0 && |u| <= MAX_SLICES && Alike(u, v, size, lost)
    requires forall i :: i in lost ==> i < |u|
    requires forall e: nat :: first <= e < first + |lost| ==> e in exponents
    requires SameRecovery(u, v, size, exponents)
    ensures u == v
  {
    hide Word, Pow, Add, Mul, Dot, RecoveryWord, RecoveryBlock, ConstantsOf;
    var c := ConstantsOf(|u|);
    ConstantsDistinct(|u|);
    forall j: nat | 2 * j + 1 < size
      ensures IsZero(Difference(u, v, size, j))
    {
      var d := Difference(u, v, size, j);
      forall i: nat | i < |d| && i !in lost
        ensures d[i] == 0
      {
        AddSelf(WordAt(u[i], j));
      }
      forall e: nat | first <= e < first + |lost|
        ensures Dot(d, Powers(c, e)) == 0
      {
        assert e in exponents;
        var k :| 0 <= k < |exponents| && exponents[k] == e;
        BytesGiveWords(u, v, c, size, e, j);
        DifferenceDot(u, v, c, size, e, j);
        AddSelf(RecoveryWord(u, c, size, e, |u|, j));
      }
      Vandermonde(d, c, lost, first);
    }
    NoDifference(u, v, size);
  }

  lemma NoDifference(u: seq<Bytes>, v: seq<Bytes>, size: nat)
    requires SameSize(u, size) && SameSize(v, size) && |u| == |v| && size % 2 == 0
    requires forall j: nat :: 2 * j + 1 < size ==> IsZero(Difference(u, v, size, j))
    ensures u == v
  {
    hide Word, Add;
    forall i, t | 0 <= i < |u| && 0 <= t < size
      ensures u[i][t] == v[i][t]
    {
      var j := t / 2;
      assert t == if t % 2 == 0 then 2 * j else 2 * j + 1;
      assert Difference(u, v, size, j)[i] == 0;
      AddIsZero(WordAt(u[i], j), WordAt(v[i], j));
      WordBytes(u[i][2 * j], u[i][2 * j + 1]);
      WordBytes(v[i][2 * j], v[i][2 * j + 1]);
    }
    forall i | 0 <= i < |u|
      ensures u[i] == v[i]
    {
    }
  }

  // The block with its first word replaced.
  function WithWord(block: Bytes, w: Elem): (r: Bytes)
    requires |block| >= 2
    ensures |r| == |block|
  {
    [LowByte(w), HighByte(w)] + block[2..]
  }

  // The content whose words with index 0 differ from those of u by d.
  ghost function Changed(u: seq<Bytes>, size: nat, d: Vector): (v: seq<Bytes>)
    requires SameSize(u, size) && size >= 2 && |d| == |u|
    ensures |v| == |u| && SameSize(v, size)
  {
    seq(|u|, i requires 0 <= i < |u| => WithWord(u[i], Add(WordAt(u[i], 0), d[i])))
  }

  lemma ChangedColumn(u: seq<Bytes>, size: nat, d: Vector, j: nat)
    requires SameSize(u, size) && 2 * j + 1 < size && |d| == |u|
    ensures Column(Changed(u, size, d), size, j) ==
            if j == 0 then Plus(Column(u, size, 0), d) else Column(u, size, j)
  {
    hide Word, LowByte, HighByte, Add;
    var v := Changed(u, size, d);
    forall i | 0 <= i < |u|
      ensures WordAt(v[i], j) == if j == 0 then Add(WordAt(u[i], 0), d[i]) else WordAt(u[i], j)
    {
      BytesWord(Add(WordAt(u[i], 0), d[i]));
    }
  }

  lemma ChangedRecovery(u: seq<Bytes>, c: Vector, size: nat, d: Vector, e: nat)
    requires SameSize(u, size) && 2 <= size && size % 2 == 0 && |d| == |u| == |c|
    requires Dot(Powers(c, e), d) == 0
    ensures RecoveryBlock(Changed(u, size, d), c, size, e) == RecoveryBlock(u, c, size, e)
  {
    hide Word, LowByte, HighByte, Add, Mul, Pow, Dot;
    var v := Changed(u, size, d);
    var p := Powers(c, e);
    forall j: nat | 2 * j + 1 < size
      ensures RecoveryWord(v, c, size, e, |v|, j) == RecoveryWord(u, c, size, e, |u|, j)
    {
      var x := Column(u, size, j);
      ChangedColumn(u, size, d, j);
      assert Column(v, size, j)[..|v|] == Column(v, size, j) && x[..|u|] == x && p[..|u|] == p;
      if j == 0 {
        DotPlus(x, d, p);
        DotComm(d, p);
        AddZero(Dot(x, p));
      }
    }
    assert RecoveryBlock(v, c, size, e) == RecoveryBlock(u, c, size, e);
  }

  ghost function DifferentExponents(exponents: seq<nat>): set<nat> {
    set e | e in exponents
  }

  // Every content has another one with the same recovery blocks when more slices are lost
  // than there are different exponents.
  lemma RecoveryLeavesChoice(u: seq<Bytes>, size: nat, lost: set<nat>, exponents: seq<nat>) returns (v: seq<Bytes>)
    requires SameSize(u, size) && 2 <= size && size % 2 == 0
    requires forall i :: i in lost ==> i < |u|
    requires |DifferentExponents(exponents)| < |lost|
    ensures v != u && Alike(u, v, size, lost) && SameRecovery(u, v, size, exponents)
    ensures forall i: nat :: i < |u| ==> v[i] == WithWord(u[i], WordAt(v[i], 0))
  {
    hide Word, LowByte, HighByte, Add, Mul, Pow, Dot, RecoveryBlock, ConstantsOf;
    var c := ConstantsOf(|u|);
    var es := Listed(DifferentExponents(exponents));
    var rows := seq(|es|, r requires 0 <= r < |es| => Powers(c, es[r]));
    var d := Underdetermined(rows, |u|, lost);
    v := Changed(u, size, d);
    forall i: nat | i < |u|
      ensures v[i] == u[i] <==> d[i] == 0
      ensures v[i] == WithWord(u[i], WordAt(v[i], 0))
    {
      SameWord(u[i], d[i]);
      BytesWord(Add(WordAt(u[i], 0), d[i]));
    }
    forall k | 0 <= k < |exponents|
      ensures RecoveryBlock(u, c, size, exponents[k]) == RecoveryBlock(v, c, size, exponents[k])
    {
      assert exponents[k] in es;
      var r :| 0 <= r < |es| && es[r] == exponents[k];
      assert Dot(rows[r], d) == 0;
      ChangedRecovery(u, c, size, d, exponents[k]);
    }
  }

  lemma SameWord(block: Bytes, d: Elem)
    requires |block| >= 2
    ensures WithWord(block, Add(WordAt(block, 0), d)) == block <==> d == 0
  {
    hide Word, LowByte, HighByte, Add;
    var w := WordAt(block, 0);
    WordBytes(block[0], block[1]);
    AddZero(w);
    BytesWord(Add(w, d));
    AddCancel(w, d);
    AddSelf(w);
    var changed := WithWord(block, Add(w, d));
    if d == 0 {
      assert changed == [block[0], block[1]] + block[2..];
    }
    if changed == block {
      assert changed[0] == block[0] && changed[1] == block[1];
      assert Add(w, d) == w;
    }
  }

  ghost function Listed(s: set<nat>): (l: seq<nat>)
    ensures |l| == |s| && forall x :: x in s <==> x in l
  {
    if s == {} then [] else
      var x :| x in s;
      [x] + Listed(s - {x})
  }

  // --- The whole set -----------------------------------------------------------------------------------

  // The slices of all files, in the order of the files.
  function AllSlices(files: seq<Bytes>, size: nat): seq<Bytes>
    requires size > 0
  {
    if |files| == 0 then [] else SlicesOf(files[0], size) + AllSlices(files[1..], size)
  }

  lemma {:induction false} AllSlicesSize(files: seq<Bytes>, size: nat)
    requires size > 0
    ensures SameSize(AllSlices(files, size), size)
  {
    if |files| != 0 {
      AllSlicesSize(files[1..], size);
      SlicesRestore(files[0], size);
    }
  }

  lemma {:induction false} AllSlicesAppend(files: seq<Bytes>, file: Bytes, size: nat)
    requires size > 0
    ensures AllSlices(files + [file], size) == AllSlices(files, size) + SlicesOf(file, size)
  {
    if |files| == 0 {
      assert AllSlices([file], size) == SlicesOf(file, size) + AllSlices([], size);
    } else {
      assert (files + [file])[1..] == files[1..] + [file];
      AllSlicesAppend(files[1..], file, size);
    }
  }

  // --- The set ----------------------------------------------------------------------------------------

  datatype Source = Source(name: string, data: Bytes)

  // A file's identifier, the MD5 of the MD5 of its first 16 KiB, its length and its name, is
  // any function of these. Its bytes are compared from the last one down, which is the order
  // of the number they spell.
  type Identifier = (Bytes, nat, string) -> nat

  function IdentifierOf(id: Identifier, file: Source): nat {
    id(file.data[..if |file.data| < 16384 then |file.data| else 16384], |file.data|, file.name)
  }

  function ByIdentifier(id: Identifier): (Source, Source) -> bool {
    (x: Source, y: Source) => IdentifierOf(id, x) <= IdentifierOf(id, y)
  }

  lemma IdentifiersAscend(sources: seq<Source>, id: Identifier)
    requires Ordering.AscendingBy(sources, ByIdentifier(id))
    ensures forall i, j :: 0 <= i < j < |sources| ==> IdentifierOf(id, sources[i]) <= IdentifierOf(id, sources[j])
  {
    forall i, j | 0 <= i < j < |sources|
      ensures IdentifierOf(id, sources[i]) <= IdentifierOf(id, sources[j])
    {
      assert ByIdentifier(id)(sources[i], sources[j]);
    }
  }

  lemma IdentifierReads(id: Identifier, file: Source)
    ensures |file.data| <= 16384 ==> IdentifierOf(id, file) == id(file.data, |file.data|, file.name)
    ensures |file.data| >= 16384 ==> IdentifierOf(id, file) == id(file.data[..16384], |file.data|, file.name)
  {
    assert file.data[..|file.data|] == file.data;
  }

  function Contents(files: seq<Source>): seq<Bytes> {
    seq(|files|, i requires 0 <= i < |files| => files[i].data)
  }

  method CutSources(sources: seq<Source>, size: nat) returns (slices: seq<Bytes>)
    requires size > 0
    ensures slices == AllSlices(Contents(sources), size) && SameSize(slices, size)
  {
    slices := [];
    var files := Contents(sources);
    for f := 0 to |files|
      invariant slices == AllSlices(files[..f], size)
    {
      var cut := CutSlices(files[f], size);
      AllSlicesAppend(files[..f], files[f], size);
      assert files[..f] + [files[f]] == files[..f + 1];
      slices := slices + cut;
    }
    assert files[..|files|] == files;
    AllSlicesSize(files, size);
  }

  // The recovery packets of multiPAR2.
  method MultiRecovery(files: seq<Source>, id: Identifier, size: nat, exponents: seq<nat>)
    returns (sources: seq<Source>, blocks: seq<Bytes>)
    requires size > 0 && size % 2 == 0 && (forall k :: 0 <= k < |exponents| ==> exponents[k] < WORD32)
    ensures multiset(sources) == multiset(files) && Ordering.AscendingBy(sources, ByIdentifier(id))
    ensures forall i, j :: 0 <= i < j < |sources| ==> IdentifierOf(id, sources[i]) <= IdentifierOf(id, sources[j])
    ensures var slices := AllSlices(Contents(sources), size);
            && SameSize(slices, size) && |blocks| == |exponents|
            && forall k :: 0 <= k < |exponents| ==>
                 blocks[k] == RecoveryBlock(slices, ConstantsOf(|slices|), size, exponents[k])
  {
    hide RecoveryBlock, ConstantsOf, AllSlices, Ordering.AscendingBy;
    Ordering.SortByAscending(files, ByIdentifier(id));
    sources := Ordering.SortBy(files, ByIdentifier(id));
    IdentifiersAscend(sources, id);
    var slices := CutSources(sources, size);
    var constants := ParConstants(|slices|);
    blocks := [];
    for k := 0 to |exponents|
      invariant |blocks| == k
      invariant forall h :: 0 <= h < k ==> blocks[h] == RecoveryBlock(slices, constants, size, exponents[h])
    {
      var recovery := Recover(slices, constants, size, exponents[k]);
      blocks := blocks + [recovery[..]];
    }
  }

  // --- The repair cases ------------------------------------------------------------------------------

  datatype Expectation = Recoverable | Rejected

  function RepairExponents(variant: string): seq<nat> {
    if variant == "exactly-sufficient" then [0, 1]
    else if variant == "insufficient" then [0]
    else if variant == "dependent-equations" then [0, 0]
    else [0, 1, 2]
  }

  // What the catalog expects of a client for each variant of the multi-slice repair.
  function Expected(variant: string): Expectation {
    if variant == "insufficient" || variant == "dependent-equations" then Rejected else Recoverable
  }

  ghost predicate Repairable(n: nat, size: nat, lost: set<nat>, exponents: seq<nat>)
    requires size % 2 == 0
  {
    forall u: seq<Bytes>, v: seq<Bytes> ::
      |u| == n && Alike(u, v, size, lost) && SameRecovery(u, v, size, exponents) ==> u == v
  }

  // The catalog is right about every content and every two damaged slices: the exponents of
  // a variant leave one solution exactly when the client is expected to recover.
  lemma CatalogIsRight(variant: string, n: nat, size: nat, i: nat, j: nat)
    requires 2 <= size && size % 2 == 0 && n <= MAX_SLICES && i < n && j < n && i != j
    ensures Repairable(n, size, {i, j}, RepairExponents(variant)) <==> Expected(variant) == Recoverable
  {
    hide SameRecovery;
    var exponents := RepairExponents(variant);
    if Expected(variant) == Recoverable {
      forall u: seq<Bytes>, v: seq<Bytes> |
        |u| == n && Alike(u, v, size, {i, j}) && SameRecovery(u, v, size, exponents)
        ensures u == v
      {
        RecoveryDetermines(u, v, size, {i, j}, exponents, 0);
      }
    } else {
      var u := seq(n, k => Zeros(size));
      assert DifferentExponents(exponents) == {0};
      var v := RecoveryLeavesChoice(u, size, {i, j}, exponents);
    }
  }

  // --- The repair case, on files -------------------------------------------------------------------------

  const SLICE: nat := 4096
  const ALPHA: nat := 5 * 4096 + 23
  const BETA: nat := 2 * 4096 + 13

  // Two files of the lengths the case uses, of any content.
  ghost predicate CaseFiles(alpha: Bytes, beta: Bytes) {
    |alpha| == ALPHA && |beta| == BETA
  }

  lemma {:induction false} SliceCount(data: Bytes, size: nat, n: nat)
    requires size > 0 && (n == 0 ==> |data| == 0) && (n > 0 ==> (n - 1) * size < |data| <= n * size)
    ensures |SlicesOf(data, size)| == n
    decreases n
  {
    if n > 0 && |data| > size {
      assert n > 1 && (n - 2) * size < |data[size..]| <= (n - 1) * size;
      SliceCount(data[size..], size, n - 1);
    }
  }

  // The slices of the case, in the order of the two identifiers, and the damaged ones: the
  // fifth of alpha and the third of beta.
  ghost function CaseSlices(alpha: Bytes, beta: Bytes, alphaFirst: bool): seq<Bytes> {
    AllSlices(if alphaFirst then [alpha, beta] else [beta, alpha], SLICE)
  }

  function CaseDamage(alphaFirst: bool): set<nat> {
    if alphaFirst then {4, 8} else {2, 7}
  }

  // The generator's sort puts the two files in one of these orders.
  lemma CaseOrders(sources: seq<Source>, a: Source, b: Source)
    requires multiset(sources) == multiset{a, b}
    ensures Contents(sources) == [a.data, b.data] || Contents(sources) == [b.data, a.data]
  {
    assert |sources| == |multiset(sources)| == 2;
    assert sources == [sources[0], sources[1]];
    assert sources[0] in multiset{a, b} && sources[1] in multiset{a, b};
    if sources[0] == a {
      assert multiset{sources[1]} == multiset(sources) - multiset{a} == multiset{b};
      assert sources[1] in multiset{b};
    } else {
      assert multiset{sources[1]} == multiset(sources) - multiset{b} == multiset{a};
      assert sources[1] in multiset{a};
    }
  }

  lemma TwoFiles(x: Bytes, y: Bytes, size: nat)
    requires size > 0
    ensures AllSlices([x, y], size) == SlicesOf(x, size) + SlicesOf(y, size)
    ensures SameSize(AllSlices([x, y], size), size)
  {
    AllSlicesAppend([x], y, size);
    AllSlicesAppend([], x, size);
    assert [] + [x] == [x] && [x] + [y] == [x, y];
    AllSlicesSize([x, y], size);
  }

  lemma CaseLayout(alpha: Bytes, beta: Bytes, alphaFirst: bool)
    requires CaseFiles(alpha, beta)
    ensures |SlicesOf(alpha, SLICE)| == 6 && |SlicesOf(beta, SLICE)| == 3
    ensures CaseSlices(alpha, beta, alphaFirst) ==
              if alphaFirst then SlicesOf(alpha, SLICE) + SlicesOf(beta, SLICE)
              else SlicesOf(beta, SLICE) + SlicesOf(alpha, SLICE)
    ensures SameSize(CaseSlices(alpha, beta, alphaFirst), SLICE) && |CaseSlices(alpha, beta, alphaFirst)| == 9
  {
    hide AllSlices, SlicesOf, SameSize;
    SliceCount(alpha, SLICE, 6);
    SliceCount(beta, SLICE, 3);
    TwoFiles(alpha, beta, SLICE);
    TwoFiles(beta, alpha, SLICE);
  }

  lemma FilesFromSlices(a: Bytes, b: Bytes)
    requires |a| == |b| && SlicesOf(a, SLICE) == SlicesOf(b, SLICE)
    ensures a == b
  {
    SlicesRestore(a, SLICE);
    SlicesRestore(b, SLICE);
  }

  lemma OneDamaged(data: Bytes, t: nat, k: nat, value: Byte)
    requires t < |data| && data[t] != value && k == t / SLICE
    ensures var before, after := SlicesOf(data, SLICE), SlicesOf(data[t := value], SLICE);
            |before| == |after| && forall i: nat :: i < |before| ==> (before[i] != after[i] <==> i == k)
  {
    hide SlicesOf;
    DamageOneSlice(data, SLICE, t, value);
  }

  // The damage of the case changes these two slices and no other.
  lemma DamageHitsTwoSlices(alpha: Bytes, beta: Bytes, a: Byte, b: Byte, alphaFirst: bool)
    requires CaseFiles(alpha, beta) && alpha[16385] != a && beta[BETA - 1] != b
    ensures var before := CaseSlices(alpha, beta, alphaFirst);
            var after := CaseSlices(alpha[16385 := a], beta[BETA - 1 := b], alphaFirst);
            |before| == 9 && |after| == 9 &&
            forall i: nat :: i < 9 ==> (before[i] != after[i] <==> i in CaseDamage(alphaFirst))
  {
    hide CaseSlices, SlicesOf;
    CaseLayout(alpha, beta, alphaFirst);
    CaseLayout(alpha[16385 := a], beta[BETA - 1 := b], alphaFirst);
    OneDamaged(alpha, 16385, 4, a);
    OneDamaged(beta, BETA - 1, 2, b);
  }

  // Files of the right lengths that agree with the originals on the undamaged slices and
  // reproduce the recovery blocks of a recoverable variant are the originals, whichever file
  // comes first.
  lemma RecoverableCase(
    variant: string, alpha: Bytes, beta: Bytes, alpha': Bytes, beta': Bytes, alphaFirst: bool)
    requires Expected(variant) == Recoverable
    requires CaseFiles(alpha, beta) && CaseFiles(alpha', beta')
    requires var u, v := CaseSlices(alpha, beta, alphaFirst), CaseSlices(alpha', beta', alphaFirst);
             Alike(u, v, SLICE, CaseDamage(alphaFirst)) && SameRecovery(u, v, SLICE, RepairExponents(variant))
    ensures alpha' == alpha && beta' == beta
  {
    hide SameRecovery, SlicesOf, AllSlices, CaseSlices, Alike;
    CaseLayout(alpha, beta, alphaFirst);
    CaseLayout(alpha', beta', alphaFirst);
    CatalogIsRight(variant, 9, SLICE, if alphaFirst then 4 else 2, if alphaFirst then 8 else 7);
    var u, v := CaseSlices(alpha, beta, alphaFirst), CaseSlices(alpha', beta', alphaFirst);
    assert u == v;
    var n := if alphaFirst then 6 else 3;
    assert u[..n] == v[..n] && u[n..] == v[n..];
    FilesFromSlices(alpha, alpha');
    FilesFromSlices(beta, beta');
  }

  lemma SetFirstWord(data: Bytes, k: nat, w: Elem) returns (data': Bytes)
    requires k * SLICE + 1 < |data| && k < |SlicesOf(data, SLICE)| && |SlicesOf(data, SLICE)[k]| == SLICE
    ensures |data'| == |data|
    ensures SlicesOf(data', SLICE) == SlicesOf(data, SLICE)[k := WithWord(SlicesOf(data, SLICE)[k], w)]
  {
    hide LowByte, HighByte, SlicesOf;
    var t := k * SLICE;
    assert t / SLICE == k && t % SLICE == 0 && (t + 1) / SLICE == k && (t + 1) % SLICE == 1;
    var slices := SlicesOf(data, SLICE);
    DamageOneSlice(data, SLICE, t, LowByte(w));
    var first := data[t := LowByte(w)];
    DamageOneSlice(first, SLICE, t + 1, HighByte(w));
    data' := first[t + 1 := HighByte(w)];
    assert slices[k][0 := LowByte(w)][1 := HighByte(w)] == WithWord(slices[k], w);
    assert slices[k := slices[k][0 := LowByte(w)]][k := WithWord(slices[k], w)] == slices[k := WithWord(slices[k], w)];
  }

  // For the other variants there always are other files that the intact slices and the
  // recovery blocks cannot tell from the originals.
  lemma RejectedCase(variant: string, alpha: Bytes, beta: Bytes, alphaFirst: bool)
    returns (alpha': Bytes, beta': Bytes)
    requires Expected(variant) == Rejected
    requires CaseFiles(alpha, beta)
    ensures CaseFiles(alpha', beta') && (alpha', beta') != (alpha, beta)
    ensures var u, v := CaseSlices(alpha, beta, alphaFirst), CaseSlices(alpha', beta', alphaFirst);
            Alike(u, v, SLICE, CaseDamage(alphaFirst)) && SameRecovery(u, v, SLICE, RepairExponents(variant))
  {
    hide SameRecovery, SlicesOf, AllSlices, WithWord, WordAt, CaseSlices;
    CaseLayout(alpha, beta, alphaFirst);
    var u := CaseSlices(alpha, beta, alphaFirst);
    var exponents := RepairExponents(variant);
    assert DifferentExponents(exponents) == {0};
    var v := RecoveryLeavesChoice(u, SLICE, CaseDamage(alphaFirst), exponents);
    var i, j: nat := if alphaFirst then 4 else 7, if alphaFirst then 8 else 2;
    alpha' := SetFirstWord(alpha, 4, WordAt(v[i], 0));
    beta' := SetFirstWord(beta, 2, WordAt(v[j], 0));
    CaseLayout(alpha', beta', alphaFirst);
    var files := CaseSlices(alpha', beta', alphaFirst);
    forall k: nat | k < 9
      ensures files[k] == v[k]
    {
      if k == i || k == j {
        assert v[k] == WithWord(u[k], WordAt(v[k], 0));
      } else {
        assert v[k] == u[k];
      }
    }
    assert files == v;
  }
}
