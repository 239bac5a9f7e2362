// NNTP multi-line data blocks: wireBody of internal/adversarial/server.go, and the receivers
// of section 3.1.1 of RFC 3977.
module Wire {
  import opened Text

  const LONE_DOT: seq<byte> := [DOT, CR, LF]
  const BARE_DOT: seq<byte> := [DOT, LF]

  // A dot at the start of a line is doubled; start says whether data begins a line.
  function Stuffed(data: seq<byte>, start: bool): seq<byte> {
    if |data| == 0 then []
    else (if start && data[0] == DOT then [DOT, DOT] else [data[0]]) + Stuffed(data[1..], data[0] == LF)
  }

  // What a receiver is meant to get: the data, ended by CRLF.
  function Complete(data: seq<byte>): seq<byte> {
    data + if EndsWithCrlf(data) then [] else CRLF
  }

  function Wired(data: seq<byte>): seq<byte> {
    Stuffed(data, true) + (if EndsWithCrlf(data) then [] else CRLF) + LONE_DOT
  }

  method WireBody(data: seq<byte>) returns (b: seq<byte>)
    ensures b == Wired(data)
  {
    b := [];
    var start := true;
    for i := 0 to |data|
      invariant b + Stuffed(data[i..], start) == Stuffed(data, true)
    {
      var v := data[i];
      assert data[i..][1..] == data[i + 1..];
      ghost var before := b;
      if start && v == DOT {
        b := b + [DOT];
      }
      b := b + [v];
      assert b + Stuffed(data[i + 1..], v == LF) == before + Stuffed(data[i..], start);
      start := v == LF;
    }
    assert b + [] == b;
    if !EndsWithCrlf(data) {
      b := b + CRLF;
    }
    b := b + LONE_DOT;
  }

  // --- Receivers ----------------------------------------------------------------------------------------

  datatype Received = Incomplete | Received(data: seq<byte>, rest: seq<byte>)

  function Prepend(v: seq<byte>, r: Received): Received {
    match r
    case Incomplete => Incomplete
    case Received(data, rest) => Received(v + data, rest)
  }

  // The receiver that starts a line after every LF, and takes a CR before it as part of the
  // line end: a line of one dot ends the block, and any other line that begins with a dot
  // loses it.
  function ReceiveLf(s: seq<byte>, start: bool): Received
    decreases |s|
  {
    if |s| == 0 then Incomplete
    else if start && s[0] == DOT then
      if LONE_DOT <= s then Received([], s[3..])
      else if BARE_DOT <= s then Received([], s[2..])
      else ReceiveLf(s[1..], false)
    else Prepend([s[0]], ReceiveLf(s[1..], s[0] == LF))
  }

  // The receiver of the standard, which starts a line only after CRLF; cr says whether the
  // byte before s is CR.
  function ReceiveCrlf(s: seq<byte>, start: bool, cr: bool): Received
    decreases |s|
  {
    if |s| == 0 then Incomplete
    else if start && s[0] == DOT then
      if LONE_DOT <= s then Received([], s[3..]) else ReceiveCrlf(s[1..], false, false)
    else Prepend([s[0]], ReceiveCrlf(s[1..], cr && s[0] == LF, s[0] == CR))
  }

  // --- The receiver of LF lines gets every body back -----------------------------------------------------

  function StartAfter(data: seq<byte>, start: bool): bool {
    if |data| == 0 then start else data[|data| - 1] == LF
  }

  lemma {:induction false} StuffedReceived(data: seq<byte>, start: bool, tail: seq<byte>)
    ensures ReceiveLf(Stuffed(data, start) + tail, start) == Prepend(data, ReceiveLf(tail, StartAfter(data, start)))
  {
    hide ReceiveLf;
    if |data| == 0 {
      assert Stuffed(data, start) + tail == tail;
      PrependNothing(ReceiveLf(tail, start));
    } else {
      var v, more := data[0], data[1..];
      var r := Stuffed(more, v == LF) + tail;
      StuffedReceived(more, v == LF, tail);
      PrependTwice(v, more, ReceiveLf(tail, StartAfter(data, start)));
      assert data == [v] + more;
      if start && v == DOT {
        assert Stuffed(data, start) + tail == [DOT, DOT] + r;
        DoubledDot(r);
      } else {
        assert Stuffed(data, start) + tail == [v] + r;
        PlainByte(v, r, start);
      }
    }
  }

  lemma DoubledDot(r: seq<byte>)
    ensures ReceiveLf([DOT, DOT] + r, true) == Prepend([DOT], ReceiveLf(r, false))
  {
    var s := [DOT, DOT] + r;
    assert s[1..] == [DOT] + r && s[1] != CR;
    PlainByte(DOT, r, false);
  }

  lemma PlainByte(v: byte, r: seq<byte>, start: bool)
    requires !(start && v == DOT)
    ensures ReceiveLf([v] + r, start) == Prepend([v], ReceiveLf(r, v == LF))
  {
    assert ([v] + r)[1..] == r;
  }

  lemma PrependNothing(r: Received)
    ensures Prepend([], r) == r
  {
    if r.Received? {
      assert [] + r.data == r.data;
    }
  }

  lemma PrependTwice(v: byte, more: seq<byte>, r: Received)
    ensures Prepend([v], Prepend(more, r)) == Prepend([v] + more, r)
  {
    if r.Received? {
      assert [v] + (more + r.data) == [v] + more + r.data;
    }
  }

  lemma LastLine(ended: bool, start: bool, rest: seq<byte>)
    requires ended ==> start
    ensures ReceiveLf((if ended then [] else CRLF) + LONE_DOT + rest, start) ==
              Received(if ended then [] else CRLF, rest)
  {
    var dot := LONE_DOT + rest;
    assert dot[3..] == rest && LONE_DOT <= dot;
    assert ReceiveLf(dot, true) == Received([], rest);
    if ended {
      assert [] + LONE_DOT + rest == dot;
    } else {
      var s := CRLF + LONE_DOT + rest;
      assert s[1..][1..] == dot && s[0] == CR && s[1..][0] == LF;
      assert [LF] + [] == [LF] && [CR] + [LF] == CRLF;
    }
  }

  // For every body and whatever follows the block.
  lemma LfRoundTrip(data: seq<byte>, rest: seq<byte>)
    ensures ReceiveLf(Wired(data) + rest, true) == Received(Complete(data), rest)
  {
    var ended := EndsWithCrlf(data);
    var tail := (if ended then [] else CRLF) + LONE_DOT + rest;
    assert Wired(data) + rest == Stuffed(data, true) + tail;
    StuffedReceived(data, true, tail);
    LastLine(ended, StartAfter(data, true), rest);
  }

  // --- The receiver of the standard ----------------------------------------------------------------------

  // What it gets: a dot that was doubled after a bare LF stays doubled.
  function Delivered(data: seq<byte>, start: bool, crlf: bool, cr: bool): seq<byte> {
    if |data| == 0 then []
    else
      (if start && !crlf && data[0] == DOT then [DOT, DOT] else [data[0]]) +
      Delivered(data[1..], data[0] == LF, cr && data[0] == LF, data[0] == CR)
  }

  // A dot that follows an LF without CR before it.
  predicate BareDot(data: seq<byte>, i: nat) {
    1 <= i < |data| && data[i] == DOT && data[i - 1] == LF && (i == 1 || data[i - 2] != CR)
  }

  function CrlfAfter(data: seq<byte>, crlf: bool, cr: bool): bool {
    if |data| == 0 then crlf else data[|data| - 1] == LF && if |data| == 1 then cr else data[|data| - 2] == CR
  }

  function CrAfter(data: seq<byte>, cr: bool): bool {
    if |data| == 0 then cr else data[|data| - 1] == CR
  }

  lemma {:induction false} StuffedDelivered(data: seq<byte>, start: bool, crlf: bool, cr: bool, tail: seq<byte>)
    requires crlf ==> start
    ensures ReceiveCrlf(Stuffed(data, start) + tail, crlf, cr) ==
              Prepend(Delivered(data, start, crlf, cr),
                ReceiveCrlf(tail, CrlfAfter(data, crlf, cr), CrAfter(data, cr)))
  {
    hide ReceiveCrlf;
    if |data| == 0 {
      assert Stuffed(data, start) + tail == tail;
      PrependNothing(ReceiveCrlf(tail, crlf, cr));
    } else {
      var v, more := data[0], data[1..];
      var r := Stuffed(more, v == LF) + tail;
      StuffedDelivered(more, v == LF, cr && v == LF, v == CR, tail);
      assert data == [v] + more;
      var last := ReceiveCrlf(tail, CrlfAfter(data, crlf, cr), CrAfter(data, cr));
      var got := Delivered(more, v == LF, cr && v == LF, v == CR);
      PrependTwice(v, got, last);
      if start && v == DOT {
        assert Stuffed(data, start) + tail == [DOT, DOT] + r;
        DoubledDotCrlf(r, crlf, cr);
        if !crlf {
          PrependTwice(DOT, [DOT] + got, last);
          assert [DOT] + ([DOT] + got) == [DOT, DOT] + got;
        }
      } else {
        assert Stuffed(data, start) + tail == [v] + r;
        PlainByteCrlf(v, r, crlf, cr);
      }
    }
  }

  lemma DoubledDotCrlf(r: seq<byte>, crlf: bool, cr: bool)
    ensures ReceiveCrlf([DOT, DOT] + r, crlf, cr) ==
              if crlf then Prepend([DOT], ReceiveCrlf(r, false, false))
              else Prepend([DOT], Prepend([DOT], ReceiveCrlf(r, false, false)))
  {
    var s := [DOT, DOT] + r;
    assert s[1..] == [DOT] + r && s[1] != CR;
    PlainByteCrlf(DOT, r, false, false);
  }

  lemma PlainByteCrlf(v: byte, r: seq<byte>, crlf: bool, cr: bool)
    requires !(crlf && v == DOT)
    ensures ReceiveCrlf([v] + r, crlf, cr) == Prepend([v], ReceiveCrlf(r, cr && v == LF, v == CR))
  {
    assert ([v] + r)[1..] == r;
  }

  lemma LastLineCrlf(ended: bool, crlf: bool, cr: bool, rest: seq<byte>)
    requires ended ==> crlf
    ensures ReceiveCrlf((if ended then [] else CRLF) + LONE_DOT + rest, crlf, cr) ==
              Received(if ended then [] else CRLF, rest)
  {
    var dot := LONE_DOT + rest;
    assert dot[3..] == rest && LONE_DOT <= dot;
    assert forall c :: ReceiveCrlf(dot, true, c) == Received([], rest);
    if ended {
      assert [] + LONE_DOT + rest == dot;
    } else {
      var s := CRLF + LONE_DOT + rest;
      assert s == [CR] + ([LF] + dot);
      PlainByteCrlf(CR, [LF] + dot, crlf, cr);
      PlainByteCrlf(LF, dot, false, true);
      assert [LF] + [] == [LF] && [CR] + [LF] == CRLF;
    }
  }

  // For every body: the receiver of the standard consumes exactly the block.
  lemma CrlfReceives(data: seq<byte>, rest: seq<byte>)
    ensures ReceiveCrlf(Wired(data) + rest, true, false) ==
              Received(Delivered(data, true, true, false) + (if EndsWithCrlf(data) then [] else CRLF), rest)
  {
    var ended := EndsWithCrlf(data);
    var tail := (if ended then [] else CRLF) + LONE_DOT + rest;
    assert Wired(data) + rest == Stuffed(data, true) + tail;
    StuffedDelivered(data, true, true, false, tail);
    LastLineCrlf(ended, CrlfAfter(data, true, false), CrAfter(data, false), rest);
  }

  // How many dots stay doubled.
  function Surplus(data: seq<byte>, start: bool, crlf: bool, cr: bool): nat {
    if |data| == 0 then 0
    else
      (if start && !crlf && data[0] == DOT then 1 else 0) +
      Surplus(data[1..], data[0] == LF, cr && data[0] == LF, data[0] == CR)
  }

  lemma {:induction false} DeliveredLength(data: seq<byte>, start: bool, crlf: bool, cr: bool)
    ensures |Delivered(data, start, crlf, cr)| == |data| + Surplus(data, start, crlf, cr)
    ensures Surplus(data, start, crlf, cr) == 0 ==> Delivered(data, start, crlf, cr) == data
  {
    if |data| != 0 {
      DeliveredLength(data[1..], data[0] == LF, cr && data[0] == LF, data[0] == CR);
      assert data == [data[0]] + data[1..];
    }
  }

  // A dot stays doubled at the front, or one place further into the rest.
  predicate Doubles(data: seq<byte>, start: bool, crlf: bool, cr: bool, i: nat) {
    i < |data| && data[i] == DOT &&
    if i == 0 then start && !crlf else data[i - 1] == LF && !(if i == 1 then cr else data[i - 2] == CR)
  }

  lemma {:induction false} SurplusDots(data: seq<byte>, start: bool, crlf: bool, cr: bool)
    ensures Surplus(data, start, crlf, cr) > 0 <==> exists i: nat :: Doubles(data, start, crlf, cr, i)
  {
    if |data| == 0 {
      assert forall i: nat :: !Doubles(data, start, crlf, cr, i);
    } else {
      var more, start', crlf', cr' := data[1..], data[0] == LF, cr && data[0] == LF, data[0] == CR;
      SurplusDots(more, start', crlf', cr');
      if i: nat :| Doubles(more, start', crlf', cr', i) {
        assert Doubles(data, start, crlf, cr, i + 1);
      }
      if i: nat :| Doubles(data, start, crlf, cr, i) {
        if i == 0 {
          assert start && !crlf && data[0] == DOT;
        } else {
          assert Doubles(more, start', crlf', cr', i - 1);
        }
      }
      if start && !crlf && data[0] == DOT {
        assert Doubles(data, start, crlf, cr, 0);
      }
    }
  }

  // The receiver of the standard gets the body exactly when no dot follows a bare LF.
  lemma CrlfRoundTrip(data: seq<byte>, rest: seq<byte>)
    ensures ReceiveCrlf(Wired(data) + rest, true, false) == Received(Complete(data), rest) <==>
              forall i: nat :: !BareDot(data, i)
  {
    CrlfReceives(data, rest);
    DeliveredLength(data, true, true, false);
    SurplusDots(data, true, true, false);
    assert forall i: nat :: BareDot(data, i) <==> Doubles(data, true, true, false, i);
  }

  // A body of an LF and a dot comes back with the dot doubled.
  lemma DotAfterBareLf(rest: seq<byte>)
    ensures ReceiveCrlf(Wired([LF, DOT]) + rest, true, false) != Received(Complete([LF, DOT]), rest)
  {
    CrlfRoundTrip([LF, DOT], rest);
    assert BareDot([LF, DOT], 1);
  }

  // A body whose every LF follows a CR is received whole under either reading of lines.
  lemma PairedRoundTrip(data: seq<byte>, rest: seq<byte>)
    requires Paired(data, false)
    ensures ReceiveCrlf(Wired(data) + rest, true, false) == ReceiveLf(Wired(data) + rest, true) ==
              Received(Complete(data), rest)
  {
    LfRoundTrip(data, rest);
    CrlfRoundTrip(data, rest);
    forall i: nat
      ensures !BareDot(data, i)
    {
      if 1 <= i < |data| {
        assert PairedAt(data, false, i - 1);
      }
    }
  }

  // --- Only the last line is a lone dot ------------------------------------------------------------------

  // A line that is a lone dot, whether CRLF or LF alone ends it.
  predicate LoneDotAt(s: seq<byte>, start: bool, i: nat) {
    && i < |s| && (LONE_DOT <= s[i..] || BARE_DOT <= s[i..])
    && if i == 0 then start else s[i - 1] == LF
  }

  // What a lone dot behind k other bytes is to the rest.
  lemma LoneDotFurther(v: seq<byte>, r: seq<byte>, start: bool, i: nat)
    requires |v| > 0 && LoneDotAt(v + r, start, i) && i >= |v|
    ensures LoneDotAt(r, v[|v| - 1] == LF, i - |v|)
  {
    assert r[i - |v|..] == (v + r)[i..];
  }

  lemma LoneDotBytes(s: seq<byte>, start: bool, i: nat)
    requires LoneDotAt(s, start, i)
    ensures i + 1 < |s| && s[i] == DOT && (s[i + 1] == CR || s[i + 1] == LF)
    ensures (i == 0 ==> start) && (i > 0 ==> s[i - 1] == LF)
  {
    assert s[i..][0] == DOT && (s[i..][1] == CR || s[i..][1] == LF);
  }

  lemma {:induction false} NoLoneDotInside(data: seq<byte>, start: bool, tail: seq<byte>, i: nat)
    requires LoneDotAt(Stuffed(data, start) + tail, start, i)
    ensures i >= |Stuffed(data, start)|
    ensures LoneDotAt(tail, StartAfter(data, start), i - |Stuffed(data, start)|)
  {
    hide LoneDotAt, Stuffed;
    var s := Stuffed(data, start) + tail;
    if |data| == 0 {
      NothingStuffed(start);
      assert s == tail;
    } else {
      var first := First(data[0], start);
      var r := Stuffed(data[1..], data[0] == LF) + tail;
      StuffedFirst(data, start, tail);
      LoneDotAfter(data[0], r, start, i);
      LoneDotFurther(first, r, start, i);
      NoLoneDotInside(data[1..], data[0] == LF, tail, i - |first|);
    }
  }

  function First(v: byte, start: bool): seq<byte> {
    if start && v == DOT then [DOT, DOT] else [v]
  }

  lemma NothingStuffed(start: bool)
    ensures Stuffed([], start) == []
  {
  }

  lemma StuffedFirst(data: seq<byte>, start: bool, tail: seq<byte>)
    requires |data| > 0
    ensures Stuffed(data, start) + tail == First(data[0], start) + (Stuffed(data[1..], data[0] == LF) + tail)
    ensures |Stuffed(data, start)| == |First(data[0], start)| + |Stuffed(data[1..], data[0] == LF)|
  {
  }

  // No lone dot begins within what stands for one byte.
  lemma LoneDotAfter(v: byte, r: seq<byte>, start: bool, i: nat)
    requires LoneDotAt(First(v, start) + r, start, i)
    ensures i >= |First(v, start)|
  {
    hide LoneDotAt;
    LoneDotBytes(First(v, start) + r, start, i);
  }

  lemma FirstLoneDotIsLast(data: seq<byte>, i: nat)
    requires LoneDotAt(Wired(data), true, i)
    ensures i + 3 == |Wired(data)|
  {
    var ended := EndsWithCrlf(data);
    var tail := (if ended then [] else CRLF) + LONE_DOT;
    assert Wired(data) == Stuffed(data, true) + tail;
    NoLoneDotInside(data, true, tail, i);
    var j := i - |Stuffed(data, true)|;
    LoneDotBytes(tail, StartAfter(data, true), j);
  }
}
