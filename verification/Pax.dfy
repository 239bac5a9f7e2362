// Extended header records: paxRecord of internal/adversarial/archives.go, and a reader for
// the pax format of IEEE Std 1003.1.
module Pax {
  import opened Text

  function Body(key: seq<byte>, value: seq<byte>): seq<byte> {
    key + [EQUALS] + value + [LF]
  }

  function Record(n: nat, body: seq<byte>): seq<byte> {
    Bytes(Decimal(n)) + [SPACE] + body
  }

  // The length of a record that states the length n.
  function Length(n: nat, body: nat): nat {
    |Decimal(n)| + 1 + body
  }

  // A record may state the length n exactly when that is its length.
  predicate Consistent(n: nat, body: nat) {
    Length(n, body) == n
  }

  ghost predicate LeastConsistent(n: nat, body: nat) {
    Consistent(n, body) && forall m :: 0 <= m < n ==> !Consistent(m, body)
  }

  lemma {:induction false} DecimalGrows(m: nat, n: nat)
    requires m <= n
    ensures 1 <= |Decimal(m)| <= |Decimal(n)|
  {
    if m >= 10 {
      DecimalGrows(m / 10, n / 10);
    } else if n >= 10 {
      DecimalGrows(0, n / 10);
    }
  }

  lemma {:induction false} DecimalShort(n: nat)
    ensures |Decimal(n)| <= n / 2 + 1
  {
    if n >= 10 {
      DecimalShort(n / 10);
    }
  }

  // The loop guesses a length, and corrects it until the record has the length it states.
  method PaxRecord(key: seq<byte>, value: seq<byte>) returns (s: seq<byte>)
    ensures LeastConsistent(|s|, |Body(key, value)|)
    ensures s == Record(|s|, Body(key, value))
  {
    var body := Body(key, value);
    var n := |body| + 2;
    DecimalGrows(0, n);
    forall m | 0 <= m < n
      ensures !Consistent(m, |body|)
    {
      DecimalGrows(0, m);
    }
    while true
      invariant n <= Length(n, |body|)
      invariant forall m :: 0 <= m < n ==> !Consistent(m, |body|)
      decreases 2 * |body| + 4 - n
    {
      s := Record(n, body);
      DecimalShort(n);
      if |s| == n {
        return;
      }
      NoneBetween(n, |body|);
      n := |s|;
    }
  }

  // Nothing between a guess and its correction is consistent.
  lemma NoneBetween(n: nat, body: nat)
    requires n < Length(n, body)
    ensures Length(n, body) <= Length(Length(n, body), body)
    ensures forall m :: n <= m < Length(n, body) ==> !Consistent(m, body)
  {
    forall m | n <= m
      ensures Length(n, body) <= Length(m, body)
    {
      DecimalGrows(n, m);
    }
  }

  // --- The reader -------------------------------------------------------------------------------------------

  datatype Read = Malformed | Read(key: seq<byte>, value: seq<byte>, rest: seq<byte>)

  // "%d %s=%s\n", where the number counts the whole record.
  function ReadRecord(s: seq<byte>): Read {
    var digits := Before(s, SPACE);
    if |digits| == 0 || !Numeral(digits, 10) then Malformed
    else
      var n := Number(digits, 10);
      if n > |s| || n < |digits| + 3 || s[n - 1] != LF then Malformed
      else ReadField(s[|digits| + 1..n - 1], s[n..])
  }

  // The key ends at the first equals sign.
  function ReadField(field: seq<byte>, rest: seq<byte>): Read {
    var key := Before(field, EQUALS);
    BeforeHasNone(field, EQUALS);
    if |key| == |field| then Malformed else Read(key, field[|key| + 1..], rest)
  }

  lemma FieldRoundTrip(key: seq<byte>, value: seq<byte>, rest: seq<byte>)
    ensures ReadField(key + [EQUALS] + value, rest) == Read(key, value, rest) <==> EQUALS !in key
  {
    hide Before;
    var field := key + [EQUALS] + value;
    BeforeHasNone(field, EQUALS);
    if EQUALS !in key {
      BeforeIs(key, EQUALS, value);
      assert field[|key| + 1..] == value;
    }
  }

  lemma RecordSplit(field: seq<byte>, n: nat, rest: seq<byte>)
    requires Consistent(n, |field| + 1) && |field| >= 1
    ensures ReadRecord(Record(n, field + [LF]) + rest) == ReadField(field, rest)
  {
    hide Decimal, Bytes, Number, Before, ReadField;
    var digits := Bytes(Decimal(n));
    var s := Record(n, field + [LF]) + rest;
    DecimalNumber(n);
    NoSpace(digits);
    BeforeIs(digits, SPACE, field + [LF] + rest);
    assert s == digits + [SPACE] + (field + [LF] + rest);
    assert s[|digits| + 1..n - 1] == field && s[n - 1] == LF && s[n..] == rest;
  }

  lemma NoSpace(digits: seq<byte>)
    requires Numeral(digits, 10)
    ensures SPACE !in digits
  {
  }

  // The record is read back exactly when its key has no equals sign.
  lemma RoundTrip(key: seq<byte>, value: seq<byte>, n: nat, rest: seq<byte>)
    requires Consistent(n, |Body(key, value)|)
    ensures ReadRecord(Record(n, Body(key, value)) + rest) == Read(key, value, rest) <==> EQUALS !in key
  {
    hide Record, ReadRecord, ReadField;
    RecordSplit(key + [EQUALS] + value, n, rest);
    FieldRoundTrip(key, value, rest);
  }

  // The record "5 ==\n" has the key "=", and is read with an empty key.
  lemma EqualsInKey(rest: seq<byte>)
    ensures Consistent(5, |Body([EQUALS], [])|)
    ensures ReadRecord(Record(5, Body([EQUALS], [])) + rest) != Read([EQUALS], [], rest)
  {
    assert |Decimal(5)| == 1;
    RoundTrip([EQUALS], [], 5, rest);
  }

  // Two lengths can be consistent at once; the loop then states the smaller one.
  lemma TwoConsistent()
    ensures Consistent(9, 7) && Consistent(10, 7)
  {
    assert |Decimal(9)| == 1 && |Decimal(10)| == 2;
  }
}
