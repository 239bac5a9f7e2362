// From an encoder over the wire to a decoder: the bodies of internal/adversarial/generate.go
// as internal/adversarial/server.go sends them.
module Articles {
  import opened Text
  import Uuencode
  import Wire
  import Yenc

  // What a yEnc decoder gets from a receiver that reads the block off the wire.
  function FetchYenc(wire: seq<byte>, crc: seq<byte> -> uint32): Yenc.File {
    match Wire.ReceiveCrlf(wire, true, false)
    case Incomplete => Yenc.Unreadable
    case Received(body, _) => Yenc.Decode(body, crc)
  }

  function FetchUu(wire: seq<byte>): Uuencode.File {
    match Wire.ReceiveCrlf(wire, true, false)
    case Incomplete => Uuencode.Unreadable
    case Received(body, _) => Uuencode.Decode(body)
  }

  // Encoder, dot-stuffing, receiver and decoder together return name, part and data, whatever
  // the data is and whatever follows on the connection.
  lemma YencOverTheWire(name: seq<byte>, data: seq<byte>, p: Yenc.Part, crc: seq<byte> -> uint32, rest: seq<byte>)
    requires LF !in name
    ensures FetchYenc(Wire.Wired(Yenc.Article(name, data, p, crc(data))) + rest, crc) == Yenc.File(name, p, data, [])
  {
    hide Paired, EndsWithCrlf, Yenc.Article, Yenc.Decode, Wire.Wired, Wire.ReceiveCrlf, Wire.ReceiveLf;
    var article := Yenc.Article(name, data, p, crc(data));
    Yenc.ArticlePaired(name, data, p, crc(data));
    Wire.PairedRoundTrip(article, rest);
    assert article + [] == article;
    Yenc.RoundTrip(name, data, p, crc, []);
  }

  lemma UuOverTheWire(name: seq<byte>, data: seq<byte>, rest: seq<byte>)
    requires LF !in name
    ensures FetchUu(Wire.Wired(Uuencode.Encoded(name, data)) + rest) == Uuencode.File(name, 384, data, [])
  {
    hide Paired, EndsWithCrlf, Uuencode.Encoded, Uuencode.Decode, Wire.Wired, Wire.ReceiveCrlf, Wire.ReceiveLf;
    var file := Uuencode.Encoded(name, data);
    Uuencode.EncodedPaired(name, data);
    Wire.PairedRoundTrip(file, rest);
    assert file + [] == file;
    Uuencode.RoundTrip(name, data, []);
  }
}
