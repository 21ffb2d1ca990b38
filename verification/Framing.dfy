/** Length-prefixed frames: four big-endian bytes, then the body. */
module Framing {
  type Byte = b: int | 0 <= b < 256

  function BigEndian(bytes: seq<Byte>): nat {
    if bytes == [] then 0 else BigEndian(bytes[..|bytes| - 1]) * 256 + bytes[|bytes| - 1]
  }

  function Header(length: nat): (h: seq<Byte>)
    requires length < 0x1_0000_0000
    ensures |h| == 4
  {
    [length / 0x100_0000, length / 0x1_0000 % 256, length / 256 % 256, length % 256]
  }

  function Frame(body: seq<Byte>): (f: seq<Byte>)
    requires |body| < 0x1_0000_0000
    ensures |f| == 4 + |body|
  {
    Header(|body|) + body
  }

  /** Most significant byte first. */
  lemma {:induction false} FourBytes(a: Byte, b: Byte, c: Byte, d: Byte)
    ensures BigEndian([a, b, c, d]) == ((a * 256 + b) * 256 + c) * 256 + d
  {
    assert [a, b, c, d][..3] == [a, b, c] && [a, b, c][..2] == [a, b] && [a, b][..1] == [a] && [a][..0] == [];
    assert BigEndian([a]) == a;
    assert BigEndian([a, b]) == a * 256 + b;
    assert BigEndian([a, b, c]) == (a * 256 + b) * 256 + c;
  }

  /** The header says the length, for every length that four bytes can hold. */
  lemma {:induction false} HeaderRoundTrip(length: nat)
    requires length < 0x1_0000_0000
    ensures BigEndian(Header(length)) == length
  {
    var h := Header(length);
    FourBytes(h[0], h[1], h[2], h[3]);
    assert h == [h[0], h[1], h[2], h[3]];
  }

  lemma {:induction false} BigEndianAppend(bytes: seq<Byte>, b: Byte)
    ensures BigEndian(bytes + [b]) == BigEndian(bytes) * 256 + b
  {
    assert (bytes + [b])[..|bytes|] == bytes;
  }

  /** Reading one frame off a stream that begins with one gives back its body. */
  lemma {:induction false} FrameIsRead(body: seq<Byte>, rest: seq<Byte>)
    requires |body| < 0x1_0000_0000
    ensures var s := Frame(body) + rest;
      BigEndian(s[..4]) == |body| && s[4..4 + |body|] == body && s[4 + |body|..] == rest
  {
    HeaderRoundTrip(|body|);
    assert (Frame(body) + rest)[..4] == Header(|body|);
  }

  lemma {:induction false} ConcatAssociates(a: seq<Byte>, b: seq<Byte>, c: seq<Byte>)
    ensures (a + b) + c == a + (b + c)
  {
  }
}
