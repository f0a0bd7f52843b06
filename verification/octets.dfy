/** Bytes as Node's Buffer holds them, and the big-endian 16-bit field used for
    SOCKS5 ports. */
module Octets {
  import opened Wrappers

  newtype uint8 = x: int | 0 <= x < 256

  type Bytes = seq<uint8>

  /** An unsigned 16-bit value, the range of `Buffer.readUInt16BE`. */
  type uint16 = x: nat | x < 0x1_0000

  /** The largest TCP port; Node's connectors throw a RangeError above it. */
  const MAX_PORT := 0xFFFF

  /** The two big-endian bytes of `v` (high byte first), as a SOCKS5 client
      writes DST.PORT. */
  function EncodeUInt16BE(v: uint16): (b: Bytes)
    ensures |b| == 2
    ensures b[0] as int * 256 + b[1] as int == v
  {
    [(v / 256) as uint8, (v % 256) as uint8]
  }

  /** `buf.readUInt16BE(offset)`: None where Node throws a RangeError because
      fewer than two bytes remain at `offset`. */
  function ReadUInt16BE(buf: Bytes, offset: nat): (r: Option<uint16>)
    ensures r.Some? <==> offset + 2 <= |buf|
    ensures r.Some? ==> EncodeUInt16BE(r.value) == buf[offset..offset + 2]
  {
    if offset + 2 <= |buf| then
      var hi, lo := buf[offset] as int, buf[offset + 1] as int;
      var v := hi * 256 + lo;
      assert v / 256 == hi && v % 256 == lo;
      Some(v)
    else
      None
  }

  /** Reading back an encoded value at its own offset yields the value,
      whatever surrounds it. */
  lemma UInt16RoundTrip(prefix: Bytes, v: uint16, rest: Bytes)
    ensures ReadUInt16BE(prefix + EncodeUInt16BE(v) + rest, |prefix|) == Some(v)
  {
    var buf := prefix + EncodeUInt16BE(v) + rest;
    assert buf[|prefix|..|prefix| + 2] == EncodeUInt16BE(v);
    var e := EncodeUInt16BE(v);
    assert buf[|prefix|] == e[0] && buf[|prefix| + 1] == e[1];
  }

  /** Every character is ASCII, so UTF-8 writes it as one byte. */
  predicate IsAscii(s: string) {
    forall i :: 0 <= i < |s| ==> s[i] as int < 128
  }

  type AsciiText = s: string | IsAscii(s) witness ""

  /** The bytes Node writes for ASCII text (every literal the proxy writes is
      ASCII): one byte per character, its code. */
  function TextBytes(s: AsciiText): (b: Bytes)
    ensures |b| == |s|
    ensures forall i :: 0 <= i < |s| ==> b[i] as int == s[i] as int
  {
    seq(|s|, i requires 0 <= i < |s| => (s[i] as int) as uint8)
  }
}
