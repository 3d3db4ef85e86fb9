/** Packed little-endian layouts of the protocol messages. */
module Wire {
  import opened Common

  const MAGIC: uint32 := 0x44534D00
  const HEADER_SIZE := 24
  const BUFFER_SIZE := 65536

  function EncodeU16(x: uint16): (b: seq<byte>)
    ensures |b| == 2
  {
    [x % 256, x / 256]
  }

  function DecodeU16(b: seq<byte>): uint16
    requires |b| == 2
  {
    (b[0] as int) + 256 * (b[1] as int)
  }

  function EncodeU32(x: uint32): (b: seq<byte>)
    ensures |b| == 4
  {
    EncodeU16(x % 0x1_0000) + EncodeU16(x / 0x1_0000)
  }

  function DecodeU32(b: seq<byte>): uint32
    requires |b| == 4
  {
    (DecodeU16(b[..2]) as int) + 0x1_0000 * (DecodeU16(b[2..]) as int)
  }

  lemma U16RoundTrip(x: uint16)
    ensures DecodeU16(EncodeU16(x)) == x
  {
  }

  lemma U32RoundTrip(x: uint32)
    ensures DecodeU32(EncodeU32(x)) == x
  {
    var b := EncodeU32(x);
    assert b[..2] == EncodeU16(x % 0x1_0000) && b[2..] == EncodeU16(x / 0x1_0000);
  }

  /** The bytes in memory order, least significant first. */
  lemma Little(x: uint32)
    ensures var b := EncodeU32(x);
            && b[0] as int + 0x100 * b[1] as int + 0x1_0000 * b[2] as int + 0x100_0000 * b[3] as int == x
    ensures x < 0x1_0000 ==> EncodeU16(x)[0] as int + 0x100 * EncodeU16(x)[1] as int == x
  {
  }

  datatype Header = Header(
    magic: uint32, kind: uint32, src: uint32, dst: uint32, seqNum: uint32, payloadLen: uint32)

  function EncodeHeader(h: Header): (b: seq<byte>)
    ensures |b| == HEADER_SIZE
  {
    EncodeU32(h.magic) + EncodeU32(h.kind) + EncodeU32(h.src)
    + EncodeU32(h.dst) + EncodeU32(h.seqNum) + EncodeU32(h.payloadLen)
  }

  function DecodeHeader(b: seq<byte>): Header
    requires |b| == HEADER_SIZE
  {
    Header(DecodeU32(b[0..4]), DecodeU32(b[4..8]), DecodeU32(b[8..12]),
           DecodeU32(b[12..16]), DecodeU32(b[16..20]), DecodeU32(b[20..24]))
  }

  lemma HeaderRoundTrip(h: Header)
    ensures DecodeHeader(EncodeHeader(h)) == h
  {
    var b := EncodeHeader(h);
    assert b[20..] == EncodeU32(h.payloadLen) == b[20..24];
    assert b[0..4] == EncodeU32(h.magic) && b[4..8] == EncodeU32(h.kind) && b[8..12] == EncodeU32(h.src);
    assert b[12..16] == EncodeU32(h.dst) && b[16..20] == EncodeU32(h.seqNum) && b[20..24] == EncodeU32(h.payloadLen);
    U32RoundTrip(h.magic); U32RoundTrip(h.kind); U32RoundTrip(h.src);
    U32RoundTrip(h.dst); U32RoundTrip(h.seqNum); U32RoundTrip(h.payloadLen);
  }

  /** The fields are at the offsets of the packed structure. */
  lemma HeaderLayout(h: Header)
    ensures var b := EncodeHeader(h);
            && b[0..4] == EncodeU32(h.magic) && b[4..8] == EncodeU32(h.kind) && b[8..12] == EncodeU32(h.src)
            && b[12..16] == EncodeU32(h.dst) && b[16..20] == EncodeU32(h.seqNum) && b[20..24] == EncodeU32(h.payloadLen)
  {
    var b := EncodeHeader(h);
    assert b[20..] == EncodeU32(h.payloadLen) == b[20..24];
  }
}
