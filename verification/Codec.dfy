/** The fixed 32-byte probe header, big-endian, and its decoder. */
module Codec {
  import opened Common

  type Byte = b: int | 0 <= b < 256
  type Bytes = seq<Byte>

  const MAGIC: Bytes := [0x41, 0x56, 0x50, 0x4E]
  const VERSION: Byte := 1
  const HEADER_SIZE: nat := 32
  const UINT16: nat := 0x1_0000
  const UINT64: nat := 0x1_0000_0000_0000_0000

  datatype Packet = Packet(runToken: nat, pathIndex: nat, sequence: nat, sentNs: nat, payload: Bytes) {
    predicate Valid() {
      runToken < UINT64 && pathIndex < UINT16 && sequence < UINT64 && sentNs < UINT64
    }
  }

  datatype DecodeError = TooShort | WrongMagic | WrongVersion(version: Byte) | ReservedBits

  // ----- Unsigned big-endian numbers of a fixed width -----

  function Power(width: nat): nat {
    if width == 0 then 1 else 256 * Power(width - 1)
  }

  function ToBytes(n: nat, width: nat): (b: Bytes)
    ensures |b| == width
  {
    if width == 0 then [] else ToBytes(n / 256, width - 1) + [n % 256]
  }

  function FromBytes(b: Bytes): nat {
    if b == [] then 0 else 256 * FromBytes(b[..|b| - 1]) + b[|b| - 1]
  }

  lemma {:induction false} NumberRoundTrip(n: nat, width: nat)
    requires n < Power(width)
    ensures FromBytes(ToBytes(n, width)) == n
  {
    if width > 0 {
      NumberRoundTrip(n / 256, width - 1);
      assert ToBytes(n, width)[..width - 1] == ToBytes(n / 256, width - 1);
    }
  }

  lemma {:induction false} BytesRoundTrip(b: Bytes)
    ensures FromBytes(b) < Power(|b|) && ToBytes(FromBytes(b), |b|) == b
  {
    if b != [] {
      var front, last := b[..|b| - 1], b[|b| - 1];
      BytesRoundTrip(front);
      assert FromBytes(b) / 256 == FromBytes(front) && FromBytes(b) % 256 == last;
      assert b == front + [last];
    }
  }

  lemma Widths()
    ensures Power(2) == UINT16 && Power(8) == UINT64
  {
    assert Power(4) == 256 * 256 * 256 * 256 && Power(8) == 256 * 256 * 256 * 256 * Power(4);
  }

  // ----- The codec -----

  function Header(p: Packet): (b: Bytes)
    ensures |b| == HEADER_SIZE
  {
    MAGIC + [VERSION, 0] + ToBytes(p.pathIndex, 2) + ToBytes(p.runToken, 8) + ToBytes(p.sequence, 8) +
      ToBytes(p.sentNs, 8)
  }

  function Encode(p: Packet): Bytes {
    Header(p) + p.payload
  }

  function Decode(data: Bytes): Result<Packet, DecodeError> {
    if |data| < HEADER_SIZE then Err(TooShort)
    else if data[..4] != MAGIC then Err(WrongMagic)
    else if data[4] != VERSION then Err(WrongVersion(data[4]))
    else if data[5] != 0 then Err(ReservedBits)
    else
      Ok(Packet(FromBytes(data[8..16]), FromBytes(data[6..8]), FromBytes(data[16..24]), FromBytes(data[24..32]),
                data[32..]))
  }

  lemma EncodedFields(p: Packet)
    ensures
      var b := Encode(p);
      && |b| >= HEADER_SIZE && b[..4] == MAGIC && b[4] == VERSION && b[5] == 0
      && b[6..8] == ToBytes(p.pathIndex, 2) && b[8..16] == ToBytes(p.runToken, 8)
      && b[16..24] == ToBytes(p.sequence, 8) && b[24..32] == ToBytes(p.sentNs, 8) && b[32..] == p.payload
  {
  }

  // ----- The wire format, byte by byte -----

  function Two(b: Bytes, at: nat): nat
    requires at + 2 <= |b|
  {
    0x100 * (b[at] as int) + b[at + 1] as int
  }

  function Four(b: Bytes, at: nat): nat
    requires at + 4 <= |b|
  {
    0x1_0000 * Two(b, at) + Two(b, at + 2)
  }

  /** Eight bytes in network order, the first weighing most. */
  function Eight(b: Bytes, at: nat): nat
    requires at + 8 <= |b|
  {
    0x1_0000_0000 * Four(b, at) + Four(b, at + 4)
  }

  lemma FromTwo(b: Bytes, at: nat)
    requires at + 2 <= |b|
    ensures FromBytes(b[at..at + 2]) == Two(b, at)
  {
    var s := b[at..at + 2];
    assert s[..1][..0] == [] && s[..1][0] == b[at] && s[1] == b[at + 1];
    assert FromBytes(s[..1]) == b[at];
  }

  lemma {:induction false} FromAppend(a: Bytes, b: Bytes)
    ensures FromBytes(a + b) == FromBytes(a) * Power(|b|) + FromBytes(b)
  {
    if b == [] {
      assert a + b == a;
    } else {
      var front, last := b[..|b| - 1], b[|b| - 1];
      FromAppend(a, front);
      assert (a + b)[..|a + b| - 1] == a + front && (a + b)[|a + b| - 1] == last;
      Shift(FromBytes(a), Power(|front|), FromBytes(front), last);
    }
  }

  lemma Shift(a: nat, p: nat, f: nat, last: nat)
    ensures 256 * (a * p + f) + last == a * (256 * p) + (256 * f + last)
  {
  }

  lemma FromFour(b: Bytes, at: nat)
    requires at + 4 <= |b|
    ensures FromBytes(b[at..at + 4]) == Four(b, at)
  {
    assert Power(2) == 0x1_0000;
    FromTwo(b, at);
    FromTwo(b, at + 2);
    FromAppend(b[at..at + 2], b[at + 2..at + 4]);
    assert b[at..at + 2] + b[at + 2..at + 4] == b[at..at + 4];
  }

  lemma FromEight(b: Bytes, at: nat)
    requires at + 8 <= |b|
    ensures FromBytes(b[at..at + 8]) == Eight(b, at)
  {
    assert Power(4) == 0x1_0000_0000;
    FromFour(b, at);
    FromFour(b, at + 4);
    FromAppend(b[at..at + 4], b[at + 4..at + 8]);
    assert b[at..at + 4] + b[at + 4..at + 8] == b[at..at + 8];
  }

  /** What stands where in the datagram of a packet. */
  lemma WireFormat(p: Packet)
    requires p.Valid()
    ensures
      var b := Encode(p);
      && |b| == 32 + |p.payload|
      && b[0] == 0x41 && b[1] == 0x56 && b[2] == 0x50 && b[3] == 0x4E && b[4] == 1 && b[5] == 0
      && Two(b, 6) == p.pathIndex && Eight(b, 8) == p.runToken
      && Eight(b, 16) == p.sequence && Eight(b, 24) == p.sentNs
      && b[32..] == p.payload
  {
    var b := Encode(p);
    EncodedFields(p);
    assert b[..4][0] == b[0] && b[..4][1] == b[1] && b[..4][2] == b[2] && b[..4][3] == b[3];
    DecodeEncode(p);
    FromTwo(b, 6);
    FromEight(b, 8);
    FromEight(b, 16);
    FromEight(b, 24);
  }

  /** Every packet survives the wire. */
  lemma DecodeEncode(p: Packet)
    requires p.Valid()
    ensures Decode(Encode(p)) == Ok(p)
  {
    EncodedFields(p);
    Widths();
    NumberRoundTrip(p.pathIndex, 2);
    NumberRoundTrip(p.runToken, 8);
    NumberRoundTrip(p.sequence, 8);
    NumberRoundTrip(p.sentNs, 8);
  }

  /** What the decoder accepts is a packet's encoding, byte for byte. */
  lemma EncodeDecode(data: Bytes)
    requires Decode(data).Ok?
    ensures Decode(data).value.Valid() && Encode(Decode(data).value) == data
  {
    Widths();
    BytesRoundTrip(data[6..8]);
    BytesRoundTrip(data[8..16]);
    BytesRoundTrip(data[16..24]);
    BytesRoundTrip(data[24..32]);
    assert data == data[..4] + data[4..6] + data[6..8] + data[8..16] + data[16..24] + data[24..32] + data[32..];
    assert data[4..6] == [VERSION, 0];
  }

  ghost predicate IsEncoding(data: Bytes) {
    exists p: Packet :: p.Valid() && Encode(p) == data
  }

  /** The decoder accepts exactly the encodings of valid packets. */
  lemma AcceptsExactlyEncodings(data: Bytes)
    ensures Decode(data).Ok? <==> IsEncoding(data)
  {
    if Decode(data).Ok? {
      EncodeDecode(data);
    }
    if IsEncoding(data) {
      var p: Packet :| p.Valid() && Encode(p) == data;
      DecodeEncode(p);
    }
  }
}
