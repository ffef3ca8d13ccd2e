/**
 * The UUID byte layout the converter uses for BinData subtype 4: sixteen
 * bytes holding the UUID's most significant 64 bits in bytes 0..7 and its
 * least significant 64 bits in bytes 8..15, each word written little-endian
 * (ByteBuffer with ByteOrder.LITTLE_ENDIAN, putLong/getLong twice).
 */
module UuidLayout {
  import opened Wrappers

  /** One octet of a byte[] payload, as an unsigned bit pattern. */
  type byte = x: int | 0 <= x < 256

  const TWO_64: int := 0x1_0000_0000_0000_0000

  /** A Java long read as its unsigned 64-bit pattern. */
  type word64 = x: int | 0 <= x < TWO_64

  /** The subtype BSON reserves for UUID payloads (BSON.B_UUID). */
  const UUID_SUBTYPE: int := 4

  /** java.util.UUID: its two 64-bit halves. */
  datatype Uuid = Uuid(mostSigBits: word64, leastSigBits: word64)

  function Pow256(n: nat): (p: nat)
    ensures p >= 1
  {
    if n == 0 then 1 else 256 * Pow256(n - 1)
  }

  /** The n low-order bytes of w, least significant first. */
  function LittleEndian(w: nat, n: nat): (bs: seq<byte>)
    ensures |bs| == n
  {
    if n == 0 then [] else [w % 256] + LittleEndian(w / 256, n - 1)
  }

  /** The number whose little-endian bytes are bs. */
  function FromLittleEndian(bs: seq<byte>): nat
  {
    if bs == [] then 0 else bs[0] + 256 * FromLittleEndian(bs[1..])
  }

  /** n bytes hold a number below 256^n. */
  lemma {:induction false} FromLittleEndianBound(bs: seq<byte>)
    ensures FromLittleEndian(bs) < Pow256(|bs|)
  {
    if bs != [] {
      FromLittleEndianBound(bs[1..]);
    }
  }

  lemma {:induction false} FromLittleEndianOfLittleEndian(w: nat, n: nat)
    requires w < Pow256(n)
    ensures FromLittleEndian(LittleEndian(w, n)) == w
  {
    if n > 0 {
      FromLittleEndianOfLittleEndian(w / 256, n - 1);
      assert LittleEndian(w, n)[1..] == LittleEndian(w / 256, n - 1);
    }
  }

  lemma {:induction false} LittleEndianOfFromLittleEndian(bs: seq<byte>)
    ensures LittleEndian(FromLittleEndian(bs), |bs|) == bs
  {
    if bs != [] {
      LittleEndianOfFromLittleEndian(bs[1..]);
      var w := FromLittleEndian(bs);
      assert w % 256 == bs[0] && w / 256 == FromLittleEndian(bs[1..]);
    }
  }

  lemma Pow256Of8()
    ensures Pow256(8) == TWO_64
  {
  }

  /**
   * ByteBuffer.wrap(data).order(LITTLE_ENDIAN) then getLong() twice: None
   * when fewer than 16 bytes are there (BufferUnderflowException); bytes
   * past the sixteenth are never read.
   */
  function UuidFromBytes(data: seq<byte>): (r: Option<Uuid>)
    ensures r.None? <==> |data| < 16
  {
    if |data| < 16 then None
    else
      Pow256Of8();
      FromLittleEndianBound(data[..8]);
      FromLittleEndianBound(data[8..16]);
      Some(Uuid(FromLittleEndian(data[..8]), FromLittleEndian(data[8..16])))
  }

  /**
   * The UUID read from a payload of at least 16 bytes: its high word is
   * bytes 0..7 and its low word bytes 8..15, each little-endian, and bytes
   * past the sixteenth do not matter.
   */
  lemma UuidFromBytesWords(data: seq<byte>)
    requires |data| >= 16
    ensures UuidFromBytes(data) == UuidFromBytes(data[..16])
    ensures UuidFromBytes(data).value.mostSigBits == FromLittleEndian(data[..8])
    ensures UuidFromBytes(data).value.leastSigBits == FromLittleEndian(data[8..16])
  {
    assert data[..16][..8] == data[..8] && data[..16][8..16] == data[8..16];
  }

  /** ByteBuffer.allocate(16).order(LITTLE_ENDIAN), putLong(msb), putLong(lsb), array(). */
  function UuidToBytes(u: Uuid): (bs: seq<byte>)
    ensures |bs| == 16
  {
    LittleEndian(u.mostSigBits, 8) + LittleEndian(u.leastSigBits, 8)
  }

  /** Bytes to UUID to bytes is the identity on 16-byte payloads. */
  lemma BytesToUuidToBytes(data: seq<byte>)
    requires |data| == 16
    ensures UuidFromBytes(data).Some?
    ensures UuidToBytes(UuidFromBytes(data).value) == data
  {
    UuidFromBytesWords(data);
    var u := UuidFromBytes(data).value;
    LittleEndianOfFromLittleEndian(data[..8]);
    LittleEndianOfFromLittleEndian(data[8..16]);
    assert LittleEndian(u.mostSigBits, 8) == data[..8];
    assert LittleEndian(u.leastSigBits, 8) == data[8..16];
    assert data == data[..8] + data[8..16];
  }

  /** UUID to bytes to UUID is the identity. */
  lemma UuidToBytesToUuid(u: Uuid)
    ensures UuidFromBytes(UuidToBytes(u)) == Some(u)
  {
    var bs := UuidToBytes(u);
    Pow256Of8();
    assert bs[..8] == LittleEndian(u.mostSigBits, 8);
    assert bs[8..16] == LittleEndian(u.leastSigBits, 8);
    FromLittleEndianOfLittleEndian(u.mostSigBits, 8);
    FromLittleEndianOfLittleEndian(u.leastSigBits, 8);
    UuidFromBytesWords(bs);
  }
}
