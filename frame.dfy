/**
 * The frame layout every command and reply of the sensor shares:
 *
 *   7B 41 00 LEN CMD_HI CMD_LO payload... CRC_HI CRC_LO 7D
 *
 * where LEN is the length of the content (everything before the CRC) minus
 * one, modulo 256.
 */
module Frame {
  import opened Bytes
  import opened Crc16

  /** The three bytes every frame starts with. */
  const Head: seq<byte> := [0x7B, 0x41, 0x00]
  /** The byte every frame ends with. */
  const Tail: byte := 0x7D

  /** `(content_len - 1) & 0xFF` for a content of `contentLen` bytes. */
  function LengthByte(contentLen: int): (len: byte)
  {
    ((contentLen - 1) % 256) as bv8
  }

  /** Start bytes, length byte, end byte: byte 3 is the total length minus four, modulo 256. */
  predicate Framed(f: seq<byte>)
  {
    |f| >= 7 && f[..3] == Head && f[3] == LengthByte(|f| - 3) && f[|f| - 1] == Tail
  }

  /** Bytes 4..5 read big-endian: the command id. */
  function CommandId(f: seq<byte>): (id: int)
    requires |f| >= 6
    ensures 0 <= id < 0x10000
  {
    U16(f[4], f[5])
  }

  /** A CRC register sent high byte first, as `(crc >> 8) & 0xFF, crc & 0xFF`. */
  function CrcBytes(c: bv16): (r: seq<byte>)
    ensures |r| == 2
  {
    [(c >> 8) as bv8, (c & 0xFF) as bv8]
  }

  /** Reading the two CRC bytes back big-endian gives the register. */
  lemma CrcBytesRoundTrip(c: bv16)
    ensures U16(CrcBytes(c)[0], CrcBytes(c)[1]) == c as int
  {
    Narrow(c >> 8);
    Narrow(c & 0xFF);
    assert (c >> 8) as int * 256 + (c & 0xFF) as int == c as int;
  }

  /** The two bytes before the last are the CRC of everything before them, high byte first. */
  predicate CarriesCrc(poly: bv16, f: seq<byte>)
  {
    |f| >= 3 && f[|f| - 3..|f| - 1] == CrcBytes(Crc(poly, f[..|f| - 3]))
  }

  /** `frame` is `content`, then its CRC high byte first, then 0x7D. */
  predicate Sealed(poly: bv16, frame: seq<byte>, content: seq<byte>)
  {
    frame == content + CrcBytes(Crc(poly, content)) + [Tail]
  }

  /** A sealed frame keeps its content in front, carries the CRC of that content, and ends with 0x7D. */
  lemma SealedCarriesCrc(poly: bv16, frame: seq<byte>, content: seq<byte>)
    requires Sealed(poly, frame, content)
    ensures |frame| == |content| + 3 && frame[..|content|] == content
    ensures CarriesCrc(poly, frame) && frame[|frame| - 1] == Tail
  {
    SealedLayout(frame, content, CrcBytes(Crc(poly, content)));
  }

  lemma SealedLayout(frame: seq<byte>, content: seq<byte>, crc: seq<byte>)
    requires |crc| == 2 && frame == content + crc + [Tail]
    ensures |frame| == |content| + 3 && frame[..|content|] == content
    ensures frame[..|frame| - 3] == content && frame[|frame| - 3..|frame| - 1] == crc && frame[|frame| - 1] == Tail
  {
  }

  /**
   * Patching byte 3 of `unpatched` to its length minus one and then sealing
   * it gives a frame with the right length byte, whose other bytes are those
   * of `unpatched`, and which carries the CRC of the patched content.
   */
  lemma PatchedSealed(poly: bv16, unpatched: seq<byte>, content: seq<byte>, packet: seq<byte>)
    requires |unpatched| >= 4 && content == unpatched[3 := LengthByte(|unpatched|)]
    requires Sealed(poly, packet, content)
    ensures |packet| == |unpatched| + 3 && packet[3] == LengthByte(|packet| - 3)
    ensures forall i :: 0 <= i < |unpatched| && i != 3 ==> packet[i] == unpatched[i]
    ensures CarriesCrc(poly, packet) && packet[|packet| - 1] == Tail
  {
    SealedCarriesCrc(poly, packet, content);
    assert forall i :: 0 <= i < |content| ==> packet[i] == content[i];
  }
}
