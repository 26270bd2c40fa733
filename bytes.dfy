/**
 * Bytes as the sensor protocol uses them: an octet is an 8-bit value (a
 * Python `bytes` element, read as an integer in 0..255 with `as int`), and
 * multi-byte quantities are sent high byte first.
 */
module Bytes {

  type byte = bv8

  /** `int.from_bytes(bytes([hi, lo]), byteorder='big')`. */
  function U16(hi: byte, lo: byte): (v: int)
    ensures 0 <= v < 0x10000
  {
    hi as int * 256 + lo as int
  }

  /** `(x >> 8) & 0xFF` on an unbounded Python int: `>>` floors, `&` keeps a non-negative byte. */
  function HiByte(x: int): (hi: byte)
  {
    ((x / 256) % 256) as bv8
  }

  /** `x & 0xFF` on an unbounded Python int. */
  function LoByte(x: int): (lo: byte)
  {
    (x % 256) as bv8
  }

  /** Splitting an int into two bytes and reading them back big-endian keeps it modulo 2^16. */
  lemma SplitJoin(x: int)
    ensures U16(HiByte(x), LoByte(x)) == x % 0x10000
  {
    var q, r := x / 256, x % 256;
    var q1, q0 := q / 256, q % 256;
    assert x == 256 * q + r;
    assert q == 256 * q1 + q0;
    IntToByte(q0);
    IntToByte(r);
    ModUnique(x, q1, 256 * q0 + r);
  }

  /** Two bytes that are the split of `x` read back as `x` modulo 2^16. */
  lemma JoinOf(hi: byte, lo: byte, x: int)
    requires hi == HiByte(x) && lo == LoByte(x)
    ensures U16(hi, lo) == x % 0x10000
    ensures 0 <= x < 0x10000 ==> U16(hi, lo) == x
  {
    SplitJoin(x);
    if 0 <= x < 0x10000 {
      ModUnique(x, 0, x);
    }
  }

  /** An integer in 0..255 survives the trip to a byte and back. */
  lemma IntToByte(v: int)
    requires 0 <= v < 256
    ensures (v as bv8) as int == v
  {
    if v < 16 {
    } else if v < 32 {
    } else if v < 48 {
    } else if v < 64 {
    } else if v < 80 {
    } else if v < 96 {
    } else if v < 112 {
    } else if v < 128 {
    } else if v < 144 {
    } else if v < 160 {
    } else if v < 176 {
    } else if v < 192 {
    } else if v < 208 {
    } else if v < 224 {
    } else if v < 240 {
    } else {
    }
  }

  /** A 16-bit value below 256 keeps its value as a byte. */
  lemma Narrow(x: bv16)
    requires x < 256
    ensures (x as bv8) as int == x as int
  {
  }

  /** The remainder is the unique r with x == 2^16 * k + r and 0 <= r < 2^16. */
  lemma ModUnique(x: int, k: int, r: int)
    requires x == 0x10000 * k + r && 0 <= r < 0x10000
    ensures x % 0x10000 == r
  {
  }

  /** `b'\x00' * n` for n >= 0. */
  function Zeros(n: nat): (z: seq<byte>)
    ensures |z| == n
    ensures forall i :: 0 <= i < n ==> z[i] == 0
  {
    seq(n, _ => 0)
  }

  /** The padded width of a field: `width`, or the field's own length if it is longer. */
  function Padded(n: nat, width: nat): (w: nat)
  {
    if n <= width then width else n
  }

  /** `b'\x00' * (width - len(s))`: Python repeats a negative count zero times. */
  function Padding(s: seq<byte>, width: nat): (z: seq<byte>)
    ensures |s| + |z| == Padded(|s|, width)
    ensures forall i :: 0 <= i < |z| ==> z[i] == 0
  {
    if |s| <= width then Zeros(width - |s|) else []
  }

  /** Every byte of `s` from `lo` up to `hi` is zero. */
  predicate ZerosAt(s: seq<byte>, lo: int, hi: int)
  {
    forall i :: lo <= i < hi && 0 <= i < |s| ==> s[i] == 0
  }
}
