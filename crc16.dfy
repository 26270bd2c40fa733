/**
 * One round of the MSB-first, non-reflected CRC-16 register for any
 * polynomial, as the bit-by-bit loops of the source write it: shift left
 * (dropping the bit that leaves the 16-bit register), and XOR the polynomial
 * when the bit shifted out was set.
 */
module CrcRounds {

  function Shift(poly: bv16, c: bv16): (r: bv16)
  {
    if c & 0x8000 != 0 then (c << 1) ^ poly else c << 1
  }

  /** One round as the loops of the source write it, for the loops that run it. */
  method Round(poly: bv16, c: bv16) returns (r: bv16)
    ensures r == Shift(poly, c)
  {
    if c & 0x8000 != 0 {
      r := (c << 1) ^ poly;
    } else {
      r := c << 1;
    }
  }

  /** Eight rounds written out, so that concrete values evaluate directly. */
  function Rounds8(poly: bv16, c: bv16): (r: bv16)
  {
    Shift(poly, Shift(poly, Shift(poly, Shift(poly, Shift(poly, Shift(poly, Shift(poly, Shift(poly, c))))))))
  }
}

/**
 * The register of CRC-16/XMODEM as sixteen separate one-bit values, `b15` the
 * top one. Written bit by bit, one round with poly 0x1021 only moves bits up
 * one place and flips bits 12, 5 and 0 with the bit shifted out, so identities
 * that hold for every register become facts about single bits.
 */
module XmodemBits {

  datatype Bits = Bits(
      b15: bv1, b14: bv1, b13: bv1, b12: bv1,
      b11: bv1, b10: bv1, b9: bv1, b8: bv1,
      b7: bv1, b6: bv1, b5: bv1, b4: bv1,
      b3: bv1, b2: bv1, b1: bv1, b0: bv1)

  /** The bits of a 16-bit register. */
  function Of(c: bv16): (bits: Bits)
  {
    Bits(
      (if c & 0x8000 != 0 then 1 else 0), (if c & 0x4000 != 0 then 1 else 0), (if c & 0x2000 != 0 then 1 else 0), (if c & 0x1000 != 0 then 1 else 0),
      (if c & 0x0800 != 0 then 1 else 0), (if c & 0x0400 != 0 then 1 else 0), (if c & 0x0200 != 0 then 1 else 0), (if c & 0x0100 != 0 then 1 else 0),
      (if c & 0x0080 != 0 then 1 else 0), (if c & 0x0040 != 0 then 1 else 0), (if c & 0x0020 != 0 then 1 else 0), (if c & 0x0010 != 0 then 1 else 0),
      (if c & 0x0008 != 0 then 1 else 0), (if c & 0x0004 != 0 then 1 else 0), (if c & 0x0002 != 0 then 1 else 0), (if c & 0x0001 != 0 then 1 else 0))
  }

  function Xor(a: Bits, b: Bits): (r: Bits)
  {
    Bits(
      a.b15 ^ b.b15, a.b14 ^ b.b14, a.b13 ^ b.b13, a.b12 ^ b.b12,
      a.b11 ^ b.b11, a.b10 ^ b.b10, a.b9 ^ b.b9, a.b8 ^ b.b8,
      a.b7 ^ b.b7, a.b6 ^ b.b6, a.b5 ^ b.b5, a.b4 ^ b.b4,
      a.b3 ^ b.b3, a.b2 ^ b.b2, a.b1 ^ b.b1, a.b0 ^ b.b0)
  }

  /** One round of CRC-16/XMODEM: shift up, and flip bits 12, 5 and 0 when the top bit was set. */
  function Shift(c: Bits): (r: Bits)
  {
    Bits(
      c.b14, c.b13, c.b12, c.b11 ^ c.b15,
      c.b10, c.b9, c.b8, c.b7,
      c.b6, c.b5, c.b4 ^ c.b15, c.b3,
      c.b2, c.b1, c.b0, c.b15)
  }

  /** Shift up one place, dropping the top bit. */
  function Up1(c: Bits): (r: Bits)
  {
    Bits(
      c.b14, c.b13, c.b12, c.b11,
      c.b10, c.b9, c.b8, c.b7,
      c.b6, c.b5, c.b4, c.b3,
      c.b2, c.b1, c.b0, 0)
  }

  /** The low byte moved into the high byte. */
  function Up8(l: Bits): (r: Bits)
  {
    Bits(
      l.b7, l.b6, l.b5, l.b4,
      l.b3, l.b2, l.b1, l.b0,
      0, 0, 0, 0,
      0, 0, 0, 0)
  }

  function Rounds8(c: Bits): (r: Bits)
  {
    Shift(Shift(Shift(Shift(Shift(Shift(Shift(Shift(c))))))))
  }

  /** The high byte is clear. */
  predicate Low(l: Bits)
  {
    l.b15 == 0 && l.b14 == 0 && l.b13 == 0 && l.b12 == 0 && l.b11 == 0 && l.b10 == 0 && l.b9 == 0 && l.b8 == 0
  }

  /** A round of a sum whose second part has a clear top bit: that part only moves up. */
  lemma ShiftLowPart(a: Bits, y: Bits)
    requires y.b15 == 0
    ensures Shift(Xor(a, y)) == Xor(Shift(a), Up1(y))
  {
  }

  lemma Up1Eight(l: Bits)
    ensures Up1(Up1(Up1(Up1(Up1(Up1(Up1(Up1(l)))))))) == Up8(l)
  {
  }

  /**
   * Eight rounds of `h` XOR a low byte `l` are eight rounds of `h` alone,
   * XOR `l` moved into the high byte: while `l` climbs it never reaches the
   * top bit, so it never selects the polynomial.
   */
  lemma SplitLow(h: Bits, l: Bits)
    requires Low(l)
    ensures Rounds8(Xor(h, l)) == Xor(Rounds8(h), Up8(l))
  {
    var y1 := Up1(l); var y2 := Up1(y1); var y3 := Up1(y2); var y4 := Up1(y3);
    var y5 := Up1(y4); var y6 := Up1(y5); var y7 := Up1(y6);
    var a1 := Shift(h); var a2 := Shift(a1); var a3 := Shift(a2); var a4 := Shift(a3);
    var a5 := Shift(a4); var a6 := Shift(a5); var a7 := Shift(a6);
    ShiftLowPart(h, l); ShiftLowPart(a1, y1); ShiftLowPart(a2, y2); ShiftLowPart(a3, y3);
    ShiftLowPart(a4, y4); ShiftLowPart(a5, y5); ShiftLowPart(a6, y6); ShiftLowPart(a7, y7);
    Up1Eight(l);
  }

  lemma OfBits(z: bv16)
    ensures Of(z).b15 == (if z & 0x8000 != 0 then 1 else 0)
         && Of(z).b14 == (if z & 0x4000 != 0 then 1 else 0)
         && Of(z).b13 == (if z & 0x2000 != 0 then 1 else 0)
         && Of(z).b12 == (if z & 0x1000 != 0 then 1 else 0)
         && Of(z).b11 == (if z & 0x0800 != 0 then 1 else 0)
         && Of(z).b10 == (if z & 0x0400 != 0 then 1 else 0)
         && Of(z).b9 == (if z & 0x0200 != 0 then 1 else 0)
         && Of(z).b8 == (if z & 0x0100 != 0 then 1 else 0)
         && Of(z).b7 == (if z & 0x0080 != 0 then 1 else 0)
         && Of(z).b6 == (if z & 0x0040 != 0 then 1 else 0)
         && Of(z).b5 == (if z & 0x0020 != 0 then 1 else 0)
         && Of(z).b4 == (if z & 0x0010 != 0 then 1 else 0)
         && Of(z).b3 == (if z & 0x0008 != 0 then 1 else 0)
         && Of(z).b2 == (if z & 0x0004 != 0 then 1 else 0)
         && Of(z).b1 == (if z & 0x0002 != 0 then 1 else 0)
         && Of(z).b0 == (if z & 0x0001 != 0 then 1 else 0)
  {
  }

  lemma MaskXor(x: bv16, y: bv16)
    ensures ((x ^ y) & 0x8000 != 0) == ((x & 0x8000 != 0) != (y & 0x8000 != 0))
    ensures ((x ^ y) & 0x4000 != 0) == ((x & 0x4000 != 0) != (y & 0x4000 != 0))
    ensures ((x ^ y) & 0x2000 != 0) == ((x & 0x2000 != 0) != (y & 0x2000 != 0))
    ensures ((x ^ y) & 0x1000 != 0) == ((x & 0x1000 != 0) != (y & 0x1000 != 0))
    ensures ((x ^ y) & 0x0800 != 0) == ((x & 0x0800 != 0) != (y & 0x0800 != 0))
    ensures ((x ^ y) & 0x0400 != 0) == ((x & 0x0400 != 0) != (y & 0x0400 != 0))
    ensures ((x ^ y) & 0x0200 != 0) == ((x & 0x0200 != 0) != (y & 0x0200 != 0))
    ensures ((x ^ y) & 0x0100 != 0) == ((x & 0x0100 != 0) != (y & 0x0100 != 0))
    ensures ((x ^ y) & 0x0080 != 0) == ((x & 0x0080 != 0) != (y & 0x0080 != 0))
    ensures ((x ^ y) & 0x0040 != 0) == ((x & 0x0040 != 0) != (y & 0x0040 != 0))
    ensures ((x ^ y) & 0x0020 != 0) == ((x & 0x0020 != 0) != (y & 0x0020 != 0))
    ensures ((x ^ y) & 0x0010 != 0) == ((x & 0x0010 != 0) != (y & 0x0010 != 0))
    ensures ((x ^ y) & 0x0008 != 0) == ((x & 0x0008 != 0) != (y & 0x0008 != 0))
    ensures ((x ^ y) & 0x0004 != 0) == ((x & 0x0004 != 0) != (y & 0x0004 != 0))
    ensures ((x ^ y) & 0x0002 != 0) == ((x & 0x0002 != 0) != (y & 0x0002 != 0))
    ensures ((x ^ y) & 0x0001 != 0) == ((x & 0x0001 != 0) != (y & 0x0001 != 0))
  {
  }

  lemma XorByBits(a: Bits, b: Bits, c: Bits)
    requires c.b15 == (a.b15 ^ b.b15)
          && c.b14 == (a.b14 ^ b.b14)
          && c.b13 == (a.b13 ^ b.b13)
          && c.b12 == (a.b12 ^ b.b12)
          && c.b11 == (a.b11 ^ b.b11)
          && c.b10 == (a.b10 ^ b.b10)
          && c.b9 == (a.b9 ^ b.b9)
          && c.b8 == (a.b8 ^ b.b8)
          && c.b7 == (a.b7 ^ b.b7)
          && c.b6 == (a.b6 ^ b.b6)
          && c.b5 == (a.b5 ^ b.b5)
          && c.b4 == (a.b4 ^ b.b4)
          && c.b3 == (a.b3 ^ b.b3)
          && c.b2 == (a.b2 ^ b.b2)
          && c.b1 == (a.b1 ^ b.b1)
          && c.b0 == (a.b0 ^ b.b0)
    ensures c == Xor(a, b)
  {
  }

  /** The bits of an XOR are the XOR of the bits. */
  lemma OfXor(x: bv16, y: bv16)
    ensures Of(x ^ y) == Xor(Of(x), Of(y))
  {
    var z := x ^ y;
    OfBits(z); OfBits(x); OfBits(y); MaskXor(x, y);
    XorByBits(Of(x), Of(y), Of(z));
  }

  /** The low byte of `x` has a clear high byte, and shifting `x` up a byte moves it there. */
  lemma OfShiftByte(x: bv16)
    ensures Low(Of(x & 0xFF)) && Of(x << 8) == Up8(Of(x & 0xFF))
  {
  }

  /** Registers with the same bits are equal. */
  lemma OfInjective(x: bv16, y: bv16)
    requires Of(x) == Of(y)
    ensures x == y
  {
  }
}

/**
 * The MSB-first, non-reflected CRC-16 with initial value 0, for any
 * polynomial. The protocol uses two of them: poly 0x8005 (CRC-16/UMTS, also
 * called CRC-16/BUYPASS) and poly 0x1021 (CRC-16/XMODEM).
 */
module Crc16 {
  import opened Bytes
  import opened CrcRounds

  /** Poly 0x8005, init 0, no reflection: the variant the fixed command literals carry. */
  const Umts: bv16 := 0x8005
  /** Poly 0x1021, init 0, no reflection: the variant of the provisioning builders. */
  const Xmodem: bv16 := 0x1021

  /** n rounds of `Shift`. */
  function Shifts(poly: bv16, c: bv16, n: nat): (r: bv16)
  {
    if n == 0 then c else Shift(poly, Shifts(poly, c, n - 1))
  }

  /** Absorbing one byte: XOR it into the high half, then eight rounds. */
  function Feed(poly: bv16, crc: bv16, b: byte): (next: bv16)
  {
    Shifts(poly, crc ^ ((b as bv16) << 8), 8)
  }

  /** The CRC of a byte sequence, absorbed first byte first, starting from 0. */
  function Crc(poly: bv16, data: seq<byte>): (crc: bv16)
  {
    if |data| == 0 then 0 else Feed(poly, Crc(poly, data[..|data| - 1]), data[|data| - 1])
  }

  lemma CrcAppend(poly: bv16, data: seq<byte>, b: byte)
    ensures Crc(poly, data + [b]) == Feed(poly, Crc(poly, data), b)
  {
    assert (data + [b])[..|data|] == data;
  }

  lemma ShiftsUnfold(poly: bv16, c: bv16, n: nat)
    requires n > 0
    ensures Shifts(poly, c, n) == Shift(poly, Shifts(poly, c, n - 1))
  {
  }

  lemma ShiftsIsRounds8(poly: bv16, c: bv16)
    ensures Shifts(poly, c, 8) == Rounds8(poly, c)
  {
    ShiftsUnfold(poly, c, 1);
    ShiftsUnfold(poly, c, 2);
    ShiftsUnfold(poly, c, 3);
    ShiftsUnfold(poly, c, 4);
    ShiftsUnfold(poly, c, 5);
    ShiftsUnfold(poly, c, 6);
    ShiftsUnfold(poly, c, 7);
    ShiftsUnfold(poly, c, 8);
  }

  /**
   * One step of a concrete test vector: if `data` has CRC `prev`, then
   * `data + [b]` has the CRC that absorbing `b` into `prev` gives.
   */
  lemma CrcStep(poly: bv16, data: seq<byte>, b: byte, prev: bv16, next: bv16)
    requires Crc(poly, data) == prev
    requires Rounds8(poly, prev ^ ((b as bv16) << 8)) == next
    ensures Crc(poly, data + [b]) == next
  {
    CrcAppend(poly, data, b);
    ShiftsIsRounds8(poly, prev ^ ((b as bv16) << 8));
  }
}

/**
 * The table-driven byte update of CRC-16/XMODEM equals the bitwise one. The
 * proofs go through `XmodemBits`; every bit-vector expression is handed to the
 * next lemma as a named parameter, which keeps each proof small.
 */
module CrcTable {
  import opened Bytes
  import opened CrcRounds
  import opened Crc16
  import B = XmodemBits

  lemma OfShift(c: bv16)
    ensures B.Of(Shift(Xmodem, c)) == B.Shift(B.Of(c))
  {
  }

  lemma OfRounds8(c: bv16)
    ensures B.Of(Rounds8(Xmodem, c)) == B.Rounds8(B.Of(c))
  {
    var c1 := Shift(Xmodem, c); var c2 := Shift(Xmodem, c1); var c3 := Shift(Xmodem, c2);
    var c4 := Shift(Xmodem, c3); var c5 := Shift(Xmodem, c4); var c6 := Shift(Xmodem, c5);
    var c7 := Shift(Xmodem, c6);
    OfShift(c); OfShift(c1); OfShift(c2); OfShift(c3);
    OfShift(c4); OfShift(c5); OfShift(c6); OfShift(c7);
  }

  lemma OfShifts8(c: bv16)
    ensures B.Of(Shifts(Xmodem, c, 8)) == B.Rounds8(B.Of(c))
  {
    ShiftsIsRounds8(Xmodem, c);
    OfRounds8(c);
  }

  /**
   * XOR-ing byte `b` into `crc`: bit by bit, the register is the table index
   * in the high byte plus the old low byte, and `crc << 8` is that low byte
   * moved up.
   */
  lemma SplitRegister(crc: bv16, b: bv16, x: bv16, hi: bv16, lo: bv16, c8: bv16)
    requires b < 0x100
    requires x == crc ^ (b << 8) && hi == ((b ^ (crc >> 8)) & 0xFF) << 8
    requires lo == crc & 0xFF && c8 == crc << 8
    ensures B.Of(x) == B.Xor(B.Of(hi), B.Of(lo)) && B.Low(B.Of(lo)) && B.Of(c8) == B.Up8(B.Of(lo))
  {
    assert x == hi ^ lo;
    B.OfXor(hi, lo);
    B.OfShiftByte(crc);
  }

  /** Eight rounds of a high part plus a low byte are eight rounds of the high part, plus the low byte moved up. */
  lemma TableShifts(x: bv16, hi: bv16, lo: bv16, c8: bv16)
    requires B.Of(x) == B.Xor(B.Of(hi), B.Of(lo)) && B.Low(B.Of(lo)) && B.Of(c8) == B.Up8(B.Of(lo))
    ensures Shifts(Xmodem, x, 8) == c8 ^ Shifts(Xmodem, hi, 8)
  {
    OfShifts8(x);
    OfShifts8(hi);
    B.SplitLow(B.Of(hi), B.Of(lo));
    FromBits(Shifts(Xmodem, x, 8), c8, Shifts(Xmodem, hi, 8));
  }

  lemma FromBits(r: bv16, c8: bv16, t: bv16)
    requires B.Of(r) == B.Xor(B.Of(t), B.Of(c8))
    ensures r == c8 ^ t
  {
    B.OfXor(c8, t);
    B.OfInjective(r, c8 ^ t);
  }

  lemma TableShiftsOfByte(crc: bv16, b: bv16, x: bv16, hi: bv16, lo: bv16, c8: bv16)
    requires b < 0x100
    requires x == crc ^ (b << 8) && hi == ((b ^ (crc >> 8)) & 0xFF) << 8
    requires lo == crc & 0xFF && c8 == crc << 8
    ensures Shifts(Xmodem, x, 8) == c8 ^ Shifts(Xmodem, hi, 8)
  {
    SplitRegister(crc, b, x, hi, lo, c8);
    TableShifts(x, hi, lo, c8);
  }

  /**
   * Absorbing byte `b` bit by bit equals the table step: `crc` shifted up a
   * byte, XOR the table entry for index `(b ^ (crc >> 8)) & 0xFF`, which is
   * eight rounds applied to the index in the high byte.
   */
  lemma TableStep(crc: bv16, b: byte, index: bv16, entry: bv16)
    requires index == ((b as bv16) ^ (crc >> 8)) & 0xFF
    requires entry == Shifts(Xmodem, index << 8, 8)
    ensures Feed(Xmodem, crc, b) == (crc << 8) ^ entry
  {
    TableStepWide(crc, b as bv16, index, entry);
  }

  /**
   * One table-driven step, as `crc16_short` writes it: shift the register up
   * a byte and XOR the entry for index `(b ^ (crc >> 8)) & 0xFF`, the entry
   * being eight rounds applied to the index in the high byte.
   */
  function TableFeed(crc: bv16, b: byte): (next: bv16)
  {
    (crc << 8) ^ TableEntry(TableIndex(crc, b))
  }

  /** The table index `(b ^ (crc >> 8)) & 0xFF`. */
  function TableIndex(crc: bv16, b: byte): (index: bv16)
  {
    ((b as bv16) ^ (crc >> 8)) & 0xFF
  }

  /** The table entry for an index: eight rounds applied to the index in the high byte. */
  function TableEntry(index: bv16): (entry: bv16)
  {
    Shifts(Xmodem, index << 8, 8)
  }

  /** The table-driven CRC of a byte sequence, absorbed first byte first, starting from 0. */
  function TableCrc(data: seq<byte>): (crc: bv16)
  {
    if |data| == 0 then 0 else TableFeed(TableCrc(data[..|data| - 1]), data[|data| - 1])
  }

  /** The table-driven CRC is CRC-16/XMODEM computed bit by bit, on every input. */
  lemma {:induction false} TableCrcIsXmodem(data: seq<byte>)
    ensures TableCrc(data) == Crc(Xmodem, data)
  {
    if |data| > 0 {
      var init, b := data[..|data| - 1], data[|data| - 1];
      TableCrcIsXmodem(init);
      TableFeedIsFeed(TableCrc(init), b);
    }
  }

  /** One table-driven step absorbs the byte as the bitwise CRC does. */
  lemma TableFeedIsFeed(crc: bv16, b: byte)
    ensures TableFeed(crc, b) == Feed(Xmodem, crc, b)
  {
    var index := TableIndex(crc, b);
    var entry := TableEntry(index);
    TableStepAt(crc, b, index, entry);
    TableFeedAt(crc, b, index, entry);
  }

  /** `TableStep` for the index and entry `TableFeed` uses. */
  lemma TableStepAt(crc: bv16, b: byte, index: bv16, entry: bv16)
    requires index == TableIndex(crc, b) && entry == TableEntry(index)
    ensures (crc << 8) ^ entry == Feed(Xmodem, crc, b)
  {
    TableStep(crc, b, index, entry);
  }

  lemma TableFeedAt(crc: bv16, b: byte, index: bv16, entry: bv16)
    requires index == TableIndex(crc, b) && entry == TableEntry(index)
    ensures TableFeed(crc, b) == (crc << 8) ^ entry
  {
  }

  /** `TableStep` with the byte already widened to 16 bits. */
  lemma TableStepWide(crc: bv16, b: bv16, index: bv16, entry: bv16)
    requires b < 0x100
    requires index == (b ^ (crc >> 8)) & 0xFF
    requires entry == Shifts(Xmodem, index << 8, 8)
    ensures Shifts(Xmodem, crc ^ (b << 8), 8) == (crc << 8) ^ entry
  {
    TableShiftsOfByte(crc, b, crc ^ (b << 8), index << 8, crc & 0xFF, crc << 8);
  }
}
