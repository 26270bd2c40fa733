/**
 * The CRC and packet helpers of the integration's `utils` module: the
 * table-driven CRC-16/XMODEM whose table entries are computed on demand, its
 * two byte orders, the generic packet merge, and the two Wi-Fi provisioning
 * builders. Text arguments arrive here already encoded as bytes.
 */
module Utils {
  import opened Wrappers
  import opened Bytes
  import opened CrcRounds
  import opened Crc16
  import opened Frame
  import CrcTable

  /**
   * The table entry for `i`: eight rounds of poly 0x1021 applied to `i << 8`.
   * The 16-bit register stands for the unbounded integer of the source, whose
   * bits above bit 15 never move down into the result.
   */
  method CrcOfByte(i: byte) returns (r: bv16)
    ensures r == Shifts(Xmodem, (i as bv16) << 8, 8)
  {
    var i2: bv16 := (i as bv16) << 8;
    ghost var start := i2;
    for k := 0 to 8
      invariant i2 == Shifts(Xmodem, start, k)
    {
      ShiftsUnfold(Xmodem, start, k + 1);
      i2 := Round(Xmodem, i2);
    }
    r := i2;
  }

  /** One pass of the loop of `crc16_short`: look the entry up and shift the register a byte. */
  method TableRound(crc: bv16, b: byte) returns (next: bv16)
    ensures next == CrcTable.TableFeed(crc, b)
    ensures next == Feed(Xmodem, crc, b)
  {
    var index: bv16 := ((b as bv16) ^ (crc >> 8)) & 0xFF;
    var entry := CrcOfByte(index as bv8);
    assert (index as bv8) as bv16 == index;
    next := (crc << 8) ^ entry;
    CrcTable.TableStepAt(crc, b, index, entry);
    CrcTable.TableFeedAt(crc, b, index, entry);
  }

  /** The table-driven CRC equals the bitwise CRC-16/XMODEM of every byte sequence. */
  method Crc16Short(data: seq<byte>) returns (crc: bv16)
    ensures crc == CrcTable.TableCrc(data)
    ensures crc == Crc(Xmodem, data)
  {
    crc := 0;
    for k := 0 to |data|
      invariant crc == CrcTable.TableCrc(data[..k])
      invariant crc == Crc(Xmodem, data[..k])
    {
      crc := TableRound(crc, data[k]);
      CrcAppend(Xmodem, data[..k], data[k]);
      assert data[..k + 1] == data[..k] + [data[k]];
    }
    assert data[..|data|] == data;
  }

  /** The CRC high byte first; read back big-endian it is the CRC again. */
  method Crc16Bytes(data: seq<byte>) returns (r: seq<byte>)
    ensures r == CrcBytes(Crc(Xmodem, data))
    ensures U16(r[0], r[1]) == Crc(Xmodem, data) as int
  {
    var crc := Crc16Short(data);
    r := [(crc >> 8) as bv8, (crc & 0xFF) as bv8];
    CrcBytesRoundTrip(crc);
  }

  /** The same two bytes, low byte first. */
  method Crc16BytesLe(data: seq<byte>) returns (r: seq<byte>)
    ensures |r| == 2 && r[0] == CrcBytes(Crc(Xmodem, data))[1] && r[1] == CrcBytes(Crc(Xmodem, data))[0]
    ensures U16(r[1], r[0]) == Crc(Xmodem, data) as int
  {
    var crc := Crc16Short(data);
    r := [(crc & 0xFF) as bv8, (crc >> 8) as bv8];
    CrcBytesRoundTrip(crc);
  }

  /** The parts joined in order. */
  function Concat(parts: seq<seq<byte>>): (joined: seq<byte>)
  {
    if |parts| == 0 then [] else Concat(parts[..|parts| - 1]) + parts[|parts| - 1]
  }

  /**
   * `head`, then every part in order, then the CRC-16/XMODEM of all of that
   * high byte first, then 0x7D; the length byte is not touched.
   */
  method BuildCommandPacket(head: seq<byte>, parts: seq<seq<byte>>) returns (packet: seq<byte>)
    ensures Sealed(Xmodem, packet, head + Concat(parts))
    ensures |packet| == |head| + |Concat(parts)| + 3 && packet[..|head|] == head
    ensures CarriesCrc(Xmodem, packet) && packet[|packet| - 1] == Tail
  {
    var merged := head;
    for k := 0 to |parts|
      invariant merged == head + Concat(parts[..k])
    {
      assert parts[..k + 1][..k] == parts[..k];
      merged := merged + parts[k];
    }
    assert parts[..|parts|] == parts;
    var crc := Crc16Bytes(merged);
    packet := merged + crc + [Tail];
    SealedCarriesCrc(Xmodem, packet, merged);
  }

  /** The fixed start of the SSID submission, id 74 60, with 0x0C where the length byte goes. */
  const SsidHead: seq<byte> := [0x7B, 0x41, 0x00, 0x0C, 0x74, 0x60, 0x01]

  /**
   * Bytes 4 onwards of an SSID submission: id and flag, 22 zero bytes, the
   * password length modulo 256, the password zero-padded to 64 bytes, the
   * SSID zero-padded to 33 bytes, 33 zero bytes.
   */
  predicate SsidFields(s: seq<byte>, ssid: seq<byte>, password: seq<byte>)
  {
    var p, q := |password|, |ssid|;
    var pw, sw := Padded(p, 64), Padded(q, 33);
    && |s| >= 63 + pw + sw
    && s[4..7] == SsidHead[4..]
    && ZerosAt(s, 7, 29) && s[29] == (p % 256) as bv8
    && s[30..30 + p] == password && ZerosAt(s, 30 + p, 30 + pw)
    && s[30 + pw..30 + pw + q] == ssid && ZerosAt(s, 30 + pw + q, 63 + pw + sw)
  }

  /**
   * The SSID submission: its fields, byte 3 patched to the content length
   * minus one, then the CRC-16/XMODEM of the patched content and 0x7D. A
   * password or SSID longer than its field is kept whole and shifts what
   * follows it.
   */
  method ConstructSubmitSsid(ssid: seq<byte>, password: seq<byte>) returns (packet: seq<byte>)
    ensures |packet| == 66 + Padded(|password|, 64) + Padded(|ssid|, 33)
    ensures Framed(packet) && CarriesCrc(Xmodem, packet) && SsidFields(packet, ssid, password)
    ensures |password| <= 64 && |ssid| <= 33 ==> |packet| == 163 && packet[3] == 0x9F
  {
    var pwdLen := (|password| % 256) as bv8;
    var content := SsidHead + Zeros(22) + [pwdLen] + password + Padding(password, 64)
      + ssid + Padding(ssid, 33) + Zeros(33);
    ghost var unpatched := content;
    content := content[3 := LengthByte(|content|)];
    var crc := Crc16Bytes(content);
    packet := content + crc + [Tail];
    SsidPacket(ssid, password, unpatched, content, packet);
  }

  /** The SSID submission's layout, from the way its content is put together, patched and sealed. */
  lemma SsidPacket(ssid: seq<byte>, password: seq<byte>, unpatched: seq<byte>, content: seq<byte>, packet: seq<byte>)
    requires unpatched == SsidHead + Zeros(22) + [(|password| % 256) as bv8] + password + Padding(password, 64)
      + ssid + Padding(ssid, 33) + Zeros(33)
    requires content == unpatched[3 := LengthByte(|unpatched|)] && Sealed(Xmodem, packet, content)
    ensures |packet| == 66 + Padded(|password|, 64) + Padded(|ssid|, 33)
    ensures Framed(packet) && CarriesCrc(Xmodem, packet) && SsidFields(packet, ssid, password)
    ensures |password| <= 64 && |ssid| <= 33 ==> |packet| == 163 && packet[3] == 0x9F
  {
    SsidLayout(unpatched, (|password| % 256) as bv8, password, Padding(password, 64), ssid, Padding(ssid, 33));
    PatchedSealed(Xmodem, unpatched, content, packet);
    assert packet[..3] == unpatched[..3];
    SsidFieldsKept(unpatched, packet, ssid, password);
    if |password| <= 64 && |ssid| <= 33 {
      StandardLength(packet);
    }
  }

  /** A frame of 163 bytes has length byte 0x9F. */
  lemma StandardLength(packet: seq<byte>)
    requires |packet| == 163 && Framed(packet)
    ensures packet[3] == 0x9F
  {
  }

  /** Changing nothing from byte 4 up to the end of the fields keeps them. */
  lemma SsidFieldsKept(s: seq<byte>, t: seq<byte>, ssid: seq<byte>, password: seq<byte>)
    requires SsidFields(s, ssid, password) && |t| >= |s|
    requires forall i :: 4 <= i < |s| ==> t[i] == s[i]
    ensures SsidFields(t, ssid, password)
  {
    var p, q := |password|, |ssid|;
    var pw, sw := Padded(p, 64), Padded(q, 33);
    assert t[4..7] == s[4..7];
    assert t[30..30 + p] == s[30..30 + p];
    assert t[30 + pw..30 + pw + q] == s[30 + pw..30 + pw + q];
  }

  /** Where each field of the SSID submission lands, before the length byte is patched. */
  lemma SsidLayout(content: seq<byte>, n: byte, pwd: seq<byte>, pp: seq<byte>, ssid: seq<byte>, sp: seq<byte>)
    requires ZerosAt(pp, 0, |pp|) && ZerosAt(sp, 0, |sp|)
    requires |pwd| + |pp| == Padded(|pwd|, 64) && |ssid| + |sp| == Padded(|ssid|, 33) && n == (|pwd| % 256) as bv8
    requires content == SsidHead + Zeros(22) + [n] + pwd + pp + ssid + sp + Zeros(33)
    ensures |content| == 63 + |pwd| + |pp| + |ssid| + |sp| && content[..7] == SsidHead
    ensures SsidFields(content, ssid, pwd)
  {
    SsidPieces(content, n, pwd, pp, ssid, sp);
  }

  lemma SsidPieces(content: seq<byte>, n: byte, pwd: seq<byte>, pp: seq<byte>, ssid: seq<byte>, sp: seq<byte>)
    requires ZerosAt(pp, 0, |pp|) && ZerosAt(sp, 0, |sp|)
    requires content == SsidHead + Zeros(22) + [n] + pwd + pp + ssid + sp + Zeros(33)
    ensures var a, b := 30 + |pwd| + |pp|, 30 + |pwd| + |pp| + |ssid|;
      && |content| == b + |sp| + 33
      && content[..7] == SsidHead && ZerosAt(content, 7, 29) && content[29] == n
      && content[30..30 + |pwd|] == pwd && ZerosAt(content, 30 + |pwd|, a)
      && content[a..b] == ssid && ZerosAt(content, b, |content|)
  {
    SsidFront(content, n, pwd, pp, ssid, sp);
    SsidPassword(content, n, pwd, pp, ssid, sp);
    SsidRest(content, n, pwd, pp, ssid, sp);
  }

  /** The head, the 22 zero bytes and the password length. */
  lemma SsidFront(content: seq<byte>, n: byte, pwd: seq<byte>, pp: seq<byte>, ssid: seq<byte>, sp: seq<byte>)
    requires ZerosAt(pp, 0, |pp|) && ZerosAt(sp, 0, |sp|)
    requires content == SsidHead + Zeros(22) + [n] + pwd + pp + ssid + sp + Zeros(33)
    ensures content[..7] == SsidHead && ZerosAt(content, 7, 29) && content[29] == n
  {
    var c0 := SsidHead + Zeros(22);
    var c1 := c0 + [n];
    var c2 := c1 + pwd;
    var c3 := c2 + pp;
    var c4 := c3 + ssid;
    var c5 := c4 + sp;
    assert content == c5 + Zeros(33);
    PrefixSlice(c5, Zeros(33), 0, 30);
    PrefixSlice(c4, sp, 0, 30);
    PrefixSlice(c3, ssid, 0, 30);
    PrefixSlice(c2, pp, 0, 30);
    PrefixSlice(c1, pwd, 0, 30);
    assert content[..30] == c1;
    assert content[..7] == c1[..7] == c0[..7];
    assert content[7..29] == c1[7..29] == c0[7..29];
    PrefixSlice(SsidHead, Zeros(22), 0, 7);
    SuffixSlice(SsidHead, Zeros(22), 0, 22);
    ZerosIn(content, 7, 29, Zeros(22));
    assert content[29] == c1[29];
  }

  /** The password and its zero padding. */
  lemma SsidPassword(content: seq<byte>, n: byte, pwd: seq<byte>, pp: seq<byte>, ssid: seq<byte>, sp: seq<byte>)
    requires ZerosAt(pp, 0, |pp|) && ZerosAt(sp, 0, |sp|)
    requires content == SsidHead + Zeros(22) + [n] + pwd + pp + ssid + sp + Zeros(33)
    ensures content[30..30 + |pwd|] == pwd && ZerosAt(content, 30 + |pwd|, 30 + |pwd| + |pp|)
  {
    var p, a := |pwd|, 30 + |pwd| + |pp|;
    var c1 := SsidHead + Zeros(22) + [n];
    var c2 := c1 + pwd;
    var c3 := c2 + pp;
    var c4 := c3 + ssid;
    var c5 := c4 + sp;
    assert content == c5 + Zeros(33);
    PrefixSlice(c5, Zeros(33), 30, a);
    PrefixSlice(c4, sp, 30, a);
    PrefixSlice(c3, ssid, 30, a);
    SuffixSlice(c1, pwd, 0, p);
    SuffixSlice(c2, pp, 0, |pp|);
    assert content[30..30 + p] == content[30..a][..p];
    assert content[30 + p..a] == content[30..a][p..];
    ZerosIn(content, 30 + p, a, pp);
  }

  /** The SSID, its zero padding and the 33 trailing zero bytes. */
  lemma SsidRest(content: seq<byte>, n: byte, pwd: seq<byte>, pp: seq<byte>, ssid: seq<byte>, sp: seq<byte>)
    requires ZerosAt(pp, 0, |pp|) && ZerosAt(sp, 0, |sp|)
    requires content == SsidHead + Zeros(22) + [n] + pwd + pp + ssid + sp + Zeros(33)
    ensures var a, b := 30 + |pwd| + |pp|, 30 + |pwd| + |pp| + |ssid|;
      && |content| == b + |sp| + 33
      && content[a..b] == ssid && ZerosAt(content, b, |content|)
  {
    var a, b, r := 30 + |pwd| + |pp|, 30 + |pwd| + |pp| + |ssid|, |sp|;
    var c3 := SsidHead + Zeros(22) + [n] + pwd + pp;
    var c4 := c3 + ssid;
    var c5 := c4 + sp;
    assert content == c5 + Zeros(33);
    PrefixSlice(c5, Zeros(33), a, b);
    PrefixSlice(c4, sp, a, b);
    SuffixSlice(c3, ssid, 0, |ssid|);
    PrefixSlice(c5, Zeros(33), b, b + r);
    SuffixSlice(c4, sp, 0, r);
    SuffixSlice(c5, Zeros(33), 0, 33);
    ZerosIn(content, b, b + r, sp);
    ZerosIn(content, b + r, |content|, Zeros(33));
  }

  /** A slice equal to a run of zeros makes zeros in the whole. */
  lemma ZerosIn(s: seq<byte>, x: nat, y: nat, z: seq<byte>)
    requires x <= y <= |s| && s[x..y] == z && ZerosAt(z, 0, |z|)
    ensures ZerosAt(s, x, y)
  {
    forall i | x <= i < y
      ensures s[i] == 0
    {
      assert s[i] == z[i - x];
    }
  }

  /** The fixed start of the AES key submission, id 20 B0, with 0x0C where the length byte goes. */
  const AesHead: seq<byte> := [0x7B, 0x41, 0x00, 0x0C, 0x20, 0xB0, 0x01]

  /** `bytes([n])` with n above 255. */
  datatype BuildError = ByteOutOfRange

  /**
   * Bytes 4 onwards of an AES key submission: id and flag, then key, IV and
   * server, preceded by the bytes `kl`, `il` and `sl`.
   */
  predicate AesFields(s: seq<byte>, kl: byte, key: seq<byte>, il: byte, iv: seq<byte>, sl: byte, server: seq<byte>)
  {
    var k, i, v := |key|, |iv|, |server|;
    && |s| >= 10 + k + i + v
    && s[4..7] == AesHead[4..]
    && s[7] == kl && s[8..8 + k] == key
    && s[8 + k] == il && s[9 + k..9 + k + i] == iv
    && s[9 + k + i] == sl && s[10 + k + i..10 + k + i + v] == server
  }

  /**
   * The AES key submission: key, IV and server after the head, each preceded
   * by its length in one byte, byte 3 patched to the content length minus
   * one, then the CRC-16/XMODEM of the patched content and 0x7D. A field of
   * 256 bytes or more has a length that does not fit its byte, and nothing
   * is built.
   */
  method ConstructSubmitAesKey(key: seq<byte>, iv: seq<byte>, server: seq<byte>) returns (r: Result<seq<byte>, BuildError>)
    ensures r.Err? <==> |key| > 255 || |iv| > 255 || |server| > 255
    ensures r.Ok? ==> |r.value| == 13 + |key| + |iv| + |server| && Framed(r.value) && CarriesCrc(Xmodem, r.value)
    ensures r.Ok? ==> AesFields(r.value, |key| as bv8, key, |iv| as bv8, iv, |server| as bv8, server)
  {
    if |key| > 255 || |iv| > 255 || |server| > 255 {
      return Err(ByteOutOfRange);
    }
    var payload := [|key| as bv8] + key + [|iv| as bv8] + iv + [|server| as bv8] + server;
    var content := AesHead + payload;
    ghost var unpatched := content;
    content := content[3 := LengthByte(|content|)];
    var crc := Crc16Bytes(content);
    var packet := content + crc + [Tail];
    AesPacket(|key| as bv8, key, |iv| as bv8, iv, |server| as bv8, server, unpatched, content, packet);
    r := Ok(packet);
  }

  /** The AES key submission's layout, from the way its content is put together, patched and sealed. */
  lemma AesPacket(kl: byte, key: seq<byte>, il: byte, iv: seq<byte>, sl: byte, server: seq<byte>,
                  unpatched: seq<byte>, content: seq<byte>, packet: seq<byte>)
    requires unpatched == AesHead + ([kl] + key + [il] + iv + [sl] + server)
    requires content == unpatched[3 := LengthByte(|unpatched|)] && Sealed(Xmodem, packet, content)
    ensures |packet| == 13 + |key| + |iv| + |server|
    ensures Framed(packet) && CarriesCrc(Xmodem, packet) && AesFields(packet, kl, key, il, iv, sl, server)
  {
    AesPieces(AesHead, unpatched, kl, key, il, iv, sl, server);
    assert unpatched[4..7] == AesHead[4..];
    PatchedSealed(Xmodem, unpatched, content, packet);
    assert packet[..3] == unpatched[..3];
    AesFieldsKept(unpatched, packet, kl, key, il, iv, sl, server);
  }

  /** Where each field of the AES key submission lands, before the length byte is patched. */
  lemma AesPieces(head: seq<byte>, content: seq<byte>, kl: byte, key: seq<byte>, il: byte, iv: seq<byte>, sl: byte, server: seq<byte>)
    requires |head| == 7 && content == head + ([kl] + key + [il] + iv + [sl] + server)
    ensures var k, i, v := |key|, |iv|, |server|;
      && |content| == 10 + k + i + v && content[..7] == head
      && content[7] == kl && content[8..8 + k] == key
      && content[8 + k] == il && content[9 + k..9 + k + i] == iv
      && content[9 + k + i] == sl && content[10 + k + i..10 + k + i + v] == server
  {
    var k, i, v := |key|, |iv|, |server|;
    var l2 := [kl] + key;
    var l3 := l2 + [il];
    var l4 := l3 + iv;
    var l5 := l4 + [sl];
    var payload := l5 + server;
    assert content == head + payload;
    PrefixSlice(head, payload, 0, 7);
    SuffixSlice(head, payload, 1, 1 + k);
    PrefixSlice(l5, server, 1, 1 + k);
    PrefixSlice(l4, [sl], 1, 1 + k);
    PrefixSlice(l3, iv, 1, 1 + k);
    PrefixSlice(l2, [il], 1, 1 + k);
    SuffixSlice([kl], key, 0, k);
    SuffixSlice(head, payload, 2 + k, 2 + k + i);
    PrefixSlice(l5, server, 2 + k, 2 + k + i);
    PrefixSlice(l4, [sl], 2 + k, 2 + k + i);
    SuffixSlice(l3, iv, 0, i);
    SuffixSlice(head, payload, 3 + k + i, 3 + k + i + v);
    SuffixSlice(l5, server, 0, v);
  }

  /** A slice inside the first part of a concatenation is a slice of that part. */
  lemma PrefixSlice(a: seq<byte>, b: seq<byte>, x: nat, y: nat)
    requires x <= y <= |a|
    ensures (a + b)[x..y] == a[x..y]
  {
  }

  /** A slice inside the second part of a concatenation is a slice of that part. */
  lemma SuffixSlice(a: seq<byte>, b: seq<byte>, x: nat, y: nat)
    requires x <= y <= |b|
    ensures (a + b)[|a| + x..|a| + y] == b[x..y]
  {
  }

  /** Changing nothing from byte 4 up to the end of the fields keeps them. */
  lemma AesFieldsKept(s: seq<byte>, t: seq<byte>, kl: byte, key: seq<byte>, il: byte, iv: seq<byte>, sl: byte, server: seq<byte>)
    requires AesFields(s, kl, key, il, iv, sl, server) && |t| >= |s|
    requires forall i :: 4 <= i < |s| ==> t[i] == s[i]
    ensures AesFields(t, kl, key, il, iv, sl, server)
  {
    var k, i, v := |key|, |iv|, |server|;
    assert t[4..7] == s[4..7];
    assert t[8..8 + k] == s[8..8 + k];
    assert t[9 + k..9 + k + i] == s[9 + k..9 + k + i];
    assert t[10 + k + i..10 + k + i + v] == s[10 + k + i..10 + k + i + v];
  }
}
