/**
 * The fixed command frames the integration sends as they are, and what can be
 * proved about them by computation: every one is framed, carries its command
 * id at bytes 4..5, and (all but one) ends with the CRC-16/UMTS of the bytes
 * before the CRC.
 */
module Commands {
  import opened Bytes
  import opened Crc16
  import opened CrcRounds
  import opened Frame

  /** The realtime reading request, id 40 44. */
  const GetRealtime: seq<byte> := [0x7B, 0x41, 0x00, 0x07, 0x40, 0x44, 0x02, 0x00, 0xFC, 0x3E, 0x7D]

  /** The keep-alive, id 24 01. */
  const Heartbeat: seq<byte> := [0x7B, 0x41, 0x00, 0x06, 0x24, 0x01, 0x01, 0x78, 0x22, 0x7D]

  /** The sound status request, id 26 23. */
  const GetSoundStatus: seq<byte> := [0x7B, 0x41, 0x00, 0x07, 0x26, 0x23, 0x01, 0x00, 0x09, 0xC0, 0x7D]

  /** The alarm sound off, id 26 43, flag 0 at index 9. */
  const SetSoundOff: seq<byte> := [0x7B, 0x41, 0x00, 0x09, 0x26, 0x43, 0x01, 0x00, 0x00, 0x00, 0xAB, 0x63, 0x7D]

  /** The alarm sound on, id 26 43, flag 1 at index 9. */
  const SetSoundOn: seq<byte> := [0x7B, 0x41, 0x00, 0x09, 0x26, 0x43, 0x01, 0x00, 0x00, 0x01, 0x2B, 0x66, 0x7D]

  /** The settings request, id 40 43. */
  const GetSettings: seq<byte> := [0x7B, 0x41, 0x00, 0x09, 0x40, 0x43, 0x04, 0x00, 0x60, 0x06, 0xEF, 0x17, 0x7D]

  /** The temperature unit request, id 20 6E. */
  const GetTempUnit: seq<byte> := [0x7B, 0x41, 0x00, 0x07, 0x20, 0x6E, 0x02, 0x06, 0x7E, 0x30, 0x7D]

  /** The unit set to Celsius, id 22 32, flag 0 at index 8. */
  const SetTempUnitC: seq<byte> := [0x7B, 0x41, 0x00, 0x08, 0x22, 0x32, 0x02, 0x06, 0x00, 0xA9, 0xE3, 0x7D]

  /** The unit set to Fahrenheit, id 22 32, flag 1 at index 8. */
  const SetTempUnitF: seq<byte> := [0x7B, 0x41, 0x00, 0x08, 0x22, 0x32, 0x02, 0x06, 0x01, 0x29, 0xE6, 0x7D]

  /** Every literal starts `7B 41 00`, ends with 0x7D, and has total length minus four at byte 3. */
  lemma AllFramed()
    ensures Framed(GetRealtime) && Framed(Heartbeat) && Framed(GetSoundStatus)
    ensures Framed(SetSoundOff) && Framed(SetSoundOn) && Framed(GetSettings)
    ensures Framed(GetTempUnit) && Framed(SetTempUnitC) && Framed(SetTempUnitF)
  {
  }

  /** The command ids at bytes 4..5. */
  lemma CommandIds()
    ensures CommandId(GetRealtime) == 0x4044 && CommandId(Heartbeat) == 0x2401
    ensures CommandId(GetSoundStatus) == 0x2623
    ensures CommandId(SetSoundOff) == 0x2643 && CommandId(SetSoundOn) == 0x2643
    ensures CommandId(GetSettings) == 0x4043 && CommandId(GetTempUnit) == 0x206E
    ensures CommandId(SetTempUnitC) == 0x2232 && CommandId(SetTempUnitF) == 0x2232
  {
  }

  /** The CRC of the common start `7B 41 00`. */
  lemma HeadCrc(poly: bv16)
    requires poly == Umts || poly == Xmodem
    ensures Crc(poly, Head) == if poly == Umts then 0x0059 else 0x1604
  {
    var h := Head;
    CrcStep(poly, h[..0], h[0], 0, if poly == Umts then 0x011A else 0xCFFC);
    assert h[..1] == h[..0] + [h[0]];
    CrcStep(poly, h[..1], h[1], if poly == Umts then 0x011A else 0xCFFC, if poly == Umts then 0x9B83 else 0x8C46);
    assert h[..2] == h[..1] + [h[1]];
    CrcStep(poly, h[..2], h[2], if poly == Umts then 0x9B83 else 0x8C46, if poly == Umts then 0x0059 else 0x1604);
    assert h[..3] == h[..2] + [h[2]];
    assert h[..3] == h;
  }

  /** The CRC-16/UMTS of `GetRealtime` up to its CRC bytes, one absorbed byte at a time. */
  lemma GetRealtimeCrcUmts()
    ensures Crc(Umts, GetRealtime[..8]) == 0xFC3E
  {
    var s := GetRealtime;
    HeadCrc(Umts);
    assert s[..3] == Head;
    CrcStep(Umts, s[..3], 0x07, 0x0059, 0xD911);
    assert s[..4] == s[..3] + [0x07];
    CrcStep(Umts, s[..4], 0x40, 0xD911, 0x1256);
    assert s[..5] == s[..4] + [0x40];
    CrcStep(Umts, s[..5], 0x44, 0x1256, 0x57F4);
    assert s[..6] == s[..5] + [0x44];
    CrcStep(Umts, s[..6], 0x02, 0x57F4, 0xF5FE);
    assert s[..7] == s[..6] + [0x02];
    CrcStep(Umts, s[..7], 0x00, 0xF5FE, 0xFC3E);
    assert s[..8] == s[..7] + [0x00];
  }

  /** The CRC-16/UMTS of `Heartbeat` up to its CRC bytes, one absorbed byte at a time. */
  lemma HeartbeatCrcUmts()
    ensures Crc(Umts, Heartbeat[..7]) == 0x7822
  {
    var s := Heartbeat;
    HeadCrc(Umts);
    assert s[..3] == Head;
    CrcStep(Umts, s[..3], 0x06, 0x0059, 0x5914);
    assert s[..4] == s[..3] + [0x06];
    CrcStep(Umts, s[..4], 0x24, 0x5914, 0x150E);
    assert s[..5] == s[..4] + [0x24];
    CrcStep(Umts, s[..5], 0x01, 0x150E, 0x0E78);
    assert s[..6] == s[..5] + [0x01];
    CrcStep(Umts, s[..6], 0x01, 0x0E78, 0x7822);
    assert s[..7] == s[..6] + [0x01];
  }

  /** The CRC-16/UMTS of `GetSoundStatus` up to its CRC bytes, one absorbed byte at a time. */
  lemma GetSoundStatusCrcUmts()
    ensures Crc(Umts, GetSoundStatus[..8]) == 0x09C0
  {
    var s := GetSoundStatus;
    HeadCrc(Umts);
    assert s[..3] == Head;
    CrcStep(Umts, s[..3], 0x07, 0x0059, 0xD911);
    assert s[..4] == s[..3] + [0x07];
    CrcStep(Umts, s[..4], 0x26, 0xD911, 0x1302);
    assert s[..5] == s[..4] + [0x26];
    CrcStep(Umts, s[..5], 0x23, 0x1302, 0x02A0);
    assert s[..6] == s[..5] + [0x23];
    CrcStep(Umts, s[..6], 0x01, 0x02A0, 0xA00A);
    assert s[..7] == s[..6] + [0x01];
    CrcStep(Umts, s[..7], 0x00, 0xA00A, 0x09C0);
    assert s[..8] == s[..7] + [0x00];
  }

  /** The CRC-16/UMTS of `SetSoundOff` up to its CRC bytes, one absorbed byte at a time. */
  lemma SetSoundOffCrcUmts()
    ensures Crc(Umts, SetSoundOff[..10]) == 0xAB63
  {
    var s := SetSoundOff;
    HeadCrc(Umts);
    assert s[..3] == Head;
    CrcStep(Umts, s[..3], 0x09, 0x0059, 0x5936);
    assert s[..4] == s[..3] + [0x09];
    CrcStep(Umts, s[..4], 0x26, 0x5936, 0xB701);
    assert s[..5] == s[..4] + [0x26];
    CrcStep(Umts, s[..5], 0x43, 0xB701, 0x833B);
    assert s[..6] == s[..5] + [0x43];
    CrcStep(Umts, s[..6], 0x01, 0x833B, 0x380C);
    assert s[..7] == s[..6] + [0x01];
    CrcStep(Umts, s[..7], 0x00, 0x380C, 0x8C93);
    assert s[..8] == s[..7] + [0x00];
    CrcStep(Umts, s[..8], 0x00, 0x8C93, 0x102B);
    assert s[..9] == s[..8] + [0x00];
    CrcStep(Umts, s[..9], 0x00, 0x102B, 0xAB63);
    assert s[..10] == s[..9] + [0x00];
  }

  /** The CRC-16/UMTS of `SetSoundOn` up to its CRC bytes, one absorbed byte at a time. */
  lemma SetSoundOnCrcUmts()
    ensures Crc(Umts, SetSoundOn[..10]) == 0x2B66
  {
    var s := SetSoundOn;
    HeadCrc(Umts);
    assert s[..3] == Head;
    CrcStep(Umts, s[..3], 0x09, 0x0059, 0x5936);
    assert s[..4] == s[..3] + [0x09];
    CrcStep(Umts, s[..4], 0x26, 0x5936, 0xB701);
    assert s[..5] == s[..4] + [0x26];
    CrcStep(Umts, s[..5], 0x43, 0xB701, 0x833B);
    assert s[..6] == s[..5] + [0x43];
    CrcStep(Umts, s[..6], 0x01, 0x833B, 0x380C);
    assert s[..7] == s[..6] + [0x01];
    CrcStep(Umts, s[..7], 0x00, 0x380C, 0x8C93);
    assert s[..8] == s[..7] + [0x00];
    CrcStep(Umts, s[..8], 0x00, 0x8C93, 0x102B);
    assert s[..9] == s[..8] + [0x00];
    CrcStep(Umts, s[..9], 0x01, 0x102B, 0x2B66);
    assert s[..10] == s[..9] + [0x01];
  }

  /** The CRC-16/UMTS of `GetSettings` up to its CRC bytes, one absorbed byte at a time. */
  lemma GetSettingsCrcUmts()
    ensures Crc(Umts, GetSettings[..10]) == 0xBF11
  {
    var s := GetSettings;
    HeadCrc(Umts);
    assert s[..3] == Head;
    CrcStep(Umts, s[..3], 0x09, 0x0059, 0x5936);
    assert s[..4] == s[..3] + [0x09];
    CrcStep(Umts, s[..4], 0x40, 0x5936, 0xB655);
    assert s[..5] == s[..4] + [0x40];
    CrcStep(Umts, s[..5], 0x43, 0xB655, 0x573E);
    assert s[..6] == s[..5] + [0x43];
    CrcStep(Umts, s[..6], 0x04, 0x573E, 0x3FEA);
    assert s[..7] == s[..6] + [0x04];
    CrcStep(Umts, s[..7], 0x00, 0x3FEA, 0xEA82);
    assert s[..8] == s[..7] + [0x00];
    CrcStep(Umts, s[..8], 0x60, 0xEA82, 0x013F);
    assert s[..9] == s[..8] + [0x60];
    CrcStep(Umts, s[..9], 0x06, 0x013F, 0xBF11);
    assert s[..10] == s[..9] + [0x06];
  }

  /** The CRC-16/XMODEM of `GetSettings` up to its CRC bytes, one absorbed byte at a time. */
  lemma GetSettingsCrcXmodem()
    ensures Crc(Xmodem, GetSettings[..10]) == 0x8F84
  {
    var s := GetSettings;
    HeadCrc(Xmodem);
    assert s[..3] == Head;
    CrcStep(Xmodem, s[..3], 0x09, 0x1604, 0xE7DE);
    assert s[..4] == s[..3] + [0x09];
    CrcStep(Xmodem, s[..4], 0x40, 0xE7DE, 0x1B0D);
    assert s[..5] == s[..4] + [0x40];
    CrcStep(Xmodem, s[..5], 0x43, 0x1B0D, 0xD6FD);
    assert s[..6] == s[..5] + [0x43];
    CrcStep(Xmodem, s[..6], 0x04, 0xD6FD, 0x163F);
    assert s[..7] == s[..6] + [0x04];
    CrcStep(Xmodem, s[..7], 0x00, 0x163F, 0x4DF7);
    assert s[..8] == s[..7] + [0x00];
    CrcStep(Xmodem, s[..8], 0x60, 0x4DF7, 0x02CF);
    assert s[..9] == s[..8] + [0x60];
    CrcStep(Xmodem, s[..9], 0x06, 0x02CF, 0x8F84);
    assert s[..10] == s[..9] + [0x06];
  }

  /** The CRC-16/UMTS of `GetTempUnit` up to its CRC bytes, one absorbed byte at a time. */
  lemma GetTempUnitCrcUmts()
    ensures Crc(Umts, GetTempUnit[..8]) == 0x7E30
  {
    var s := GetTempUnit;
    HeadCrc(Umts);
    assert s[..3] == Head;
    CrcStep(Umts, s[..3], 0x07, 0x0059, 0xD911);
    assert s[..4] == s[..3] + [0x07];
    CrcStep(Umts, s[..4], 0x20, 0xD911, 0x1316);
    assert s[..5] == s[..4] + [0x20];
    CrcStep(Umts, s[..5], 0x6E, 0x1316, 0x170E);
    assert s[..6] == s[..5] + [0x6E];
    CrcStep(Umts, s[..6], 0x02, 0x170E, 0x8E7D);
    assert s[..7] == s[..6] + [0x02];
    CrcStep(Umts, s[..7], 0x06, 0x8E7D, 0x7E30);
    assert s[..8] == s[..7] + [0x06];
  }

  /** The CRC-16/UMTS of `SetTempUnitC` up to its CRC bytes, one absorbed byte at a time. */
  lemma SetTempUnitCCrcUmts()
    ensures Crc(Umts, SetTempUnitC[..9]) == 0xA9E3
  {
    var s := SetTempUnitC;
    HeadCrc(Umts);
    assert s[..3] == Head;
    CrcStep(Umts, s[..3], 0x08, 0x0059, 0xD933);
    assert s[..4] == s[..3] + [0x08];
    CrcStep(Umts, s[..4], 0x22, 0xD933, 0xB119);
    assert s[..5] == s[..4] + [0x22];
    CrcStep(Umts, s[..5], 0x32, 0xB119, 0x9A09);
    assert s[..6] == s[..5] + [0x32];
    CrcStep(Umts, s[..6], 0x02, 0x9A09, 0x8A53);
    assert s[..7] == s[..6] + [0x02];
    CrcStep(Umts, s[..7], 0x06, 0x8A53, 0xD02B);
    assert s[..8] == s[..7] + [0x06];
    CrcStep(Umts, s[..8], 0x00, 0xD02B, 0xA9E3);
    assert s[..9] == s[..8] + [0x00];
  }

  /** The CRC-16/UMTS of `SetTempUnitF` up to its CRC bytes, one absorbed byte at a time. */
  lemma SetTempUnitFCrcUmts()
    ensures Crc(Umts, SetTempUnitF[..9]) == 0x29E6
  {
    var s := SetTempUnitF;
    HeadCrc(Umts);
    assert s[..3] == Head;
    CrcStep(Umts, s[..3], 0x08, 0x0059, 0xD933);
    assert s[..4] == s[..3] + [0x08];
    CrcStep(Umts, s[..4], 0x22, 0xD933, 0xB119);
    assert s[..5] == s[..4] + [0x22];
    CrcStep(Umts, s[..5], 0x32, 0xB119, 0x9A09);
    assert s[..6] == s[..5] + [0x32];
    CrcStep(Umts, s[..6], 0x02, 0x9A09, 0x8A53);
    assert s[..7] == s[..6] + [0x02];
    CrcStep(Umts, s[..7], 0x06, 0x8A53, 0xD02B);
    assert s[..8] == s[..7] + [0x06];
    CrcStep(Umts, s[..8], 0x01, 0xD02B, 0x29E6);
    assert s[..9] == s[..8] + [0x01];
  }
  /**
   * Every literal but `GetSettings` ends with the CRC-16/UMTS (poly 0x8005) of
   * the bytes before its CRC, high byte first: the variant `_crc16` of the
   * coordinator computes.
   */
  lemma LiteralsCarryUmts()
    ensures CarriesCrc(Umts, GetRealtime) && CarriesCrc(Umts, Heartbeat) && CarriesCrc(Umts, GetSoundStatus)
    ensures CarriesCrc(Umts, SetSoundOff) && CarriesCrc(Umts, SetSoundOn)
    ensures CarriesCrc(Umts, GetTempUnit) && CarriesCrc(Umts, SetTempUnitC) && CarriesCrc(Umts, SetTempUnitF)
  {
    GetRealtimeCrcUmts();
    HeartbeatCrcUmts();
    GetSoundStatusCrcUmts();
    SetSoundOffCrcUmts();
    SetSoundOnCrcUmts();
    GetTempUnitCrcUmts();
    SetTempUnitCCrcUmts();
    SetTempUnitFCrcUmts();
  }

  /**
   * `GetSettings` stores EF 17, which is neither its CRC-16/UMTS (BF 11) nor
   * its CRC-16/XMODEM (8F 84).
   */
  lemma GetSettingsCrcMismatch()
    ensures !CarriesCrc(Umts, GetSettings) && !CarriesCrc(Xmodem, GetSettings)
    ensures CrcBytes(Crc(Umts, GetSettings[..10])) == [0xBF, 0x11]
    ensures CrcBytes(Crc(Xmodem, GetSettings[..10])) == [0x8F, 0x84]
  {
    GetSettingsCrcUmts();
    GetSettingsCrcXmodem();
    var s := GetSettings;
    assert s[..|s| - 3] == s[..10];
    assert s[|s| - 3..|s| - 1][0] == 0xEF;
  }

  /**
   * The sound ON and OFF frames differ only in the flag at index 9 and in the
   * CRC; one extra 1 bit in the last byte before the CRC changes a CRC-16 by
   * exactly the polynomial, and the two CRCs XOR to 0x8005.
   */
  lemma SoundPair()
    ensures |SetSoundOff| == |SetSoundOn| == 13
    ensures forall i :: 0 <= i < 13 && i != 9 && i != 10 && i != 11 ==> SetSoundOff[i] == SetSoundOn[i]
    ensures SetSoundOff[9] == 0 && SetSoundOn[9] == 1
    ensures Crc(Umts, SetSoundOff[..10]) ^ Crc(Umts, SetSoundOn[..10]) == Umts
  {
    SetSoundOffCrcUmts();
    SetSoundOnCrcUmts();
  }

  /**
   * The Celsius and Fahrenheit frames differ only in the flag at index 8 and
   * in the CRC, and the two CRCs XOR to 0x8005.
   */
  lemma UnitPair()
    ensures |SetTempUnitC| == |SetTempUnitF| == 12
    ensures forall i :: 0 <= i < 12 && i != 8 && i != 9 && i != 10 ==> SetTempUnitC[i] == SetTempUnitF[i]
    ensures SetTempUnitC[8] == 0 && SetTempUnitF[8] == 1
    ensures Crc(Umts, SetTempUnitC[..9]) ^ Crc(Umts, SetTempUnitF[..9]) == Umts
  {
    SetTempUnitCCrcUmts();
    SetTempUnitFCrcUmts();
  }
}
