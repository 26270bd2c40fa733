/**
 * The stand-alone protocol probe: its three request literals, its bitwise
 * CRC-16 (polynomial 0x1021) and the decoding its notification handler does
 * before printing. The printed lines are modelled as a `Notice` value.
 */
module VerifyProtocol {
  import opened Wrappers
  import opened Bytes
  import opened CrcRounds
  import opened Crc16
  import opened Frame
  import Commands
  import Utils
  import Coordinator

  const GetRealtime: seq<byte> := [0x7B, 0x41, 0x00, 0x07, 0x40, 0x44, 0x02, 0x00, 0xFC, 0x3E, 0x7D]
  const GetSettings: seq<byte> := [0x7B, 0x41, 0x00, 0x09, 0x40, 0x43, 0x04, 0x00, 0x60, 0x06, 0xEF, 0x17, 0x7D]
  const GetSound: seq<byte> := [0x7B, 0x41, 0x00, 0x07, 0x26, 0x23, 0x01, 0x00, 0x09, 0xC0, 0x7D]

  /** The probe sends the same frames as the integration. */
  lemma SameLiterals()
    ensures GetRealtime == Commands.GetRealtime
    ensures GetSettings == Commands.GetSettings
    ensures GetSound == Commands.GetSoundStatus
  {
  }

  /** `crc16`: bitwise CRC-16 with polynomial 0x1021, initial value 0 (CRC-16/XMODEM). */
  method BitwiseCrc16(data: seq<byte>) returns (crc: bv16)
    ensures crc == Crc(Xmodem, data)
    ensures |data| == 0 ==> crc == 0
  {
    crc := 0;
    for k := 0 to |data|
      invariant crc == Crc(Xmodem, data[..k])
    {
      crc := crc ^ ((data[k] as bv16) << 8);
      ghost var start := crc;
      for j := 0 to 8
        invariant crc == Shifts(Xmodem, start, j)
      {
        ShiftsUnfold(Xmodem, start, j + 1);
        crc := Round(Xmodem, crc);
      }
      CrcAppend(Xmodem, data[..k], data[k]);
      assert data[..k + 1] == data[..k] + [data[k]];
    }
    assert data[..|data|] == data;
  }

  /** What the handler prints for a notification. */
  datatype Notice =
    | Ignored
    | RealtimeNotice(co2: int, temperature: int, humidity: int, bars: int, percent: int, charging: int)
    | MuteNotice(state: string)

  /** The exception the handler raises when it indexes past the end of a notification. */
  datatype HandlerError = IndexError

  /**
   * `notification_handler`: frames under 6 bytes and unknown ids are ignored;
   * the realtime branch reads up to byte 12 and the mute branch byte 9, each
   * without checking the length first.
   */
  function Handle(f: seq<byte>): (r: Result<Notice, HandlerError>)
    ensures |f| < 6 ==> r == Ok(Ignored)
    ensures r.Err? <==> |f| >= 6 && ((CommandId(f) == 0x4144 && |f| < 13) || (CommandId(f) == 0x2723 && |f| < 10))
    ensures r.Ok? && r.value.RealtimeNotice? ==> 0 <= r.value.co2 < 0x10000 && -127 <= r.value.temperature <= 128
    ensures r.Ok? && r.value.MuteNotice? ==> r.value.state == "OFF" || r.value.state == "ON"
  {
    if |f| < 6 then Ok(Ignored)
    else if CommandId(f) == 0x4144 then
      if |f| < 13 then Err(IndexError)
      else
        var co2 := U16(f[7], f[8]);
        var temp := if f[9] as int > 128 then f[9] as int - 256 else f[9] as int;
        var bars := f[11] as int;
        Ok(RealtimeNotice(co2, temp, f[10] as int, bars, bars * 25, f[12] as int))
    else if CommandId(f) == 0x2723 then
      if |f| < 10 then Err(IndexError)
      else Ok(MuteNotice(if f[9] == 0 then "OFF" else "ON"))
    else Ok(Ignored)
  }

  /**
   * On a realtime reply the probe and the coordinator read the same offsets:
   * the same CO2, temperature and humidity, the same charging flag, and the
   * coordinator's battery is the probe's percentage capped at 100.
   */
  lemma RealtimeAgrees(f: seq<byte>)
    requires |f| >= 13 && CommandId(f) == Coordinator.RealtimeReply
    ensures Handle(f).Ok? && Handle(f).value.RealtimeNotice?
    ensures var n, v := Handle(f).value, Coordinator.DecodeRealtime(f);
      n.co2 == v.co2 && n.temperature == v.temperature && n.humidity == v.humidity
      && (n.charging == 1 <==> v.charging)
      && v.battery == (if n.percent > 100 then 100 else n.percent)
  {
  }

  /**
   * The probe and the coordinator disagree on byte 9 of a sound reply: the
   * probe prints "Mute State: OFF" exactly when the coordinator stores mute
   * as true.
   */
  lemma SoundAgrees(d: Coordinator.Data, f: seq<byte>)
    requires |f| >= 10 && CommandId(f) == Coordinator.SoundReply
    ensures Handle(f) == Ok(MuteNotice(if Coordinator.ApplySound(d, f).mute == Some(true) then "OFF" else "ON"))
  {
  }

  /**
   * The probe decodes a notification exactly when the coordinator's handler
   * would route it to the realtime or the sound slot; settings replies and
   * other ids are ignored by the probe.
   */
  lemma DecodesWhatCoordinatorRoutes(f: seq<byte>)
    ensures (Handle(f).Ok? && Handle(f).value != Ignored) ==>
      Coordinator.Carries(f, Coordinator.RealtimeReply) || Coordinator.Carries(f, Coordinator.SoundReply)
    ensures Coordinator.Carries(f, Coordinator.RealtimeReply) && |f| >= 13 ==> Handle(f).Ok? && Handle(f).value.RealtimeNotice?
    ensures Coordinator.Carries(f, Coordinator.SoundReply) && |f| >= 10 ==> Handle(f).Ok? && Handle(f).value.MuteNotice?
    ensures Coordinator.Carries(f, Coordinator.SettingsReply) ==> Handle(f) == Ok(Ignored)
  {
  }
}
