/**
 * The Home Assistant coordinator of an HTRAM sensor: it polls the device over
 * a BLE link, decodes the three replies it asks for into its `data`
 * dictionary, and sends the write commands the entities trigger.
 *
 * The BLE link is not modelled as code: every outcome the coordinator can see
 * from it (whether a kept client still reports `is_connected`, whether a new
 * connection comes up, whether a write or a notification call raises, which
 * notifications arrive while a reply is awaited) is a parameter.
 */
module Coordinator {
  import opened Wrappers
  import opened Bytes
  import opened CrcRounds
  import opened Crc16
  import opened Frame
  import opened Commands

  // ---------------------------------------------------------------------
  // The `data` dictionary
  // ---------------------------------------------------------------------

  /**
   * The `data` dictionary. Its keys are fixed ("co2", "temperature",
   * "humidity", "battery", "charging", "mute", "alarm_low", "alarm_high",
   * "screen_off", "temp_unit"), so it is a record with one optional field per
   * key: `None` is a key not yet stored.
   */
  datatype Data = Data(
    co2: Option<int>, temperature: Option<int>, humidity: Option<int>, battery: Option<int>,
    charging: Option<bool>, mute: Option<bool>,
    alarmLow: Option<int>, alarmHigh: Option<int>, screenOff: Option<int>,
    tempUnit: Option<string>)

  const NoData := Data(None, None, None, None, None, None, None, None, None, None)

  /** The ranges the decoders and setters keep the stored values in. */
  predicate InRange(d: Data)
  {
    (d.co2.Some? ==> 0 <= d.co2.value < 0x10000)
    && (d.temperature.Some? ==> -127 <= d.temperature.value <= 128)
    && (d.humidity.Some? ==> 0 <= d.humidity.value < 256)
    && (d.battery.Some? ==> 0 <= d.battery.value <= 100)
    && (d.tempUnit.Some? ==> d.tempUnit.value == "C" || d.tempUnit.value == "F")
  }

  // ---------------------------------------------------------------------
  // Decoding the replies
  // ---------------------------------------------------------------------

  /** Command ids of the three replies the poll waits for. */
  const RealtimeReply: int := 0x4144
  const SettingsReply: int := 0x4143
  const SoundReply: int := 0x2723

  /** Byte 9 of a realtime reply: values above 128 stand for `raw - 256`. */
  function SignedTemperature(raw: byte): (t: int)
    ensures -127 <= t <= 128
    ensures t % 256 == raw as int
    ensures t >= 0 <==> raw as int <= 128
  {
    if raw as int > 128 then raw as int - 256 else raw as int
  }

  /** Byte 11 of a realtime reply counts battery bars of 25%, capped at 100%. */
  function BatteryPercent(level: byte): (b: int)
    ensures 0 <= b <= 100 && b % 25 == 0
    ensures b == 100 <==> level as int >= 4
    ensures b < 100 ==> b == 25 * level as int
  {
    var b := level as int * 25;
    if b > 100 then 100 else b
  }

  /** The five readings of a realtime reply. */
  datatype Readings = Readings(co2: int, temperature: int, humidity: int, battery: int, charging: bool)

  /** Bytes 7..12 of a realtime reply of at least 13 bytes. */
  function DecodeRealtime(f: seq<byte>): (r: Readings)
    requires |f| >= 13
    ensures 0 <= r.co2 < 0x10000 && -127 <= r.temperature <= 128
    ensures 0 <= r.humidity < 256 && 0 <= r.battery <= 100
    ensures r.humidity == f[10] as int && (r.charging <==> f[12] == 1)
  {
    Readings(U16(f[7], f[8]), SignedTemperature(f[9]), f[10] as int, BatteryPercent(f[11]), f[12] == 1)
  }

  /** The three thresholds of a settings reply. */
  datatype Thresholds = Thresholds(low: int, high: int, screenOff: int)

  /** Bytes 7..12 of a settings reply of at least 13 bytes, as three big-endian values. */
  function DecodeSettings(f: seq<byte>): (t: Thresholds)
    requires |f| >= 13
    ensures 0 <= t.low < 0x10000 && 0 <= t.high < 0x10000 && 0 <= t.screenOff < 0x10000
  {
    Thresholds(U16(f[7], f[8]), U16(f[9], f[10]), U16(f[11], f[12]))
  }

  /** `_parse_realtime` on the dictionary: too short a reply changes nothing. */
  function ApplyRealtime(d: Data, f: seq<byte>): (r: Data)
    ensures InRange(d) ==> InRange(r)
    ensures |f| < 13 ==> r == d
    ensures |f| >= 13 ==> r.co2.Some? && r.temperature.Some? && r.humidity.Some? && r.battery.Some? && r.charging.Some?
    ensures r.(co2 := d.co2, temperature := d.temperature, humidity := d.humidity,
               battery := d.battery, charging := d.charging) == d
  {
    if |f| < 13 then d
    else
      var v := DecodeRealtime(f);
      d.(co2 := Some(v.co2), temperature := Some(v.temperature), humidity := Some(v.humidity),
         battery := Some(v.battery), charging := Some(v.charging))
  }

  /** `_parse_sound`: byte 9 equal to zero means the alarm sound is off, i.e. muted. */
  function ApplySound(d: Data, f: seq<byte>): (r: Data)
    ensures InRange(d) ==> InRange(r)
    ensures |f| < 10 ==> r == d
    ensures |f| >= 10 ==> r.mute.Some? && (r.mute.value <==> f[9] == 0)
    ensures r.(mute := d.mute) == d
  {
    if |f| < 10 then d else d.(mute := Some(f[9] == 0))
  }

  /** `_parse_settings` on the dictionary. */
  function ApplySettings(d: Data, f: seq<byte>): (r: Data)
    ensures InRange(d) ==> InRange(r)
    ensures |f| < 13 ==> r == d
    ensures |f| >= 13 ==> r.alarmLow.Some? && r.alarmHigh.Some? && r.screenOff.Some?
    ensures r.(alarmLow := d.alarmLow, alarmHigh := d.alarmHigh, screenOff := d.screenOff) == d
  {
    if |f| < 13 then d
    else
      var t := DecodeSettings(f);
      d.(alarmLow := Some(t.low), alarmHigh := Some(t.high), screenOff := Some(t.screenOff))
  }

  /** The realtime decoder reads nothing past byte 12. */
  lemma RealtimeReadsPrefix(f: seq<byte>, g: seq<byte>)
    requires |f| >= 13 && |g| >= 13 && f[..13] == g[..13]
    ensures DecodeRealtime(f) == DecodeRealtime(g)
    ensures ApplyRealtime(NoData, f) == ApplyRealtime(NoData, g)
  {
    assert f[7] == g[7] && f[8] == g[8] && f[9] == g[9];
    assert f[10] == g[10] && f[11] == g[11] && f[12] == g[12];
  }

  /** A CO2 reading sent high byte first is decoded back unchanged. */
  lemma Co2RoundTrip(f: seq<byte>, ppm: int)
    requires |f| >= 13 && 0 <= ppm < 0x10000
    requires f[7] == HiByte(ppm) && f[8] == LoByte(ppm)
    ensures DecodeRealtime(f).co2 == ppm
  {
    JoinOf(f[7], f[8], ppm);
  }

  /**
   * A settings reply that carries, at bytes 7..12, the six value bytes an
   * alarm-threshold frame sends at bytes 10..15 decodes to the sent values
   * modulo 2^16.
   */
  lemma SettingsEcho(reply: seq<byte>, packet: seq<byte>, low: int, high: int, screenOff: int)
    requires AlarmPacket(packet, low, high, screenOff)
    requires |reply| >= 13 && reply[7..13] == packet[10..16]
    ensures DecodeSettings(reply) == Thresholds(low % 0x10000, high % 0x10000, screenOff % 0x10000)
  {
    assert reply[7..13] == AlarmValues(low, high, screenOff);
    JoinOf(reply[7], reply[8], low);
    JoinOf(reply[9], reply[10], high);
    JoinOf(reply[11], reply[12], screenOff);
  }

  /** The mute commands carry, at byte 9, the flag the sound decoder reads back as the requested state. */
  lemma MuteCommandsDecode(d: Data, mute: bool)
    ensures ApplySound(d, if mute then SetSoundOff else SetSoundOn).mute == Some(mute)
  {
  }

  // ---------------------------------------------------------------------
  // Routing notifications to the three awaited replies
  // ---------------------------------------------------------------------

  /** The three futures of one poll: the first matching reply of each kind, once set. */
  datatype Slots = Slots(realtime: Option<seq<byte>>, settings: Option<seq<byte>>, sound: Option<seq<byte>>)

  const NoReplies := Slots(None, None, None)

  /** The slot a reply id is routed to. */
  function Slot(s: Slots, id: int): (slot: Option<seq<byte>>)
    requires id == RealtimeReply || id == SettingsReply || id == SoundReply
  {
    if id == RealtimeReply then s.realtime
    else if id == SettingsReply then s.settings
    else s.sound
  }

  /** A notification of at least six bytes whose command id is `id`. */
  predicate Carries(f: seq<byte>, id: int)
  {
    |f| >= 6 && CommandId(f) == id
  }

  /** The notification handler: a frame fills the empty slot of its id; anything else is dropped. */
  function Route(s: Slots, f: seq<byte>): (r: Slots)
    ensures |f| < 6 ==> r == s
    ensures forall id :: id == RealtimeReply || id == SettingsReply || id == SoundReply ==>
      Slot(r, id) == (if Slot(s, id).None? && Carries(f, id) then Some(f) else Slot(s, id))
  {
    if |f| < 6 then s
    else if CommandId(f) == RealtimeReply then
      (if s.realtime.None? then s.(realtime := Some(f)) else s)
    else if CommandId(f) == SettingsReply then
      (if s.settings.None? then s.(settings := Some(f)) else s)
    else if CommandId(f) == SoundReply then
      (if s.sound.None? then s.(sound := Some(f)) else s)
    else s
  }

  /** The handler applied to a run of notifications, in arrival order. */
  function DeliverAll(s: Slots, frames: seq<seq<byte>>): (r: Slots)
  {
    if |frames| == 0 then s else Route(DeliverAll(s, frames[..|frames| - 1]), frames[|frames| - 1])
  }

  /** Reference definition: the first frame of the run that carries `id`. */
  function FirstWithId(frames: seq<seq<byte>>, id: int): (r: Option<seq<byte>>)
    ensures r.Some? ==> r.value in frames && Carries(r.value, id)
  {
    if |frames| == 0 then None
    else if Carries(frames[0], id) then Some(frames[0])
    else FirstWithId(frames[1..], id)
  }

  lemma {:induction false} FirstWithIdAppend(frames: seq<seq<byte>>, f: seq<byte>, id: int)
    ensures FirstWithId(frames + [f], id) ==
      (if FirstWithId(frames, id).Some? then FirstWithId(frames, id)
       else if Carries(f, id) then Some(f) else None)
  {
    if |frames| > 0 {
      assert (frames + [f])[1..] == frames[1..] + [f];
      FirstWithIdAppend(frames[1..], f, id);
    }
  }

  /** The first matching frame of two runs in a row is that of the first run, if any. */
  lemma {:induction false} FirstWithIdConcat(a: seq<seq<byte>>, b: seq<seq<byte>>, id: int)
    ensures FirstWithId(a + b, id) == if FirstWithId(a, id).Some? then FirstWithId(a, id) else FirstWithId(b, id)
  {
    if |a| > 0 {
      assert (a + b)[0] == a[0];
      assert (a + b)[1..] == a[1..] + b;
      FirstWithIdConcat(a[1..], b, id);
    } else {
      assert a + b == b;
    }
  }

  /** The handler keeps the first reply of each kind: a set slot stays, an empty one takes the first match. */
  lemma {:induction false} DeliverAllFirst(s: Slots, frames: seq<seq<byte>>, id: int)
    requires id == RealtimeReply || id == SettingsReply || id == SoundReply
    ensures Slot(DeliverAll(s, frames), id) == if Slot(s, id).Some? then Slot(s, id) else FirstWithId(frames, id)
  {
    if |frames| > 0 {
      var init, last := frames[..|frames| - 1], frames[|frames| - 1];
      DeliverAllFirst(s, init, id);
      FirstWithIdAppend(init, last, id);
      assert init + [last] == frames;
    }
  }

  // ---------------------------------------------------------------------
  // CRC and the frames the coordinator builds
  // ---------------------------------------------------------------------

  /** `_crc16`: bitwise CRC-16 with polynomial 0x8005, initial value 0, no reflection. */
  method ComputeCrc16(data: seq<byte>) returns (crc: bv16)
    ensures crc == Crc(Umts, data)
    ensures |data| == 0 ==> crc == 0
  {
    crc := 0;
    for k := 0 to |data|
      invariant crc == Crc(Umts, data[..k])
    {
      crc := crc ^ ((data[k] as bv16) << 8);
      ghost var start := crc;
      for j := 0 to 8
        invariant crc == Shifts(Umts, start, j)
      {
        ShiftsUnfold(Umts, start, j + 1);
        crc := Round(Umts, crc);
      }
      CrcAppend(Umts, data[..k], data[k]);
      assert data[..k + 1] == data[..k] + [data[k]];
    }
    assert data[..|data|] == data;
  }

  /** The fixed bytes of an alarm-threshold frame: header, id 0x4243, then 04 00 40 06. */
  const AlarmHead: seq<byte> := [0x7B, 0x41, 0x00, 0x0F, 0x42, 0x43, 0x04, 0x00, 0x40, 0x06]

  /** The three thresholds, each as `(x >> 8) & 0xFF, x & 0xFF`. */
  function AlarmValues(low: int, high: int, screenOff: int): (v: seq<byte>)
  {
    [HiByte(low), LoByte(low), HiByte(high), LoByte(high), HiByte(screenOff), LoByte(screenOff)]
  }

  /** An alarm-threshold frame for the given values, sealed with CRC-16/0x8005. */
  predicate AlarmPacket(p: seq<byte>, low: int, high: int, screenOff: int)
  {
    |p| == 19 && p[..16] == AlarmHead + AlarmValues(low, high, screenOff) && Sealed(Umts, p, p[..16])
  }

  /** The frame `async_set_alarm_thresholds` sends. */
  method AlarmFrame(low: int, high: int, screenOff: int) returns (packet: seq<byte>)
    ensures AlarmPacket(packet, low, high, screenOff)
  {
    packet := AlarmHead;
    packet := packet + [HiByte(low)];
    packet := packet + [LoByte(low)];
    packet := packet + [HiByte(high)];
    packet := packet + [LoByte(high)];
    packet := packet + [HiByte(screenOff)];
    packet := packet + [LoByte(screenOff)];
    var content := packet;
    var crc := ComputeCrc16(packet);
    packet := packet + CrcBytes(crc) + [Tail];
    SealedCarriesCrc(Umts, packet, content);
  }

  /** An alarm-threshold frame is well framed, has id 0x4243, carries its CRC, and its values read back modulo 2^16. */
  lemma AlarmPacketReads(p: seq<byte>, low: int, high: int, screenOff: int)
    requires AlarmPacket(p, low, high, screenOff)
    ensures Framed(p) && p[3] == 0x0F && CommandId(p) == 0x4243 && CarriesCrc(Umts, p)
    ensures U16(p[10], p[11]) == low % 0x10000
    ensures U16(p[12], p[13]) == high % 0x10000
    ensures U16(p[14], p[15]) == screenOff % 0x10000
  {
    SealedCarriesCrc(Umts, p, p[..16]);
    assert p[..3] == Head;
    assert p[10..16] == AlarmValues(low, high, screenOff);
    JoinOf(p[10], p[11], low);
    JoinOf(p[12], p[13], high);
    JoinOf(p[14], p[15], screenOff);
  }

  /** The fixed bytes of a screen-off frame: header, id 0x4243, then 04 00 20 00. */
  const ScreenOffHead: seq<byte> := [0x7B, 0x41, 0x00, 0x0B, 0x42, 0x43, 0x04, 0x00, 0x20, 0x00]

  predicate ScreenOffPacket(p: seq<byte>, minutes: int)
  {
    |p| == 15 && p[..12] == ScreenOffHead + [HiByte(minutes), LoByte(minutes)] && Sealed(Umts, p, p[..12])
  }

  /** The frame `async_set_screen_off` sends. */
  method ScreenOffFrame(minutes: int) returns (packet: seq<byte>)
    ensures ScreenOffPacket(packet, minutes)
  {
    var valHi := HiByte(minutes);
    var valLo := LoByte(minutes);
    packet := ScreenOffHead + [valHi, valLo];
    var content := packet;
    var crc := ComputeCrc16(packet);
    packet := packet + CrcBytes(crc) + [Tail];
    SealedCarriesCrc(Umts, packet, content);
  }

  /** A screen-off frame is well framed, has id 0x4243, carries its CRC, and its value reads back modulo 2^16. */
  lemma ScreenOffPacketReads(p: seq<byte>, minutes: int)
    requires ScreenOffPacket(p, minutes)
    ensures Framed(p) && p[3] == 0x0B && CommandId(p) == 0x4243 && CarriesCrc(Umts, p)
    ensures U16(p[10], p[11]) == minutes % 0x10000
  {
    SealedCarriesCrc(Umts, p, p[..12]);
    assert p[..3] == Head;
    JoinOf(p[10], p[11], minutes);
  }

  /** A UTC timestamp as `datetime` holds it. */
  datatype DateTime = DateTime(year: int, month: int, day: int, hour: int, minute: int, second: int)

  /** The ranges `datetime` guarantees for its fields. */
  predicate ValidTime(t: DateTime)
  {
    1 <= t.year <= 9999 && 1 <= t.month <= 12 && 1 <= t.day <= 31
    && 0 <= t.hour < 24 && 0 <= t.minute < 60 && 0 <= t.second < 60
  }

  /** The fixed bytes of a time-sync frame: header, id 0x2242, flag 01. */
  const TimeHead: seq<byte> := [0x7B, 0x41, 0x00, 0x0C, 0x22, 0x42, 0x01]

  /** Two-digit year, month, day, hour, minute, second, one byte each. */
  function TimeBytes(t: DateTime): (v: seq<byte>)
    requires ValidTime(t)
  {
    [(t.year % 100) as bv8, t.month as bv8, t.day as bv8, t.hour as bv8, t.minute as bv8, t.second as bv8]
  }

  predicate TimePacket(p: seq<byte>, t: DateTime)
    requires ValidTime(t)
  {
    |p| == 16 && p[..13] == TimeHead + TimeBytes(t) && Sealed(Umts, p, p[..13])
  }

  /** The frame `async_sync_time` sends. */
  method SyncTimeFrame(now: DateTime) returns (packet: seq<byte>)
    requires ValidTime(now)
    ensures TimePacket(packet, now)
  {
    packet := TimeHead + TimeBytes(now);
    var content := packet;
    var crc := ComputeCrc16(packet);
    packet := packet + CrcBytes(crc) + [Tail];
    SealedCarriesCrc(Umts, packet, content);
  }

  /** A time-sync frame is well framed, has id 0x2242, carries its CRC, and bytes 7..12 read back as the time fields. */
  lemma TimePacketReads(p: seq<byte>, t: DateTime)
    requires ValidTime(t) && TimePacket(p, t)
    ensures Framed(p) && p[3] == 0x0C && CommandId(p) == 0x2242 && CarriesCrc(Umts, p)
    ensures p[7] as int == t.year % 100 && p[8] as int == t.month && p[9] as int == t.day
    ensures p[10] as int == t.hour && p[11] as int == t.minute && p[12] as int == t.second
  {
    SealedCarriesCrc(Umts, p, p[..13]);
    assert p[..3] == Head;
    assert p[7..13] == TimeBytes(t);
    IntToByte(t.year % 100);
    IntToByte(t.month);
    IntToByte(t.day);
    IntToByte(t.hour);
    IntToByte(t.minute);
    IntToByte(t.second);
  }

  // ---------------------------------------------------------------------
  // The coordinator
  // ---------------------------------------------------------------------

  /** A BLE client object; only its identity matters here. */
  type Handle = nat

  /** What the link does during one `_send_command`. */
  datatype Link = Link(
    alive: bool,     // the kept client reports `is_connected`
    newClient: Handle, // the client `establish_connection` would return
    connects: bool,  // `establish_connection` returns instead of raising
    writes: bool)    // `write_gatt_char` returns instead of raising

  /** The exception `_send_command` lets through. */
  datatype Fault = ConnectFailed | WriteFailed

  /** How a setter ended: the command was sent, the input was refused, or the send raised. */
  datatype Status = Done | Rejected | Failed(fault: Fault)

  predicate Reuses(client: Option<Handle>, link: Link)
  {
    client.Some? && link.alive
  }

  /** The command reaches the device. */
  predicate Delivers(client: Option<Handle>, link: Link)
  {
    (Reuses(client, link) || link.connects) && link.writes
  }

  /** The client after `_send_command`: a new connection is kept even when the write then fails. */
  function ClientAfterSend(client: Option<Handle>, link: Link): (c: Option<Handle>)
  {
    if Reuses(client, link) || !link.connects then client else Some(link.newClient)
  }

  /** An optional argument, else the stored value, else the default: `arg if arg is not None else data.get(key, default)`. */
  function Pick(arg: Option<int>, stored: Option<int>, default: int): (v: int)
  {
    if arg.Some? then arg.value else if stored.Some? then stored.value else default
  }

  /**
   * The steps of one poll, in order; a fault names the step that raised.
   * `AtRecycle` is the `disconnect` of the recycle after a realtime timeout.
   */
  datatype Step = AtConnect | AtStartNotify | AtHeartbeat | AtRealtime | AtSound | AtSettings | AtStopNotify | AtRecycle

  function StepIndex(s: Step): (i: nat)
  {
    match s
    case AtConnect => 0
    case AtStartNotify => 1
    case AtHeartbeat => 2
    case AtRealtime => 3
    case AtSound => 4
    case AtSettings => 5
    case AtStopNotify => 6
    case AtRecycle => 7
  }

  /** The three `except` clauses of the update: timeout, Bluetooth error, anything else. */
  datatype ErrorKind = Timeout | Bluetooth | Unexpected

  datatype Failure = Failure(step: Step, kind: ErrorKind)

  /** `UpdateFailed`, carrying the clause that raised it. */
  datatype UpdateFailed = UpdateFailed(kind: ErrorKind)

  /**
   * What the link does during one poll: whether a kept client is connected,
   * the client a new connection returns, the step that raises (if any), and
   * the notifications that arrive while the realtime, sound and settings
   * replies are awaited. The 30-second guard firing during a wait is a
   * `Timeout` fault at the step that follows it.
   */
  datatype PollEnv = PollEnv(alive: bool, newClient: Handle, fault: Option<Failure>,
                             w1: seq<seq<byte>>, w2: seq<seq<byte>>, w3: seq<seq<byte>>)

  /**
   * The number of steps the poll gets through before the recycle; 7 when
   * nothing raises there. A kept client makes no connection that could fail.
   */
  function Reach(env: PollEnv, reused: bool): (n: nat)
    ensures n <= 7
  {
    if env.fault.None? || (env.fault.value.step == AtConnect && reused) then 7
    else StepIndex(env.fault.value.step)
  }

  /** The requests written before step `n` raised. */
  function PollRequests(n: nat): (r: seq<seq<byte>>)
    ensures |r| <= 4
  {
    var all := [Heartbeat, GetRealtime, GetSoundStatus, GetSettings];
    if n <= 2 then [] else if n >= 6 then all else all[..n - 2]
  }

  /** A reply, when one arrived, applied by its decoder. */
  function ApplyFirst(d: Data, reply: Option<seq<byte>>, id: int): (r: Data)
    requires id == RealtimeReply || id == SettingsReply || id == SoundReply
  {
    if reply.None? then d
    else if id == RealtimeReply then ApplyRealtime(d, reply.value)
    else if id == SoundReply then ApplySound(d, reply.value)
    else ApplySettings(d, reply.value)
  }

  /**
   * The dictionary after a poll that got through `n` steps: the realtime
   * reply is the first one in the first window, the sound reply the first in
   * the first two, the settings reply the first in all three.
   */
  function PolledData(d: Data, env: PollEnv, n: nat): (r: Data)
  {
    var d1 := if n > 3 then ApplyFirst(d, FirstWithId(env.w1, RealtimeReply), RealtimeReply) else d;
    var d2 := if n > 4 then ApplyFirst(d1, FirstWithId(env.w1 + env.w2, SoundReply), SoundReply) else d1;
    if n > 5 then ApplyFirst(d2, FirstWithId(env.w1 + env.w2 + env.w3, SettingsReply), SettingsReply) else d2
  }

  /** A poll keeps the dictionary well typed and never touches the temperature unit. */
  lemma PolledDataKeeps(d: Data, env: PollEnv, n: nat)
    requires InRange(d)
    ensures InRange(PolledData(d, env, n))
    ensures PolledData(d, env, n).tempUnit == d.tempUnit
  {
  }

  /** A poll that gets through every step with a realtime reply in the first window stores its readings. */
  lemma PolledRealtime(d: Data, env: PollEnv, f: seq<byte>)
    requires FirstWithId(env.w1, RealtimeReply) == Some(f) && |f| >= 13
    ensures var r, v := PolledData(d, env, 7), DecodeRealtime(f);
      r.co2 == Some(v.co2) && r.temperature == Some(v.temperature) && r.humidity == Some(v.humidity)
      && r.battery == Some(v.battery) && r.charging == Some(v.charging)
  {
  }

  class HtramCoordinator {
    /** The dictionary the entities read. */
    var data: Data
    /** The kept BLE client, `None` when there is none. */
    var client: Option<Handle>
    /** Every frame written to the device so far, in order. */
    var written: seq<seq<byte>>

    ghost predicate Valid()
      reads this
    {
      InRange(data)
    }

    constructor ()
      ensures data == NoData && client == None && written == []
      ensures Valid()
    {
      data := NoData;
      client := None;
      written := [];
    }

    /** `_cleanup_client`: disconnect errors are swallowed; the client is dropped. */
    method Cleanup()
      modifies this
      ensures client == None && data == old(data) && written == old(written)
    {
      if client.Some? {
        client := None;
      }
    }

    method ParseRealtime(f: seq<byte>)
      requires Valid()
      modifies this
      ensures Valid() && data == ApplyRealtime(old(data), f)
      ensures client == old(client) && written == old(written)
    {
      if |f| < 13 {
        return;
      }
      var co2 := U16(f[7], f[8]);
      var temp := SignedTemperature(f[9]);
      var hum := f[10] as int;
      var batt := BatteryPercent(f[11]);
      var charging := f[12];
      data := data.(co2 := Some(co2));
      data := data.(temperature := Some(temp));
      data := data.(humidity := Some(hum));
      data := data.(battery := Some(batt));
      data := data.(charging := Some(charging == 1));
    }

    method ParseSound(f: seq<byte>)
      requires Valid()
      modifies this
      ensures Valid() && data == ApplySound(old(data), f)
      ensures client == old(client) && written == old(written)
    {
      if |f| < 10 {
        return;
      }
      var isOff := f[9] == 0;
      data := data.(mute := Some(isOff));
    }

    method ParseSettings(f: seq<byte>)
      requires Valid()
      modifies this
      ensures Valid() && data == ApplySettings(old(data), f)
      ensures client == old(client) && written == old(written)
    {
      if |f| < 13 {
        return;
      }
      var low := U16(f[7], f[8]);
      var high := U16(f[9], f[10]);
      var screenOff := U16(f[11], f[12]);
      data := data.(alarmLow := Some(low));
      data := data.(alarmHigh := Some(high));
      data := data.(screenOff := Some(screenOff));
    }

    /** `_send_command`: reuse a connected client or connect anew; exceptions propagate. */
    method SendCommand(command: seq<byte>, link: Link) returns (r: Result<(), Fault>)
      modifies this
      ensures r.Ok? <==> Delivers(old(client), link)
      ensures r == Err(ConnectFailed) <==> !Reuses(old(client), link) && !link.connects
      ensures client == ClientAfterSend(old(client), link)
      ensures written == if r.Ok? then old(written) + [command] else old(written)
      ensures data == old(data)
    {
      if client.Some? && link.alive {
        if !link.writes {
          return Err(WriteFailed);
        }
        written := written + [command];
        return Ok(());
      }
      if !link.connects {
        return Err(ConnectFailed);
      }
      client := Some(link.newClient);
      if !link.writes {
        return Err(WriteFailed);
      }
      written := written + [command];
      r := Ok(());
    }

    /** `async_set_mute`: send the sound-off or sound-on command, then record the state. */
    method SetMute(mute: bool, link: Link) returns (s: Status)
      requires Valid()
      modifies this
      ensures Valid() && s != Rejected
      ensures s == Done <==> Delivers(old(client), link)
      ensures client == ClientAfterSend(old(client), link)
      ensures s == Done ==> written == old(written) + [if mute then SetSoundOff else SetSoundOn]
      ensures s == Done ==> data == old(data).(mute := Some(mute))
      ensures s != Done ==> written == old(written) && data == old(data)
    {
      var cmd := if mute then SetSoundOff else SetSoundOn;
      var r := SendCommand(cmd, link);
      if r.Err? {
        return Failed(r.error);
      }
      data := data.(mute := Some(mute));
      s := Done;
    }

    /** `async_set_temp_unit`: send the Celsius or Fahrenheit command, then record "C" or "F". */
    method SetTempUnit(celsius: bool, link: Link) returns (s: Status)
      requires Valid()
      modifies this
      ensures Valid() && s != Rejected
      ensures s == Done <==> Delivers(old(client), link)
      ensures client == ClientAfterSend(old(client), link)
      ensures s == Done ==> written == old(written) + [if celsius then SetTempUnitC else SetTempUnitF]
      ensures s == Done ==> data == old(data).(tempUnit := Some(if celsius then "C" else "F"))
      ensures s != Done ==> written == old(written) && data == old(data)
    {
      var cmd := if celsius then SetTempUnitC else SetTempUnitF;
      var r := SendCommand(cmd, link);
      if r.Err? {
        return Failed(r.error);
      }
      data := data.(tempUnit := Some(if celsius then "C" else "F"));
      s := Done;
    }

    /**
     * `async_set_alarm_thresholds`: missing arguments come from the stored
     * values (defaults 800, 1000 and 0); a low threshold not below the high
     * one is refused before anything is sent.
     */
    method SetAlarmThresholds(low: Option<int>, high: Option<int>, screenOff: Option<int>, link: Link)
      returns (s: Status)
      requires Valid()
      modifies this
      ensures Valid()
      ensures s == Rejected <==> Pick(low, old(data).alarmLow, 800) >= Pick(high, old(data).alarmHigh, 1000)
      ensures s == Rejected ==> data == old(data) && client == old(client) && written == old(written)
      ensures s != Rejected ==> client == ClientAfterSend(old(client), link) && (s == Done <==> Delivers(old(client), link))
      ensures s == Done ==>
        |written| == |old(written)| + 1 && written[..|old(written)|] == old(written)
        && AlarmPacket(written[|old(written)|], Pick(low, old(data).alarmLow, 800),
                       Pick(high, old(data).alarmHigh, 1000), Pick(screenOff, old(data).screenOff, 0))
      ensures s == Done ==> data == old(data).(alarmLow := Some(Pick(low, old(data).alarmLow, 800)),
                                               alarmHigh := Some(Pick(high, old(data).alarmHigh, 1000)),
                                               screenOff := Some(Pick(screenOff, old(data).screenOff, 0)))
      ensures s.Failed? ==> data == old(data) && written == old(written)
    {
      var currentLow := if data.alarmLow.Some? then data.alarmLow.value else 800;
      var currentHigh := if data.alarmHigh.Some? then data.alarmHigh.value else 1000;
      var currentScreenOff := if data.screenOff.Some? then data.screenOff.value else 0;
      var newLow := if low.Some? then low.value else currentLow;
      var newHigh := if high.Some? then high.value else currentHigh;
      var newScreenOff := if screenOff.Some? then screenOff.value else currentScreenOff;
      assert newLow == Pick(low, data.alarmLow, 800) && newHigh == Pick(high, data.alarmHigh, 1000);
      assert newScreenOff == Pick(screenOff, data.screenOff, 0);
      if newLow >= newHigh {
        return Rejected;
      }
      var packet := AlarmFrame(newLow, newHigh, newScreenOff);
      var r := SendCommand(packet, link);
      if r.Err? {
        return Failed(r.error);
      }
      data := data.(alarmLow := Some(newLow));
      data := data.(alarmHigh := Some(newHigh));
      data := data.(screenOff := Some(newScreenOff));
      s := Done;
    }

    /** `async_set_screen_off`: send the screen-off frame, then record the minutes. */
    method SetScreenOff(minutes: int, link: Link) returns (s: Status)
      requires Valid()
      modifies this
      ensures Valid() && s != Rejected
      ensures s == Done <==> Delivers(old(client), link)
      ensures client == ClientAfterSend(old(client), link)
      ensures s == Done ==>
        |written| == |old(written)| + 1 && written[..|old(written)|] == old(written)
        && ScreenOffPacket(written[|old(written)|], minutes)
      ensures s == Done ==> data == old(data).(screenOff := Some(minutes))
      ensures s != Done ==> written == old(written) && data == old(data)
    {
      var packet := ScreenOffFrame(minutes);
      var r := SendCommand(packet, link);
      if r.Err? {
        return Failed(r.error);
      }
      data := data.(screenOff := Some(minutes));
      s := Done;
    }

    /** `async_sync_time`: send the current UTC time; the dictionary is not touched. */
    method SyncTime(now: DateTime, link: Link) returns (s: Status)
      requires Valid() && ValidTime(now)
      modifies this
      ensures Valid() && s != Rejected && data == old(data)
      ensures s == Done <==> Delivers(old(client), link)
      ensures client == ClientAfterSend(old(client), link)
      ensures s == Done ==>
        |written| == |old(written)| + 1 && written[..|old(written)|] == old(written)
        && TimePacket(written[|old(written)|], now)
      ensures s != Done ==> written == old(written)
    {
      var packet := SyncTimeFrame(now);
      var r := SendCommand(packet, link);
      if r.Err? {
        return Failed(r.error);
      }
      s := Done;
    }

    /**
     * `_async_update_data`: connect (or keep the connected client), listen,
     * send the heartbeat and the three requests, decode whichever replies
     * arrive, and drop the client when the realtime reply timed out. Any
     * exception drops the client and becomes `UpdateFailed`; so does the
     * 30-second guard firing during that recycle.
     */
    method Poll(env: PollEnv) returns (r: Result<Data, UpdateFailed>)
      requires Valid()
      modifies this
      ensures Valid()
      ensures r.Err? <==> Reach(env, old(client).Some? && env.alive) < 7
                          || (FirstWithId(env.w1, RealtimeReply).None? && RecycleTimesOut(env))
      ensures r.Err? ==> r.error == UpdateFailed(env.fault.value.kind)
      ensures r.Ok? ==> r.value == data
      ensures data == PolledData(old(data), env, Reach(env, old(client).Some? && env.alive))
      ensures written == old(written) + PollRequests(Reach(env, old(client).Some? && env.alive))
      ensures client == None <==> r.Err? || FirstWithId(env.w1, RealtimeReply).None?
      ensures client.Some? ==> client == if old(client).Some? && env.alive then old(client) else Some(env.newClient)
    {
      var reused := client.Some? && env.alive;
      var reached, timeoutOccurred := Exchange(env, reused);
      if reached < 7 {
        Cleanup();
        return Err(UpdateFailed(env.fault.value.kind));
      }
      if timeoutOccurred {
        if RecycleTimesOut(env) {
          // the interrupted recycle keeps the client; the timeout handler's own cleanup drops it
          Cleanup();
          return Err(UpdateFailed(Timeout));
        }
        Cleanup();
      }
      r := Ok(data);
    }

    /**
     * The body of the update's `try`: it returns how many steps got through
     * (7 when nothing raised) and whether the realtime reply timed out.
     */
    method Exchange(env: PollEnv, reused: bool) returns (reached: nat, timeoutOccurred: bool)
      requires Valid() && reused == (client.Some? && env.alive)
      modifies this
      ensures Valid()
      ensures reached == Reach(env, reused)
      ensures reached < 7 ==> env.fault.Some?
      ensures data == PolledData(old(data), env, reached)
      ensures written == old(written) + PollRequests(reached)
      ensures client == if reused || reached == 0 then old(client) else Some(env.newClient)
      ensures reached == 7 ==> (timeoutOccurred <==> FirstWithId(env.w1, RealtimeReply).None?)
    {
      if !reused {
        if Raises(env, AtConnect) {
          return 0, false;
        }
        client := Some(env.newClient);
      }
      if Raises(env, AtStartNotify) {
        return 1, false;
      }
      if Raises(env, AtHeartbeat) {
        return 2, false;
      }
      written := written + [Heartbeat];
      reached, timeoutOccurred := Requests(env, reused);
    }

    /** The three request-and-reply rounds and `stop_notify`, after the heartbeat went out. */
    method Requests(env: PollEnv, ghost reused: bool) returns (reached: nat, timeoutOccurred: bool)
      requires Valid() && Reach(env, reused) >= 3
      modifies this
      ensures Valid() && client == old(client)
      ensures reached == Reach(env, reused)
      ensures data == PolledData(old(data), env, reached)
      ensures written == old(written) + PollRequests(reached)[1..]
      ensures reached == 7 ==> (timeoutOccurred <==> FirstWithId(env.w1, RealtimeReply).None?)
    {
      if Raises(env, AtRealtime) {
        return 3, false;
      }
      timeoutOccurred := RealtimeRound(env);
      if Raises(env, AtSound) {
        return 4, timeoutOccurred;
      }
      SoundRound(env);
      if Raises(env, AtSettings) {
        return 5, timeoutOccurred;
      }
      SettingsRound(env);
      if Raises(env, AtStopNotify) {
        return 6, timeoutOccurred;
      }
      reached := 7;
    }

    /** Request the realtime reply and decode the first one of the first window. */
    method RealtimeRound(env: PollEnv) returns (timeoutOccurred: bool)
      requires Valid()
      modifies this
      ensures Valid() && client == old(client) && written == old(written) + [GetRealtime]
      ensures data == ApplyFirst(old(data), FirstWithId(env.w1, RealtimeReply), RealtimeReply)
      ensures timeoutOccurred <==> FirstWithId(env.w1, RealtimeReply).None?
    {
      written := written + [GetRealtime];
      var slots := DeliverAll(NoReplies, env.w1);
      DeliverAllFirst(NoReplies, env.w1, RealtimeReply);
      timeoutOccurred := slots.realtime.None?;
      if slots.realtime.Some? {
        ParseRealtime(slots.realtime.value);
      }
    }

    /** Request the sound status and decode the first one of the first two windows. */
    method SoundRound(env: PollEnv)
      requires Valid()
      modifies this
      ensures Valid() && client == old(client) && written == old(written) + [GetSoundStatus]
      ensures data == ApplyFirst(old(data), FirstWithId(env.w1 + env.w2, SoundReply), SoundReply)
    {
      written := written + [GetSoundStatus];
      var slots := DeliverAll(DeliverAll(NoReplies, env.w1), env.w2);
      SoundSlot(env);
      if slots.sound.Some? {
        ParseSound(slots.sound.value);
      }
    }

    /** Request the settings and decode the first reply of all three windows. */
    method SettingsRound(env: PollEnv)
      requires Valid()
      modifies this
      ensures Valid() && client == old(client) && written == old(written) + [GetSettings]
      ensures data == ApplyFirst(old(data), FirstWithId(env.w1 + env.w2 + env.w3, SettingsReply), SettingsReply)
    {
      written := written + [GetSettings];
      var slots := DeliverAll(DeliverAll(DeliverAll(NoReplies, env.w1), env.w2), env.w3);
      SettingsSlot(env);
      if slots.settings.Some? {
        ParseSettings(slots.settings.value);
      }
    }
  }

  /** The step `step` raises. */
  predicate Raises(env: PollEnv, step: Step)
  {
    env.fault.Some? && env.fault.value.step == step
  }

  /**
   * The 30-second guard fires while the recycle awaits `disconnect`. Any
   * other exception there is swallowed by `_cleanup_client`; this one is not,
   * and it skips the `self._client = None` that follows the call.
   */
  predicate RecycleTimesOut(env: PollEnv)
  {
    env.fault == Some(Failure(AtRecycle, Timeout))
  }

  /** The sound slot after two windows holds the first sound reply of both. */
  lemma SoundSlot(env: PollEnv)
    ensures DeliverAll(DeliverAll(NoReplies, env.w1), env.w2).sound == FirstWithId(env.w1 + env.w2, SoundReply)
  {
    var s1 := DeliverAll(NoReplies, env.w1);
    DeliverAllFirst(NoReplies, env.w1, SoundReply);
    DeliverAllFirst(s1, env.w2, SoundReply);
    FirstWithIdConcat(env.w1, env.w2, SoundReply);
  }

  /** The settings slot after the three windows holds the first settings reply of all of them. */
  lemma SettingsSlot(env: PollEnv)
    ensures DeliverAll(DeliverAll(DeliverAll(NoReplies, env.w1), env.w2), env.w3).settings
         == FirstWithId(env.w1 + env.w2 + env.w3, SettingsReply)
  {
    var s1 := DeliverAll(NoReplies, env.w1);
    var s2 := DeliverAll(s1, env.w2);
    DeliverAllFirst(NoReplies, env.w1, SettingsReply);
    DeliverAllFirst(s1, env.w2, SettingsReply);
    DeliverAllFirst(s2, env.w3, SettingsReply);
    FirstWithIdConcat(env.w1, env.w2, SettingsReply);
    FirstWithIdConcat(env.w1 + env.w2, env.w3, SettingsReply);
  }
}
