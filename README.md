# HTRAM sensor protocol, modelled in Dafny

This project models the protocol core of the Home Assistant integration for
the Honeywell HTRAM air monitor, together with the stand-alone probe script
that ships with it. Both talk to the sensor over BLE in frames of the form

    7B 41 00 LEN CMD_HI CMD_LO payload... CRC_HI CRC_LO 7D

where LEN is the content length (everything before the CRC) minus one,
modulo 256. The model covers:

- the frame layout (`Frame`);
- the two CRC-16 variants the code uses and keeps apart (`CrcRounds`,
  `Crc16`, `CrcTable`, `XmodemBits`):
  - poly 0x8005, init 0, not reflected (CRC-16/UMTS), which the coordinator's
    `_crc16` computes and the fixed command literals carry;
  - poly 0x1021, init 0 (CRC-16/XMODEM), which the provisioning builders use,
    table-driven in `utils.py` and bit by bit in `verify_protocol.py`;
- the fixed command literals of `const.py` and what they carry (`Commands`);
- the CRC and packet helpers of `utils.py`, including the SSID and AES-key
  provisioning frames (`Utils`);
- the coordinator (`Coordinator`):
  - the `data` dictionary and the three reply decoders;
  - the notification handler's one-shot slots;
  - the frames of the alarm-threshold, screen-off and clock-sync setters;
  - the class `HtramCoordinator`, whose methods update `data`, the cached BLE
    client and the sequence of frames written to the device;
- the probe's CRC, its notification decoding and its command literals
  (`VerifyProtocol`).

Modules:

- `wrappers.dfy`: `Option` and `Result`.
- `bytes.dfy`: `byte = bv8` and the big-endian split and join of Python's
  `(x >> 8) & 0xFF`, `x & 0xFF` and `int.from_bytes(..., 'big')`.
- `crc16.dfy`: the register round, the CRC of a byte sequence for any
  polynomial, and the proof that the table step of CRC-16/XMODEM equals eight
  bitwise rounds.
- `frame.dfy`: frame layout, command id, CRC placement, and the effect of
  patching byte 3 before sealing.
- `commands.dfy`, `utils.dfy`, `coordinator.dfy` and `verify_protocol.dfy`:
  one per source file of the core.

How the BLE link and time become parameters:

- `Link` covers everything one `_send_command` can observe:
  - whether the kept client reports `is_connected`;
  - the client a new connection returns;
  - whether connecting raises;
  - whether the write raises.
- `PollEnv` covers the same for one `_async_update_data`:
  - whether the kept client is connected;
  - the new client;
  - the step that raises and the `except` clause it lands in, if any step raises;
  - the notifications that arrive during each of the three five-second waits.
- A wait that times out is a window holding no matching reply.
- The 30-second guard firing during a wait is the failure of the following
  step, with that wait's window holding no reply.
- The 30-second guard firing during the recycle's `disconnect` is a `Timeout`
  fault at the step `AtRecycle`. It escapes `_cleanup_client` and the update
  fails with "Update timed out". Any other exception from that `disconnect`
  is swallowed.

Every frame written to the device is appended to the field `written`. This
lets the setters and the poll state exactly what they send.

## Model

| member | source | states |
|---|---|---|
| Bytes.JoinOf | custom_components/htram/coordinator.py:325-330 | the two bytes `(x >> 8) & 0xFF`, `x & 0xFF` read back big-endian give x modulo 2^16, and x itself when 0 <= x < 2^16 |
| Bytes.SplitJoin | custom_components/htram/coordinator.py:356-357 | splitting any int into high and low byte and joining them big-endian gives it back modulo 2^16 |
| Bytes.Padding | custom_components/htram/utils.py:166-169 | `b'\x00' * (width - len(s))` is all zeros, and s plus its padding is `width` long, or as long as s when s is longer (a negative repeat count gives no bytes) |
| Crc16.CrcAppend | custom_components/htram/coordinator.py:402-409 | the CRC of data plus one byte is the CRC of data with that byte absorbed: XOR it into the high half, then eight rounds |
| CrcTable.TableStep | custom_components/htram/utils.py:63-70 | one table step of `crc16_short` (crc shifted up a byte, XOR the entry for `(b ^ (crc >> 8)) & 0xFF`) equals absorbing the byte bit by bit with poly 0x1021 |
| CrcTable.TableFeedIsFeed | custom_components/htram/utils.py:63-70 | `TableFeed`, the loop body of `crc16_short` as a function of register and byte, equals the bitwise CRC-16/XMODEM step `Feed` for every register and byte |
| CrcTable.TableCrcIsXmodem | custom_components/htram/utils.py:60-72 | `TableCrc`, the table-driven recurrence of `crc16_short`, equals the CRC-16/XMODEM (poly 0x1021, init 0) of every byte sequence; it is therefore the same function as the probe's bitwise `crc16` (verify_protocol.py:69-79) |
| Frame.CrcBytesRoundTrip | custom_components/htram/utils.py:106 | the CRC's two bytes, high first, read back big-endian are the CRC |
| Frame.SealedCarriesCrc | custom_components/htram/utils.py:126-130 | content, then its CRC high byte first, then 0x7D: the content stays in front, the frame is 3 bytes longer, and the two bytes before 0x7D are the CRC of everything before them |
| Frame.PatchedSealed | custom_components/htram/utils.py:190-198 | patching byte 3 to `(len - 1) & 0xFF` before the CRC: the length byte is right for the final frame, every other content byte is kept, and the CRC covers the patched byte |
| Commands.AllFramed | custom_components/htram/const.py:13-45 | every literal starts 7B 41 00, ends with 7D, and has total length minus four at byte 3 |
| Commands.CommandIds | custom_components/htram/const.py:13-45 | bytes 4..5 of the literals are 40 44, 24 01, 26 23, 26 43 (twice), 40 43, 20 6E and 22 32 (twice) |
| Commands.GetRealtimeCrcUmts | custom_components/htram/const.py:13 | the CRC-16 with poly 0x8005 of the first 8 bytes of the realtime request is 0xFC3E, the two bytes it stores |
| Commands.LiteralsCarryUmts | custom_components/htram/const.py:13-45 | every literal but the settings request ends with the poly-0x8005 CRC of all bytes before it, high byte first |
| Commands.GetSettingsCrcMismatch | custom_components/htram/const.py:34 | the settings request's stored EF 17 is neither its poly-0x8005 CRC (BF 11) nor its poly-0x1021 CRC (8F 84) |
| Commands.SoundPair | custom_components/htram/const.py:24-30 | the sound OFF and ON frames differ only in the flag at index 9 (0 and 1) and in the CRC, and their CRCs XOR to 0x8005 |
| Commands.UnitPair | custom_components/htram/const.py:43-45 | the Celsius and Fahrenheit frames differ only in the flag at index 8 (0 and 1) and in the CRC, and their CRCs XOR to 0x8005 |
| Utils.CrcOfByte | custom_components/htram/utils.py:75-83 | `_get_crc_of_byte(i)` is eight MSB-first rounds with poly 0x1021 applied to `i << 8`, kept to 16 bits |
| Utils.TableRound | custom_components/htram/utils.py:63-70 | one pass of the `crc16_short` loop computes `TableFeed` of register and byte, and so absorbs the byte exactly as the bitwise CRC-16/XMODEM does |
| Utils.Crc16Short | custom_components/htram/utils.py:42-72 | the loop of `crc16_short` computes `TableCrc` of its input, which is the CRC-16/XMODEM (poly 0x1021, init 0) of it, for every byte sequence |
| Utils.Crc16Bytes | custom_components/htram/utils.py:86-106 | `crc16_bytes` is the CRC high byte first, and reads back big-endian as the CRC |
| Utils.Crc16BytesLe | custom_components/htram/utils.py:109-112 | `crc16_bytes_le` is the same two bytes low byte first, and reads back little-endian as the CRC |
| Utils.BuildCommandPacket | custom_components/htram/utils.py:115-130 | the packet is the head and all parts in order, then their CRC-16/XMODEM high byte first, then 0x7D; it is 3 bytes longer than head and parts, and the length byte is not touched |
| Utils.ConstructSubmitSsid | custom_components/htram/utils.py:133-198 | the SSID frame is framed and carries its CRC-16/XMODEM; it has the head, 22 zeros, the password length modulo 256, the password zero-padded to 64, the SSID zero-padded to 33 and 33 zeros; it is 163 bytes with length byte 0x9F when both fields fit |
| Utils.SsidPacket | custom_components/htram/utils.py:182-198 | concatenating, patching byte 3 and sealing give the SSID frame's length, framing, CRC and field layout |
| Utils.SsidLayout | custom_components/htram/utils.py:182 | before patching, each SSID field lands at its offset: head at 0..6, zeros at 7..28, length at 29, password from 30, zero padding, SSID, zeros to the end |
| Utils.ConstructSubmitAesKey | custom_components/htram/utils.py:201-281 | a key, IV or server of 256 bytes or more is an error (`bytes([n])` rejects it), and only then; otherwise the frame is 13 bytes longer than the three fields, is framed, carries its CRC-16/XMODEM, and holds each field after its one-byte length |
| Utils.AesPacket | custom_components/htram/utils.py:264-281 | concatenating, patching byte 3 and sealing give the AES frame's length, framing, CRC and field layout |
| Utils.AesPieces | custom_components/htram/utils.py:266-272 | in `head + payload`, the key, IV and server sit at offsets 8, 9 + len(key) and 10 + len(key) + len(iv), each right after its length byte |
| Coordinator.SignedTemperature | custom_components/htram/coordinator.py:171-173 | the temperature is in -127..128, congruent to the raw byte modulo 256, and negative exactly when the raw byte is above 128 |
| Coordinator.BatteryPercent | custom_components/htram/coordinator.py:176-179 | the battery is a multiple of 25 in 0..100; it is 100 exactly when the level is 4 or more, and otherwise 25 times the level |
| Coordinator.DecodeRealtime | custom_components/htram/coordinator.py:170-181 | the realtime readings are in range, humidity is byte 10, and charging holds exactly when byte 12 is 1 |
| Coordinator.DecodeSettings | custom_components/htram/coordinator.py:201-203 | the three thresholds are big-endian 16-bit values |
| Coordinator.ApplyRealtime | custom_components/htram/coordinator.py:164-187 | a reply under 13 bytes leaves `data` unchanged; otherwise co2, temperature, humidity, battery and charging are set and no other key changes; value ranges are kept |
| Coordinator.ApplySound | custom_components/htram/coordinator.py:189-194 | a reply under 10 bytes leaves `data` unchanged; otherwise mute is set, true exactly when byte 9 is 0, and nothing else changes |
| Coordinator.ApplySettings | custom_components/htram/coordinator.py:196-207 | a reply under 13 bytes leaves `data` unchanged; otherwise alarm_low, alarm_high and screen_off are set and nothing else changes |
| Coordinator.RealtimeReadsPrefix | custom_components/htram/coordinator.py:164-181 | the realtime decoder reads nothing past index 12: replies that agree on their first 13 bytes decode alike |
| Coordinator.Co2RoundTrip | custom_components/htram/coordinator.py:170 | a CO2 value in 0..65535 sent high byte first at 7..8 decodes back unchanged |
| Coordinator.SettingsEcho | custom_components/htram/coordinator.py:196-207 | a settings reply echoing the six value bytes of an alarm-threshold frame decodes to the values sent, modulo 2^16 |
| Coordinator.MuteCommandsDecode | custom_components/htram/coordinator.py:209-214 | the command `async_set_mute` sends carries, at byte 9, the flag the sound decoder reads back as the requested mute state |
| Coordinator.Route | custom_components/htram/coordinator.py:81-97 | a notification under 6 bytes changes nothing; otherwise each of the three slots takes the frame exactly when the slot is empty and the frame's id is the slot's, and other ids are dropped |
| Coordinator.FirstWithIdAppend | custom_components/htram/coordinator.py:81-97 | one more notification changes the first match only when there was none before |
| Coordinator.FirstWithIdConcat | custom_components/htram/coordinator.py:77-97 | the first match in two runs in a row is that of the first run, if it has one |
| Coordinator.DeliverAllFirst | custom_components/htram/coordinator.py:81-97 | after any run of notifications, a slot that was set keeps its frame and an empty slot holds the first frame of the run with its id: the first reply wins |
| Coordinator.ComputeCrc16 | custom_components/htram/coordinator.py:399-410 | `_crc16` is the CRC-16 with poly 0x8005, init 0, no reflection, of its input, and 0 for empty input |
| Coordinator.AlarmFrame | custom_components/htram/coordinator.py:322-340 | the alarm frame is the 10-byte head and the three values high byte first, sealed with its poly-0x8005 CRC high byte first and 0x7D |
| Coordinator.AlarmPacketReads | custom_components/htram/coordinator.py:322-340 | an alarm frame is framed with length byte 0x0F and id 0x4243, carries its CRC, and its values at 10..15 read back modulo 2^16 |
| Coordinator.ScreenOffFrame | custom_components/htram/coordinator.py:356-365 | the screen-off frame is its 10-byte head and the minutes high byte first, sealed with the poly-0x8005 CRC high byte first and 0x7D |
| Coordinator.ScreenOffPacketReads | custom_components/htram/coordinator.py:356-365 | a screen-off frame is framed with length byte 0x0B and id 0x4243, carries its CRC, and its value at 10..11 reads back modulo 2^16 |
| Coordinator.SyncTimeFrame | custom_components/htram/coordinator.py:380-394 | the time frame is its 7-byte head and the six time bytes, sealed with the poly-0x8005 CRC and 0x7D |
| Coordinator.TimePacketReads | custom_components/htram/coordinator.py:380-394 | a time frame is framed with length byte 0x0C and id 0x2242, carries its CRC, and bytes 7..12 are year % 100, month, day, hour, minute and second |
| Coordinator.PolledDataKeeps | custom_components/htram/coordinator.py:108-133 | whatever replies arrive, a poll keeps the stored values in range and never touches the temperature unit |
| Coordinator.PolledRealtime | custom_components/htram/coordinator.py:108-112 | a poll that gets through every step with a realtime reply in the first wait stores exactly that reply's readings |
| Coordinator.SoundSlot | custom_components/htram/coordinator.py:117-121 | the sound reply decoded is the first sound reply that arrived in the first two waits |
| Coordinator.SettingsSlot | custom_components/htram/coordinator.py:126-130 | the settings reply decoded is the first settings reply that arrived in any of the three waits |
| Coordinator.HtramCoordinator.constructor | custom_components/htram/coordinator.py:45-46 | the coordinator starts with an empty dictionary, no client and nothing written |
| Coordinator.HtramCoordinator.Cleanup | custom_components/htram/coordinator.py:155-162 | `_cleanup_client` always ends with no client, never fails, and changes nothing else |
| Coordinator.HtramCoordinator.ParseRealtime | custom_components/htram/coordinator.py:164-187 | `_parse_realtime` updates the dictionary as `ApplyRealtime` and keeps its value ranges |
| Coordinator.HtramCoordinator.ParseSound | custom_components/htram/coordinator.py:189-194 | `_parse_sound` updates the dictionary as `ApplySound` |
| Coordinator.HtramCoordinator.ParseSettings | custom_components/htram/coordinator.py:196-207 | `_parse_settings` updates the dictionary as `ApplySettings` |
| Coordinator.HtramCoordinator.SendCommand | custom_components/htram/coordinator.py:225-252 | the command is written exactly when a connected client is reused or a new connection comes up, and the write succeeds; a new client is kept even when its write fails; a connect failure is reported as such; `data` is untouched |
| Coordinator.HtramCoordinator.SetMute | custom_components/htram/coordinator.py:209-215 | sends the sound-off frame to mute or the sound-on frame to unmute; mute is recorded only after a successful send, and a failed send changes neither `data` nor what was written |
| Coordinator.HtramCoordinator.SetTempUnit | custom_components/htram/coordinator.py:217-223 | sends the Celsius or Fahrenheit frame; "C" or "F" is recorded only after a successful send |
| Coordinator.HtramCoordinator.SetAlarmThresholds | custom_components/htram/coordinator.py:300-348 | missing arguments come from the stored values or 800, 1000 and 0; the call is refused with nothing sent exactly when low >= high; otherwise it writes one alarm frame for the three values and, once sent, stores exactly those three values |
| Coordinator.HtramCoordinator.SetScreenOff | custom_components/htram/coordinator.py:350-369 | writes one screen-off frame for the minutes and, once sent, stores screen_off and nothing else |
| Coordinator.HtramCoordinator.SyncTime | custom_components/htram/coordinator.py:371-397 | writes one time frame for the given UTC time and leaves the dictionary alone |
| Coordinator.HtramCoordinator.Poll | custom_components/htram/coordinator.py:48-153 | the update fails exactly when a step raises (a kept client cannot fail to connect), or when the realtime reply timed out and the 30-second guard fires during the recycle's `disconnect`; it reports that step's `except` clause, a timeout for the recycle; it writes the heartbeat and the requests before the failing step; `data` holds the replies decoded up to it; the client is dropped exactly on failure or when the realtime reply timed out |
| Coordinator.HtramCoordinator.Exchange | custom_components/htram/coordinator.py:58-135 | the body of the update's `try`: which step it reaches, what it writes and decodes, the client it connects, and that the realtime timeout flag is set exactly when no realtime reply arrived |
| Coordinator.HtramCoordinator.Requests | custom_components/htram/coordinator.py:106-135 | the three request rounds and `stop_notify`: the requests written and the replies decoded up to the failing step |
| Coordinator.HtramCoordinator.RealtimeRound | custom_components/htram/coordinator.py:108-115 | writes the realtime request, decodes the first realtime reply of the first wait, and reports a timeout exactly when there is none |
| Coordinator.HtramCoordinator.SoundRound | custom_components/htram/coordinator.py:117-124 | writes the sound request and decodes the first sound reply that arrived so far |
| Coordinator.HtramCoordinator.SettingsRound | custom_components/htram/coordinator.py:126-133 | writes the settings request and decodes the first settings reply that arrived so far |
| VerifyProtocol.SameLiterals | verify_protocol.py:11-13 | the probe's three requests are byte for byte the integration's realtime, settings and sound requests |
| VerifyProtocol.BitwiseCrc16 | verify_protocol.py:69-79 | the probe's `crc16` is the CRC-16/XMODEM of its input, and 0 for empty input |
| VerifyProtocol.Handle | verify_protocol.py:18-67 | a notification under 6 bytes is ignored; the handler raises exactly on a realtime id with under 13 bytes or a sound id with under 10 bytes; realtime values are in range; the mute label is "OFF" or "ON" |
| VerifyProtocol.RealtimeAgrees | verify_protocol.py:30-62 | the probe and the coordinator read the same CO2, temperature, humidity and charging flag; the coordinator's battery is the probe's percentage capped at 100 |
| VerifyProtocol.SoundAgrees | verify_protocol.py:64-67 | the two programs disagree on byte 9: the probe prints "Mute State: OFF" exactly on the replies for which the coordinator stores mute as true |
| VerifyProtocol.DecodesWhatCoordinatorRoutes | verify_protocol.py:22-30 | the probe decodes a notification only when the coordinator would route it to the realtime or sound slot, does so whenever the frame is long enough, and ignores settings replies |

## Left out

- BLE transport and async machinery: `establish_connection`, `start_notify`/`stop_notify`, `write_gatt_char`, `disconnect`, the futures, `wait_for`, `sleep` and `async_timeout`. Their outcomes are the parameters `Link` and `PollEnv` described above. The order of concurrent events within one wait is the order of its notification window.
- Concurrency between coroutines: the model runs the update and each setter as one atomic step, one after another. The source can interleave them at every `await`. Two effects are not captured. First, a mute set while the poll waits for the sound reply (custom_components/htram/coordinator.py:120): `async_set_mute` stores the new `mute` (line 214), and then `_parse_sound` (line 121) overwrites it with the older reply. Second, a `_send_command` that runs while the poll is inside `establish_connection` (line 71): it opens a second connection, and whichever `self._client = client` assignment comes last wins.
- The re-discovery of the BLE device by address before each poll and send: it only chooses the device object a new connection uses, so it is folded into the client a connection returns.
- `datetime.utcnow()` in `async_sync_time`: the time is a parameter with the ranges `datetime` guarantees.
- `base64.b64decode`, its fallback, and the UTF-8 `.encode` calls: the key, IV, server, SSID and password are byte sequences.
- `CRC16.CRC16_TABLE` and `get_crc_table_value`: no code path calls them, and their entries are not a valid table (negative values and values above 0xFFFF).
- The first `async_set_screen_off` (custom_components/htram/coordinator.py:256-298): the second definition at line 350 replaces it when the class is created, so it never runs.
- Logging, `async_update_listeners` and the probe's `print` calls: they have no effect on state. The probe's printed lines are the `Notice` value its handler returns.
- Utils.CrcOfByte: the source's `i2` is an unbounded integer that grows past 16 bits inside the loop. The model keeps it in 16 bits. Bits above bit 15 never move down, and the result is masked with 0xFFFF, so the value returned is the same.
- The `data` dictionary has a fixed set of keys, each with one value type. It is a record with one optional field per key, and a missing key is `None`.
- `run` and `scan` in `verify_protocol.py`, `debug_pairing.py`, `config_flow.py` and the entity modules (sensor, switch, number, select, binary sensor, button, setup): interactive scripts and Home Assistant glue outside the protocol core.

The probe and the coordinator read byte 9 of a sound reply in opposite ways. The probe calls the byte the mute state and prints "Mute State: OFF" when it is 0. For the same byte the coordinator stores mute as true. The command frames agree with the coordinator: `CMD_SET_SOUND_OFF`, which `async_set_mute(True)` sends, carries 0 at byte 9 (`Commands.SoundPair`, `Coordinator.MuteCommandsDecode`). So the probe's label is the opposite of the coordinator's mute state. `VerifyProtocol.SoundAgrees` states exactly this: the probe prints "OFF" on the replies for which the coordinator stores mute as true.
