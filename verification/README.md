# HeadsetControl tray: device protocol and status logic

A Dafny model of the core of the Windows tray application that shows the battery level and
sidetone state of a Logitech wireless headset (vendor 0x046D, product 0x0AB5). It leaves out the
WinForms and HID plumbing and models these parts:

- **Request frames** (`frames.dfy`). These are the two 20-byte HID output reports. The battery query
  `11 FF 08 0A 00…` is written by `UpdateUSB`. The sidetone toggle `11 FF 07 1F <level> 00…` is written
  on a left click. Its level is `0x64` when sidetone was off before the click and `0x00` when it was
  full. A recogniser maps each frame back to the request it encodes.
- **Report decoding** (`reports.dfy`). This is what `Callback` reads from an input report:
  - Kind `0x04` means "read again".
  - Bytes 3–4 are a big-endian voltage in millivolts.
  - Kind `0xFF` forces the voltage to 0.
  - Byte 5 equal to `0x03` means charging.
  - `Callback` indexes the report without a length check, so a short report raises at the first
    missing index. The model records how far decoding got before that.
- **Voltage-to-battery mapping** (`battery.dfy`). `map` is a linear interpolation through
  (3550 mV, 1) and (4160 mV, 100). A zero voltage then gives the 0 sentinel, and the result is
  clamped to [0, 99].
- **Icon selection** (`icon.dfy`). A zero battery shows a single dash. Otherwise the two digits are
  coloured from the sidetone and charging flags.
- **Poll and toggle state machine** (`tray.dfy`, `runs.dfy`). The state is `_waitingForReport`,
  `_battery`, `_charging`, `_sidetoneFull` and whether a headset was opened at startup. The events
  are:
  - a timer tick, a double click and a middle click, which all run `UpdateUSB`;
  - a left click, which toggles sidetone;
  - a read completion, which runs `Callback`.

  Each handler is a pure function. It returns the next state and the ordered effects: frames
  written, reads issued with their timeouts, and glyphs rendered. It also reports whether the
  handler ended by raising an exception. The HID library is reduced to these effects. Whether its
  `Write` or `ReadReport` call raised is a parameter of the poll. Whether the follow-up
  `ReadReport` after a `0x04` report raised is a parameter of the read completion.
- **Hex dump** (`bytes.dfy`). `ByteArrayToString` prints each byte as two lowercase hex digits. A
  parser inverts it.

`Run` feeds a sequence of events to the handlers. The lemmas in `runs.dfy` are about such runs:
- the gate drops polls while a report is awaited;
- a burst of polls writes one query;
- `_battery` stays within [0, 99];
- without a headset nothing is written or read;
- two left clicks restore the sidetone state;
- an end-to-end poll with a 3920 mV charging report.

## Behaviour of the code worth knowing

- **Short reports.** `Callback` indexes `report.Data[1]`, `[3]`, `[4]` and `[5]` without a length
  check (NotifyIconApplicationContext.cs:172-197). A short report therefore raises
  `IndexOutOfRangeException` at the first missing index. A five-byte report has already stored the
  new `_battery` when it raises. `_charging` is untouched and no icon is drawn. See
  `TrayApp.Callback` and `Reports.Decode`.
- **The `0x04` report and the gate.** `Callback` clears `_waitingForReport` on its first line
  (NotifyIconApplicationContext.cs:170), before the `0x04` test. A left click clears it too,
  because it calls `UpdateIcon` (NotifyIconApplicationContext.cs:117, 213). A poll during the
  follow-up read therefore writes a second query. `Runs.ReadAgainReopensGate` and
  `Runs.ToggleReopensGate` prove both.
- **The mapped value at 3920 mV.** `map(3920)` is 1 + 370·99/610 ≈ 61.05, as
  `Runs.SampleReportEndToEnd` proves.
- **The battery value.** `_battery` is a `float`, stored clamped but unrounded. The model uses `real`.
- **Left click without a device.** The click flips `_sidetoneFull` and then calls `WriteReport` on
  the null device, so it raises before drawing (NotifyIconApplicationContext.cs:115-116).

## Model

| member | source | states |
|---|---|---|
| Bytes.ByteArrayToString | NotifyIconApplicationContext.cs:160-166 | the dump has two characters per byte; the characters at 2i and 2i+1 are byte i's high and low nibble in lowercase hex; parsing the dump gives the bytes back |
| Bytes.ParseHexOfHex | NotifyIconApplicationContext.cs:160-166 | round trip: parsing the hex dump of any byte sequence returns exactly that sequence |
| Bytes.HexLayout | NotifyIconApplicationContext.cs:163-164 | the dump is twice as long as the input, and each byte's `{0:x2}` text sits at offset 2i |
| Frames.BatteryQueryFrame | NotifyIconApplicationContext.cs:142-146 | the query frame has 20 bytes, starts 11 FF 08 0A, and every later byte is 0 |
| Frames.SidetoneFrame | NotifyIconApplicationContext.cs:110 | the toggle frame has 20 bytes and starts 11 FF 07 1F; byte 4 is 0x64 exactly when sidetone was off before the click and 0 exactly when it was full; every later byte is 0 |
| Frames.DecodeRequest | NotifyIconApplicationContext.cs:110-112 | a frame recognised as the battery query is the query frame; a frame recognised as "set sidetone to full/off" is the toggle frame built from the opposite prior state |
| Frames.FramesDecode | NotifyIconApplicationContext.cs:142-147 | both encoders are inverted by the recogniser, so the query and the two toggle frames are distinct requests |
| Reports.ComposeVoltage | NotifyIconApplicationContext.cs:178 | the voltage from bytes 3 and 4 lies in [0, 65535], its high byte is byte 3 and its low byte is byte 4 |
| Reports.ShiftOrIsMulAdd | NotifyIconApplicationContext.cs:178 | in 16-bit arithmetic, shifting byte 3 left by 8 and or-ing in byte 4 equals byte3·256 + byte4 |
| Reports.Decode | NotifyIconApplicationContext.cs:168-197 | byte 1 == 0x04 (with at least 2 bytes) means read again; at least 6 bytes otherwise give a reading whose voltage is byte3·256+byte4, or 0 when byte 1 is 0xFF, and whose charging flag is true iff byte 5 is 0x03; a 5-byte report gets as far as the voltage, which has the same value a full report would give; anything shorter is truncated |
| Reports.NoReadingIgnoresVoltageBytes | NotifyIconApplicationContext.cs:179-180 | a 0xFF report decodes to voltage 0 whatever its voltage bytes hold |
| Battery.MapEndpoints | NotifyIconApplicationContext.cs:202-205 | `map` passes through both calibration points (from1, to1) and (from2, to2) |
| Battery.MapMonotone | NotifyIconApplicationContext.cs:202-205 | with rising calibration points, `map` is non-decreasing in its input |
| Battery.Level | NotifyIconApplicationContext.cs:188-195 | the stored battery always lies in [0, 99] and is 0 when the voltage is 0 |
| Battery.LevelInCalibratedRange | NotifyIconApplicationContext.cs:188-195 | every voltage in [3550, 4160] gives a battery in [1, 99], never the sentinel |
| Battery.LevelMonotone | NotifyIconApplicationContext.cs:188-195 | a higher voltage never gives a lower battery |
| Battery.LevelZeroIff | NotifyIconApplicationContext.cs:188-195 | the battery is the 0 sentinel exactly for voltages up to 3543 mV |
| Battery.LevelCapIff | NotifyIconApplicationContext.cs:188-195 | the battery is capped at 99 exactly for voltages from 4154 mV up |
| Icon.SelectGlyph | NotifyIconApplicationContext.cs:221-242 | battery 0 selects the dash; otherwise the left digit is the charging colour iff charging, the sidetone colour iff sidetone without charging; the right digit is the sidetone colour iff sidetone, the charging colour iff charging without sidetone |
| Icon.PlainDigitsIff | NotifyIconApplicationContext.cs:226-242 | a digit stays in the default text colour exactly when neither flag is set |
| Icon.DigitsDifferIff | NotifyIconApplicationContext.cs:227-231 | the two digits differ in colour exactly when sidetone and charging are both set |
| TrayApp.UpdateIcon | NotifyIconApplicationContext.cs:209-250 | clears the gate and changes nothing else in the status; emits exactly one render and no device write or read; the glyph is the dash exactly when the battery is 0, and otherwise the digits get the colours the sidetone and charging flags select in the colour table |
| TrayApp.UpdateUsb | NotifyIconApplicationContext.cs:128-158 | a write happens only with the gate open and a device present, and it is the battery query. With the gate closed or no device, nothing changes and nothing is emitted. On success the gate closes, and the effects are exactly the write followed by one 500 ms read, with no redraw. If the write raises, the only effect is the dash redraw. If the read raises, the effects are the write and then the dash redraw. In both raise cases the battery becomes 0 with the gate open. Charging and sidetone never change |
| TrayApp.Callback | NotifyIconApplicationContext.cs:168-200 | every completion leaves the gate open and writes nothing. A 0x04 report keeps battery and charging. With a device present and a follow-up `ReadReport` that does not raise, its only effect is one read with no timeout. Otherwise it emits nothing and raises. A full report stores the mapped level and the charging flag and draws them. A truncated report emits nothing and keeps charging; it keeps the battery unless it reached the voltage, in which case it stores the mapped level. The handler raises exactly on a truncated report, or on a 0x04 report with no device or a raising follow-up read. The battery bound is preserved |
| TrayApp.OnMouseClick | NotifyIconApplicationContext.cs:106-124 | a left click flips sidetone and keeps battery and charging. With a device present it writes the toggle frame built from the prior state, redraws the icon with the flipped sidetone colour, and opens the gate. Without a device it emits nothing and raises. A middle click is a poll; another button does nothing |
| TrayApp.Handle | NotifyIconApplicationContext.cs:79-85 | every event keeps the device handle and the battery bound, and without a device never closes the gate |
| Runs.RunKeepsBatteryInRange | NotifyIconApplicationContext.cs:188-195 | from a state with battery in [0, 99], any event sequence keeps it in [0, 99] and keeps the device handle; without a device the gate stays open |
| Runs.StartupInRange | NotifyIconApplicationContext.cs:99-103 | the constructor's first poll leaves the battery in range, never raises, and without a device leaves the initial state with no effects |
| Runs.GateDropsPolls | NotifyIconApplicationContext.cs:130-131 | while a report is awaited, any sequence of polls changes nothing and emits nothing |
| Runs.PollBurstWritesOnce | NotifyIconApplicationContext.cs:130-148 | a burst of successful polls from an open gate writes the query exactly once, issues one 500 ms read, and leaves the gate closed |
| Runs.AbsentDeviceStaysSilent | NotifyIconApplicationContext.cs:134-138 | without a device, no sequence of polls and clicks writes, reads, or changes battery or charging |
| Runs.ToggleTwiceRestores | NotifyIconApplicationContext.cs:110-117 | two left clicks restore the sidetone flag, keep battery and charging, and write the two toggle frames with different level bytes |
| Runs.ReadAgainReopensGate | NotifyIconApplicationContext.cs:170-176 | poll, 0x04 report, poll: two query writes and reads with timeouts 500, none, 500, with battery and charging unchanged |
| Runs.ToggleReopensGate | NotifyIconApplicationContext.cs:115-117 | poll, left click, poll: the second poll writes again, because the click's icon update cleared the gate |
| Runs.SampleReportEndToEnd | NotifyIconApplicationContext.cs:168-199 | a poll answered by a charging report at 0x0F50 decodes to 3920 mV, stores a battery strictly between 61 and 62 with charging set, and draws both digits in the charging colour |

## Left out

- HID enumeration and opening (NotifyIconApplicationContext.cs:89-96). This covers the "exactly four devices" test and the choice by usage 514. It is library I/O, so whether a headset was opened is a field of the state.
- `ReadReport` mechanics (NotifyIconApplicationContext.cs:148, 174). The asynchronous callback, threading and the 500 ms timeout live in HidLibrary, which is not part of this model. A completion is an explicit event carrying the report bytes. The timeout is recorded on the issued read only. What the library delivers on a timeout is not modelled; an empty report would decode as truncated.
- Error results from HidLibrary's `Write` (NotifyIconApplicationContext.cs:147). `UpdateUSB` ignores `Write`'s return value, so a failed write that does not raise behaves as `Completed`.
- TrayApp.OnMouseClick: exceptions raised by `WriteReport` on a present device are not modelled. Only the null-device case raises.
- Battery.Level: computes in exact reals. The C# code's 32-bit `float` rounding in `map` and the stored `_battery` is not modelled.
- Digit text. `_battery.ToString().PadLeft(2, '0')` and the two characters drawn from it are float formatting. The glyph carries only the two colours.
- GDI rendering: fonts, bitmap, `DrawString` offsets, `GetHicon` and `DestroyIcon`. Only the glyph and colour choice is modelled.
- The timer, the context menu (including the voltage shown in it, NotifyIconApplicationContext.cs:186), the timer restart on double click, `Exit`, and the `Console`/`Debug` output. These are UI and process plumbing. `ByteArrayToString` itself is modelled; only its output to the debug log is left out.
- The `_regex` field (NotifyIconApplicationContext.cs:72). It is built but never used.
- Process fate after an unhandled exception. `Run` keeps the state reached before the throw and carries on with later events.
