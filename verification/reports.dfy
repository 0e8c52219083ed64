/**
  Decoding of the input report delivered to `Callback`. Fields are read by
  fixed offset: byte 1 is the report kind, bytes 3-4 the big-endian voltage in
  millivolts, byte 5 the charging flag. `Callback` indexes the array without a
  length check, so a short report raises at the first missing index; the
  `Truncated` outcome records how far decoding got.
 */
module Reports {
  import opened Bytes
  import opened Wrappers

  /** Kind of an intermediate report: read again. */
  const KindReadAgain: byte := 0x04
  /** Kind of a failed reading: the voltage is forced to 0. */
  const KindNoReading: byte := 0xFF
  /** Value of byte 5 that means the headset is charging. */
  const FlagCharging: byte := 0x03

  datatype Decoded =
    | ReadAgain
      /** Indexing ran past the end; `partial` is the voltage if it was already decoded. */
    | Truncated(partial: Option<int>)
    | Reading(voltage: int, charging: bool)

  /**
    The big-endian voltage `(hi << 8) | lo`; C# promotes both bytes to `int`,
    so nothing is lost. `ShiftOrIsMulAdd` relates the bitwise form to this one.
   */
  function ComposeVoltage(hi: byte, lo: byte): (v: int)
    ensures 0 <= v <= 65535
    ensures v / 256 == hi && v % 256 == lo
  {
    hi * 256 + lo
  }

  /** On two bytes widened to 16 bits, shifting and or-ing is multiplying and adding. */
  lemma ShiftOrIsMulAdd(hi: byte, lo: byte)
    ensures ((hi as bv16) << 8) | (lo as bv16) == (hi as bv16) * 256 + (lo as bv16)
  {
  }

  function ReportVoltage(data: seq<byte>): int
    requires |data| >= 5
  {
    if data[1] == KindNoReading then 0 else ComposeVoltage(data[3], data[4])
  }

  function Decode(data: seq<byte>): (d: Decoded)
    ensures d.ReadAgain? <==> |data| >= 2 && data[1] == KindReadAgain
    ensures d.Reading? <==> |data| >= 6 && data[1] != KindReadAgain
    ensures d.Truncated? && d.partial.Some? <==> |data| == 5 && data[1] != KindReadAgain
    ensures d.Reading? ==> 0 <= d.voltage <= 65535
    ensures d.Reading? && data[1] == KindNoReading ==> d.voltage == 0
    ensures d.Reading? && data[1] != KindNoReading ==> d.voltage == data[3] as int * 256 + data[4] as int
    ensures d.Reading? ==> (d.charging <==> data[5] == FlagCharging)
    ensures d.Truncated? && d.partial.Some? ==>
              d.partial.value == (if data[1] == KindNoReading then 0 else data[3] as int * 256 + data[4] as int)
  {
    if |data| < 2 then Truncated(None)
    else if data[1] == KindReadAgain then ReadAgain
    else if |data| < 5 then Truncated(None)
    else if |data| < 6 then Truncated(Some(ReportVoltage(data)))
    else Reading(ReportVoltage(data), data[5] == FlagCharging)
  }

  /** A 0xFF report reads as voltage 0 whatever its voltage bytes hold. */
  lemma NoReadingIgnoresVoltageBytes(data: seq<byte>, hi: byte, lo: byte)
    requires |data| >= 6 && data[1] == KindNoReading
    ensures Decode(data[3 := hi][4 := lo]) == Decode(data)
    ensures Decode(data).voltage == 0
  {
  }
}
