/**
  The two 20-byte HID output reports the tray application writes: the battery
  query sent by `UpdateUSB` and the sidetone toggle sent on a left click. Both
  start with report id 0x11 and device index 0xFF, then a feature/function
  byte pair, then parameters and zero padding.
 */
module Frames {
  import opened Bytes
  import opened Wrappers

  const FrameLength: nat := 20

  /** Sidetone level byte written when switching sidetone to full. */
  const SidetoneFullLevel: byte := 0x64

  /** What an output frame asks of the headset. */
  datatype Request = BatteryQuery | SetSidetone(full: bool)

  predicate ZeroFrom(f: seq<byte>, k: nat) {
    forall i :: k <= i < |f| ==> f[i] == 0
  }

  /** `UpdateUSB`: a zeroed 20-byte array with its first four bytes set. */
  function BatteryQueryFrame(): (f: seq<byte>)
    ensures |f| == FrameLength
    ensures f[..4] == [0x11, 0xFF, 0x08, 0x0A]
    ensures ZeroFrom(f, 4)
  {
    seq(20, _ => 0)[0 := 0x11][1 := 0xFF][2 := 0x08][3 := 0x0A]
  }

  /**
    The left-click frame, built from the sidetone state BEFORE the click:
    level 0x64 when sidetone was off, 0x00 when it was full.
   */
  function SidetoneFrame(wasFull: bool): (f: seq<byte>)
    ensures |f| == FrameLength
    ensures f[..4] == [0x11, 0xFF, 0x07, 0x1F]
    ensures f[4] == SidetoneFullLevel <==> !wasFull
    ensures f[4] == 0 <==> wasFull
    ensures ZeroFrom(f, 5)
  {
    [0x11, 0xFF, 0x07, 0x1F, if wasFull then 0x00 else SidetoneFullLevel,
     0, 0, 0, 0, 0, 0, 0, 0, 0, 0, 0, 0, 0, 0, 0]
  }

  /** Recognises the two frames; partner of the two encoders. */
  function DecodeRequest(f: seq<byte>): (r: Option<Request>)
    ensures r == Some(BatteryQuery) ==> f == BatteryQueryFrame()
    ensures r.Some? && r.value.SetSidetone? ==> f == SidetoneFrame(!r.value.full)
  {
    if |f| != FrameLength || f[0] != 0x11 || f[1] != 0xFF then None
    else if f[2] == 0x08 && f[3] == 0x0A && ZeroFrom(f, 4) then
      assert f == BatteryQueryFrame();
      Some(BatteryQuery)
    else if f[2] == 0x07 && f[3] == 0x1F && (f[4] == 0 || f[4] == SidetoneFullLevel) && ZeroFrom(f, 5) then
      assert f == SidetoneFrame(f[4] == 0);
      Some(SetSidetone(f[4] == SidetoneFullLevel))
    else None
  }

  /** Both encoders are inverted by `DecodeRequest`, so the frames are pairwise distinct. */
  lemma FramesDecode(wasFull: bool)
    ensures DecodeRequest(BatteryQueryFrame()) == Some(BatteryQuery)
    ensures DecodeRequest(SidetoneFrame(wasFull)) == Some(SetSidetone(!wasFull))
  {
    var q := BatteryQueryFrame();
    var s := SidetoneFrame(wasFull);
    assert q[2] == 0x08 && q[3] == 0x0A;
    assert s[2] == 0x07 && s[3] == 0x1F && s[4] == (if wasFull then 0 else SidetoneFullLevel);
  }
}
