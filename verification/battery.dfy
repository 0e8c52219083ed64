/**
  The voltage-to-battery mapping: linear interpolation from 3550 mV (1) to
  4160 mV (100), then a 0 sentinel for a zero voltage and a clamp to [0, 99].
  The C# code computes in `float`; here the arithmetic is exact.
 */
module Battery {

  const VoltageEmpty: real := 3550.0
  const VoltageFull: real := 4160.0
  const LevelEmpty: real := 1.0
  const LevelFull: real := 100.0
  /** Highest level the two-digit icon shows. */
  const LevelCap: real := 99.0

  /** `map`: the straight line through (from1, to1) and (from2, to2), evaluated at s. */
  function Map(s: real, from1: real, from2: real, to1: real, to2: real): real
    requires from1 != from2
  {
    to1 + (s - from1) * (to2 - to1) / (from2 - from1)
  }

  /** The line passes through both calibration points. */
  lemma MapEndpoints(from1: real, from2: real, to1: real, to2: real)
    requires from1 != from2
    ensures Map(from1, from1, from2, to1, to2) == to1
    ensures Map(from2, from1, from2, to1, to2) == to2
  {
    ScaleBy(from2 - from1, to2 - to1, from2 - from1);
  }

  /** Real division regroups: a * d / c is a times the slope d / c. */
  lemma ScaleBy(a: real, d: real, c: real)
    requires c != 0.0
    ensures a * d / c == a * (d / c)
    ensures c * (d / c) == d
  {
  }

  /** A line with rising endpoints rises everywhere. */
  lemma MapMonotone(s: real, t: real, from1: real, from2: real, to1: real, to2: real)
    requires from1 < from2 && to1 <= to2 && s <= t
    ensures Map(s, from1, from2, to1, to2) <= Map(t, from1, from2, to1, to2)
  {
    var k := (to2 - to1) / (from2 - from1);
    assert k >= 0.0;
    ScaleBy(s - from1, to2 - to1, from2 - from1);
    ScaleBy(t - from1, to2 - to1, from2 - from1);
    var a := (s - from1) * k;
    var b := (t - from1) * k;
    assert b - a == (t - s) * k;
    assert (t - s) * k >= 0.0;
    assert Map(s, from1, from2, to1, to2) == to1 + a;
    assert Map(t, from1, from2, to1, to2) == to1 + b;
  }

  /** The value `Callback` stores in `_battery` for a decoded voltage. */
  function Level(voltage: int): (b: real)
    ensures 0.0 <= b <= LevelCap
    ensures voltage == 0 ==> b == 0.0
  {
    var mapped := Map(voltage as real, VoltageEmpty, VoltageFull, LevelEmpty, LevelFull);
    var sentinel := if voltage == 0 then 0.0 else mapped;
    var floored := if sentinel < 0.0 then 0.0 else sentinel;
    if floored > LevelCap then LevelCap else floored
  }

  /** Off the sentinel, `Level` is the line clamped to [0, 99]. */
  lemma LevelIsClampedLine(voltage: int)
    requires voltage != 0
    ensures var m := 1.0 + (voltage as real - 3550.0) * 99.0 / 610.0;
            Level(voltage) == if m < 0.0 then 0.0 else if m > 99.0 then 99.0 else m
  {
  }

  /** Every voltage in the calibrated range shows a real reading, never the sentinel. */
  lemma LevelInCalibratedRange(voltage: int)
    requires 3550 <= voltage <= 4160
    ensures 1.0 <= Level(voltage) <= LevelCap
  {
    LevelIsClampedLine(voltage);
  }

  /** Higher voltage never shows a lower level. */
  lemma LevelMonotone(v: int, w: int)
    requires 0 <= v <= w
    ensures Level(v) <= Level(w)
  {
    if v != 0 {
      MapMonotone(v as real, w as real, VoltageEmpty, VoltageFull, LevelEmpty, LevelFull);
    }
  }

  /** The level is the 0 sentinel exactly for voltages up to 3543 mV. */
  lemma LevelZeroIff(voltage: int)
    requires voltage >= 0
    ensures Level(voltage) == 0.0 <==> voltage <= 3543
  {
    if voltage != 0 {
      LevelIsClampedLine(voltage);
      if voltage <= 3543 {
        assert (voltage as real - 3550.0) * 99.0 <= -693.0;
      } else {
        assert (voltage as real - 3550.0) * 99.0 >= -594.0;
      }
    }
  }

  /** The level is capped at 99 exactly for voltages from 4154 mV up. */
  lemma LevelCapIff(voltage: int)
    requires voltage >= 0
    ensures Level(voltage) == LevelCap <==> voltage >= 4154
  {
    if voltage != 0 {
      LevelIsClampedLine(voltage);
      if voltage >= 4154 {
        assert (voltage as real - 3550.0) * 99.0 >= 59796.0;
      } else {
        assert (voltage as real - 3550.0) * 99.0 <= 59697.0;
      }
    }
  }
}
