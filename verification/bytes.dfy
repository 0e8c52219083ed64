/**
  Bytes as the tray application sees them, and the lowercase hexadecimal dump
  (`ByteArrayToString`) it writes to the debug log for every decoded report.
 */
module Bytes {
  import opened Wrappers

  /** An unsigned 8-bit value, the C# `byte`. */
  type byte = x: int | 0 <= x < 256

  predicate IsLowerHexDigit(c: char) {
    '0' <= c <= '9' || 'a' <= c <= 'f'
  }

  /** The character `{0:x2}` prints for a nibble. */
  function HexDigit(n: int): (c: char)
    requires 0 <= n < 16
    ensures IsLowerHexDigit(c)
  {
    if n < 10 then ('0' as int + n) as char else ('a' as int + (n - 10)) as char
  }

  /** Reads one lowercase hex digit back; partner of `HexDigit`. */
  function HexValue(c: char): (r: Option<int>)
    ensures r.Some? <==> IsLowerHexDigit(c)
    ensures r.Some? ==> 0 <= r.value < 16 && HexDigit(r.value) == c
  {
    if '0' <= c <= '9' then Some(c as int - '0' as int)
    else if 'a' <= c <= 'f' then Some(c as int - 'a' as int + 10)
    else None
  }

  lemma DigitRoundTrip(n: int)
    requires 0 <= n < 16
    ensures HexValue(HexDigit(n)) == Some(n)
  {
  }

  /** The two characters `{0:x2}` prints for one byte, high nibble first. */
  function ByteHex(b: byte): (s: string)
    ensures |s| == 2 && IsLowerHexDigit(s[0]) && IsLowerHexDigit(s[1])
  {
    [HexDigit(b / 16), HexDigit(b % 16)]
  }

  /** Reference definition of the dump: the two-character forms of the bytes, in order. */
  function Hex(ba: seq<byte>): (s: string)
    decreases |ba|
  {
    if |ba| == 0 then "" else Hex(ba[..|ba| - 1]) + ByteHex(ba[|ba| - 1])
  }

  /** Parses a dump back into bytes; `None` for odd length or a non-hex character. */
  function ParseHex(s: string): (r: Option<seq<byte>>)
    decreases |s|
  {
    if |s| == 0 then Some([])
    else if |s| == 1 then None
    else
      match (ParseHex(s[..|s| - 2]), HexValue(s[|s| - 2]), HexValue(s[|s| - 1]))
      case (Some(prefix), Some(hi), Some(lo)) => Some(prefix + [hi * 16 + lo])
      case _ => None
  }

  /** The StringBuilder loop: one `{0:x2}` per byte, in array order. */
  method ByteArrayToString(ba: seq<byte>) returns (hex: string)
    ensures |hex| == 2 * |ba|
    ensures forall i :: 0 <= i < |ba| ==> hex[2 * i..2 * i + 2] == ByteHex(ba[i])
    ensures ParseHex(hex) == Some(ba)
  {
    hex := "";
    var i := 0;
    while i < |ba|
      invariant 0 <= i <= |ba|
      invariant hex == Hex(ba[..i])
    {
      assert ba[..i + 1][..i] == ba[..i];
      hex := hex + ByteHex(ba[i]);
      i := i + 1;
    }
    assert ba[..|ba|] == ba;
    HexLayout(ba);
    ParseHexOfHex(ba);
  }

  lemma {:induction false} HexLayout(ba: seq<byte>)
    ensures |Hex(ba)| == 2 * |ba|
    ensures forall i :: 0 <= i < |ba| ==> Hex(ba)[2 * i..2 * i + 2] == ByteHex(ba[i])
    decreases |ba|
  {
    if |ba| > 0 {
      var init := ba[..|ba| - 1];
      HexLayout(init);
      forall i | 0 <= i < |ba|
        ensures Hex(ba)[2 * i..2 * i + 2] == ByteHex(ba[i])
      {
        if i < |ba| - 1 {
          assert Hex(ba)[2 * i..2 * i + 2] == Hex(init)[2 * i..2 * i + 2];
          assert init[i] == ba[i];
        }
      }
    }
  }

  /** Round trip: parsing the dump of any byte sequence gives the bytes back. */
  lemma {:induction false} ParseHexOfHex(ba: seq<byte>)
    ensures ParseHex(Hex(ba)) == Some(ba)
    decreases |ba|
  {
    if |ba| > 0 {
      var init := ba[..|ba| - 1];
      var b := ba[|ba| - 1];
      var s := Hex(ba);
      HexLayout(init);
      assert s == Hex(init) + ByteHex(b);
      assert s[..|s| - 2] == Hex(init);
      ParseHexOfHex(init);
      assert s[|s| - 2..] == ByteHex(b);
      DigitRoundTrip(b / 16);
      DigitRoundTrip(b % 16);
      assert init + [b] == ba;
    }
  }
}
