/**
 * Python's `str.encode()` (UTF-8) of a string of Unicode scalar values.
 */
module Utf8 {
  import opened Common

  /** The UTF-8 bytes of one scalar value. */
  function EncodeChar(c: char): (bytes: seq<Byte>)
    ensures 1 <= |bytes| <= 4
  {
    var n := c as int;
    if n < 0x80 then [n]
    else if n < 0x800 then [0xC0 + n / 64, 0x80 + n % 64]
    else if n < 0x10000 then [0xE0 + n / 4096, 0x80 + (n / 64) % 64, 0x80 + n % 64]
    else [0xF0 + n / 262144, 0x80 + (n / 4096) % 64, 0x80 + (n / 64) % 64, 0x80 + n % 64]
  }

  function Encode(s: string): seq<Byte> {
    if |s| == 0 then [] else EncodeChar(s[0]) + Encode(s[1..])
  }

  predicate IsAscii(s: string) {
    forall k | 0 <= k < |s| :: s[k] as int < 0x80
  }

  /** The character codes of an ASCII string, one byte each. */
  function AsciiBytes(s: string): (bytes: seq<Byte>)
    requires IsAscii(s)
  {
    seq(|s|, k requires 0 <= k < |s| => s[k] as int)
  }

  /** An ASCII string encodes as its character codes. */
  lemma {:induction false} AsciiEncoding(s: string)
    requires IsAscii(s)
    ensures Encode(s) == AsciiBytes(s)
  {
    if |s| > 0 {
      AsciiEncoding(s[1..]);
      assert AsciiBytes(s) == [s[0] as int] + AsciiBytes(s[1..]);
    }
  }
}
