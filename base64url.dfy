/**
 * The URL- and filename-safe base64 alphabet of section 5 of RFC 4648, as
 * Python's `base64.urlsafe_b64encode` writes it (with `=` padding), and
 * Python's `str.rstrip("=")` that the PKCE code strips the padding with.
 * A decoder for the unpadded text is the partner that shows no input
 * information is lost.
 */
module Base64Url {
  import opened Common

  /** The character for a 6-bit value: A-Z, a-z, 0-9, '-', '_'. */
  function Sextet(i: int): (c: char)
    requires 0 <= i < 64
  {
    if i < 26 then ('A' as int + i) as char
    else if i < 52 then ('a' as int + (i - 26)) as char
    else if i < 62 then ('0' as int + (i - 52)) as char
    else if i == 62 then '-'
    else '_'
  }

  predicate InAlphabet(c: char) {
    ('A' <= c <= 'Z') || ('a' <= c <= 'z') || ('0' <= c <= '9') || c == '-' || c == '_'
  }

  /** The 6-bit value of an alphabet character. */
  function SextetValue(c: char): (i: int)
    requires InAlphabet(c)
    ensures 0 <= i < 64 && Sextet(i) == c
  {
    if 'A' <= c <= 'Z' then c as int - 'A' as int
    else if 'a' <= c <= 'z' then c as int - 'a' as int + 26
    else if '0' <= c <= '9' then c as int - '0' as int + 52
    else if c == '-' then 62
    else 63
  }

  lemma SextetValueOf(i: int)
    requires 0 <= i < 64
    ensures InAlphabet(Sextet(i)) && SextetValue(Sextet(i)) == i
  {
  }

  /** Three bytes, 24 bits, as four characters. */
  function EncodeGroup(b0: Byte, b1: Byte, b2: Byte): (s: string)
    ensures |s| == 4
  {
    [Sextet(b0 / 4), Sextet((b0 % 4) * 16 + b1 / 16), Sextet((b1 % 16) * 4 + b2 / 64), Sextet(b2 % 64)]
  }

  /** The characters that carry data, without the `=` padding: a final
      single byte gives two characters, a final pair three. */
  function EncodeData(data: seq<Byte>): (s: string)
  {
    if |data| >= 3 then EncodeGroup(data[0], data[1], data[2]) + EncodeData(data[3..])
    else if |data| == 2 then
      [Sextet(data[0] / 4), Sextet((data[0] % 4) * 16 + data[1] / 16), Sextet((data[1] % 16) * 4)]
    else if |data| == 1 then
      [Sextet(data[0] / 4), Sextet((data[0] % 4) * 16)]
    else []
  }

  /** The `=` characters that complete the last four-character group. */
  function Padding(n: nat): string {
    if n % 3 == 1 then "==" else if n % 3 == 2 then "=" else ""
  }

  /** `base64.urlsafe_b64encode(data).decode("utf-8")`. */
  function Encode(data: seq<Byte>): (s: string)
    ensures |s| == 4 * ((|data| + 2) / 3)
  {
    EncodeDataShape(data);
    PaddedLength(|data|);
    EncodeData(data) + Padding(|data|)
  }

  /** The data characters and the padding fill whole four-character groups. */
  lemma PaddedLength(n: nat)
    ensures (4 * n + 2) / 3 + |Padding(n)| == 4 * ((n + 2) / 3)
  {
    var q, r := n / 3, n % 3;
    assert n == 3 * q + r;
    if r == 0 {
      assert 4 * n + 2 == 3 * (4 * q) + 2 && n + 2 == 3 * q + 2;
    } else if r == 1 {
      assert 4 * n + 2 == 3 * (4 * q + 2) && n + 2 == 3 * (q + 1);
    } else {
      assert 4 * n + 2 == 3 * (4 * q + 3) + 1 && n + 2 == 3 * (q + 1) + 1;
    }
  }

  /** Python `s.rstrip("=")`. */
  function StripPadding(s: string): (r: string)
    ensures |r| <= |s| && r == s[..|r|]
    ensures |r| > 0 ==> r[|r| - 1] != '='
    ensures forall k | |r| <= k < |s| :: s[k] == '='
  {
    if |s| > 0 && s[|s| - 1] == '=' then StripPadding(s[..|s| - 1]) else s
  }

  lemma {:induction false} EncodeDataShape(data: seq<Byte>)
    ensures |EncodeData(data)| == (4 * |data| + 2) / 3
    ensures forall k | 0 <= k < |EncodeData(data)| :: InAlphabet(EncodeData(data)[k])
  {
    if |data| >= 3 {
      EncodeDataShape(data[3..]);
      var g, rest := EncodeGroup(data[0], data[1], data[2]), EncodeData(data[3..]);
      assert EncodeData(data) == g + rest;
      forall k | 0 <= k < |g + rest| ensures InAlphabet((g + rest)[k]) {
        if k >= 4 {
          assert (g + rest)[k] == rest[k - 4];
        }
      }
    }
  }

  lemma {:induction false} StripPaddingOf(body: string, pad: string)
    requires |body| == 0 || body[|body| - 1] != '='
    requires forall k | 0 <= k < |pad| :: pad[k] == '='
    ensures StripPadding(body + pad) == body
  {
    if |pad| > 0 {
      assert (body + pad)[..|body + pad| - 1] == body + pad[..|pad| - 1];
      StripPaddingOf(body, pad[..|pad| - 1]);
    } else {
      assert body + pad == body;
    }
  }

  /** Stripping `=` from the padded text leaves exactly the data characters. */
  lemma UnpaddedIsData(data: seq<Byte>)
    ensures StripPadding(Encode(data)) == EncodeData(data)
  {
    EncodeDataShape(data);
    var d := EncodeData(data);
    assert |d| > 0 ==> InAlphabet(d[|d| - 1]);
    StripPaddingOf(d, Padding(|data|));
  }

  /** The unpadded text of `n` bytes has ceil(4n/3) characters, all from
      the URL-safe alphabet, so none of them is `=`. */
  lemma UnpaddedShape(data: seq<Byte>)
    ensures |StripPadding(Encode(data))| == (4 * |data| + 2) / 3
    ensures forall k | 0 <= k < |StripPadding(Encode(data))| :: InAlphabet(StripPadding(Encode(data))[k])
    ensures '=' !in StripPadding(Encode(data))
  {
    UnpaddedIsData(data);
    EncodeDataShape(data);
  }

  // ---------------------------------------------------------------------
  // Decoding unpadded text

  predicate IsUnpaddedText(s: string) {
    |s| % 4 != 1 && forall k | 0 <= k < |s| :: InAlphabet(s[k])
  }

  function DecodeData(s: string): (data: seq<Byte>)
    requires IsUnpaddedText(s)
  {
    if |s| >= 4 then
      DecodeGroup(SextetValue(s[0]), SextetValue(s[1]), SextetValue(s[2]), SextetValue(s[3]))
      + DecodeData(s[4..])
    else if |s| == 3 then
      DecodeGroup(SextetValue(s[0]), SextetValue(s[1]), SextetValue(s[2]), 0)[..2]
    else if |s| == 2 then
      [SextetValue(s[0]) * 4 + SextetValue(s[1]) / 16]
    else []
  }

  /** Four 6-bit values, 24 bits, as three bytes. */
  function DecodeGroup(s0: int, s1: int, s2: int, s3: int): (data: seq<Byte>)
    requires 0 <= s0 < 64 && 0 <= s1 < 64 && 0 <= s2 < 64 && 0 <= s3 < 64
    ensures |data| == 3
  {
    [s0 * 4 + s1 / 16, (s1 % 16) * 16 + s2 / 4, (s2 % 4) * 64 + s3]
  }

  lemma GroupRoundTrip(b0: Byte, b1: Byte, b2: Byte)
    ensures DecodeGroup(b0 / 4, (b0 % 4) * 16 + b1 / 16, (b1 % 16) * 4 + b2 / 64, b2 % 64) == [b0, b1, b2]
  {
    assert ((b0 % 4) * 16 + b1 / 16) / 16 == b0 % 4;
    assert ((b0 % 4) * 16 + b1 / 16) % 16 == b1 / 16;
    assert ((b1 % 16) * 4 + b2 / 64) / 4 == b1 % 16;
    assert ((b1 % 16) * 4 + b2 / 64) % 4 == b2 / 64;
  }

  lemma PairRoundTrip(b0: Byte, b1: Byte)
    ensures DecodeGroup(b0 / 4, (b0 % 4) * 16 + b1 / 16, (b1 % 16) * 4, 0)[..2] == [b0, b1]
  {
    assert ((b0 % 4) * 16 + b1 / 16) / 16 == b0 % 4;
    assert ((b0 % 4) * 16 + b1 / 16) % 16 == b1 / 16;
    assert ((b1 % 16) * 4) / 4 == b1 % 16;
  }

  /** Decoding the unpadded text gives back the bytes. */
  lemma {:induction false} RoundTrip(data: seq<Byte>)
    ensures IsUnpaddedText(StripPadding(Encode(data)))
    ensures DecodeData(StripPadding(Encode(data))) == data
  {
    UnpaddedIsData(data);
    DataRoundTrip(data);
  }

  lemma DecodeDataCons(g: string, rest: string)
    requires |g| == 4 && InAlphabet(g[0]) && InAlphabet(g[1]) && InAlphabet(g[2]) && InAlphabet(g[3])
    requires IsUnpaddedText(rest)
    ensures IsUnpaddedText(g + rest)
    ensures DecodeData(g + rest)
         == DecodeGroup(SextetValue(g[0]), SextetValue(g[1]), SextetValue(g[2]), SextetValue(g[3])) + DecodeData(rest)
  {
    var s := g + rest;
    forall k | 0 <= k < |s| ensures InAlphabet(s[k]) {
      if k >= 4 { assert s[k] == rest[k - 4]; }
    }
    assert s[4..] == rest;
  }

  lemma {:induction false} DataRoundTrip(data: seq<Byte>)
    ensures IsUnpaddedText(EncodeData(data))
    ensures DecodeData(EncodeData(data)) == data
  {
    if |data| >= 3 {
      DataRoundTrip(data[3..]);
      GroupStep(data);
    } else if |data| == 2 {
      PairRoundTripText(data[0], data[1]);
      assert data == [data[0], data[1]];
    } else if |data| == 1 {
      SingleRoundTripText(data[0]);
      assert data == [data[0]];
    }
  }

  /** One full group in front of a tail that already round-trips. */
  lemma GroupStep(data: seq<Byte>)
    requires |data| >= 3
    requires IsUnpaddedText(EncodeData(data[3..]))
    requires DecodeData(EncodeData(data[3..])) == data[3..]
    ensures IsUnpaddedText(EncodeData(data))
    ensures DecodeData(EncodeData(data)) == data
  {
    var rest := EncodeData(data[3..]);
    assert EncodeData(data) == EncodeGroup(data[0], data[1], data[2]) + rest;
    GroupTextRoundTrip(data[0], data[1], data[2], rest);
    SplitFirstGroup(data);
  }

  lemma SplitFirstGroup(data: seq<Byte>)
    requires |data| >= 3
    ensures [data[0], data[1], data[2]] + data[3..] == data
  {
  }

  /** Four characters of one group decode to its three bytes, whatever
      unpadded text follows. */
  lemma GroupTextRoundTrip(b0: Byte, b1: Byte, b2: Byte, rest: string)
    requires IsUnpaddedText(rest)
    ensures IsUnpaddedText(EncodeGroup(b0, b1, b2) + rest)
    ensures DecodeData(EncodeGroup(b0, b1, b2) + rest) == [b0, b1, b2] + DecodeData(rest)
  {
    SextetValueOf(b0 / 4);
    SextetValueOf((b0 % 4) * 16 + b1 / 16);
    SextetValueOf((b1 % 16) * 4 + b2 / 64);
    SextetValueOf(b2 % 64);
    DecodeDataCons(EncodeGroup(b0, b1, b2), rest);
    GroupRoundTrip(b0, b1, b2);
  }

  lemma PairRoundTripText(b0: Byte, b1: Byte)
    ensures IsUnpaddedText(EncodeData([b0, b1]))
    ensures DecodeData(EncodeData([b0, b1])) == [b0, b1]
  {
    var s := EncodeData([b0, b1]);
    SextetValueOf(b0 / 4);
    SextetValueOf((b0 % 4) * 16 + b1 / 16);
    SextetValueOf((b1 % 16) * 4);
    assert s == [Sextet(b0 / 4), Sextet((b0 % 4) * 16 + b1 / 16), Sextet((b1 % 16) * 4)];
    PairRoundTrip(b0, b1);
  }

  lemma SingleRoundTripText(b0: Byte)
    ensures IsUnpaddedText(EncodeData([b0]))
    ensures DecodeData(EncodeData([b0])) == [b0]
  {
    var s := EncodeData([b0]);
    SextetValueOf(b0 / 4);
    SextetValueOf((b0 % 4) * 16);
    assert s == [Sextet(b0 / 4), Sextet((b0 % 4) * 16)];
  }
}
