/** Unpadded base64url, the encoding of section 5 of RFC 4648 with the
    trailing `=` removed, as `urlsafe_b64encode` in
    `app/backends/gemini/jwt_manager.py` produces it, and the decoding
    the authenticator applies to the handshake's `xsrfToken`. */
module Base64Url {
  import opened Wrappers

  type Byte = x: int | 0 <= x < 256
  type Sextet = x: int | 0 <= x < 64

  /** The character of the URL- and filename-safe alphabet for a 6-bit
      value. */
  function CharOf(v: Sextet): char {
    if v < 26 then ('A' as int + v) as char
    else if v < 52 then ('a' as int + (v - 26)) as char
    else if v < 62 then ('0' as int + (v - 52)) as char
    else if v == 62 then '-'
    else '_'
  }

  predicate IsUrlChar(c: char) {
    ('A' <= c <= 'Z') || ('a' <= c <= 'z') || ('0' <= c <= '9') || c == '-' || c == '_'
  }

  /** The 6-bit value of an alphabet character. */
  function ValueOf(c: char): (v: Option<Sextet>)
    ensures v.Some? <==> IsUrlChar(c)
  {
    if 'A' <= c <= 'Z' then Some(c as int - 'A' as int)
    else if 'a' <= c <= 'z' then Some(c as int - 'a' as int + 26)
    else if '0' <= c <= '9' then Some(c as int - '0' as int + 52)
    else if c == '-' then Some(62)
    else if c == '_' then Some(63)
    else None
  }

  /** Every 6-bit value has its own character, and reading it back gives
      the value. */
  lemma CharRoundTrip(v: Sextet)
    ensures IsUrlChar(CharOf(v)) && ValueOf(CharOf(v)) == Some(v)
  {
  }

  /** Three bytes as four characters, six bits each. */
  function Quad(b0: Byte, b1: Byte, b2: Byte): string {
    [CharOf(b0 / 4), CharOf(b0 % 4 * 16 + b1 / 16), CharOf(b1 % 16 * 4 + b2 / 64), CharOf(b2 % 64)]
  }

  /** A group of one to three bytes as two to four characters: the missing
      bytes count as zero bits and their characters are dropped. */
  function Group(g: seq<Byte>): string
    requires 1 <= |g| <= 3
  {
    var b1 := if |g| >= 2 then g[1] else 0;
    var b2 := if |g| == 3 then g[2] else 0;
    Quad(g[0], b1, b2)[..|g| + 1]
  }

  /** The encoding, three bytes at a time; a final group of one or two
      bytes gives two or three characters and no padding. */
  function Encode(d: seq<Byte>): string
    decreases |d|
  {
    if |d| > 3 then Group(d[..3]) + Encode(d[3..])
    else if d == [] then []
    else Group(d)
  }

  /** Four 6-bit values as three bytes. */
  function Bytes(c0: Sextet, c1: Sextet, c2: Sextet, c3: Sextet): seq<Byte> {
    [c0 as int * 4 + c1 as int / 16, c1 as int % 16 * 16 + c2 as int / 4, c2 as int % 4 * 64 + c3 as int]
  }

  /** Two to four characters as one to three bytes; the bits of a missing
      character count as zero. */
  function DecodeGroup(g: string): Option<seq<Byte>>
    requires 2 <= |g| <= 4
  {
    var v0, v1 := ValueOf(g[0]), ValueOf(g[1]);
    var v2 := if |g| >= 3 then ValueOf(g[2]) else Some(0);
    var v3 := if |g| == 4 then ValueOf(g[3]) else Some(0);
    if v0.None? || v1.None? || v2.None? || v3.None? then None
    else Some(Bytes(v0.value, v1.value, v2.value, v3.value)[..|g| - 1])
  }

  /** The decoding of unpadded text: `None` for a character outside the
      alphabet or a length one more than a multiple of four. */
  function Decode(s: string): Option<seq<Byte>>
    decreases |s|
  {
    if |s| == 0 then Some([])
    else if |s| == 1 then None
    else if |s| <= 4 then DecodeGroup(s)
    else
      match (DecodeGroup(s[..4]), Decode(s[4..]))
      case (Some(g), Some(rest)) => Some(g + rest)
      case _ => None
  }

  /** The output length is ceil(4n/3) for n bytes. */
  lemma {:induction false} EncodeLength(d: seq<Byte>)
    ensures |Encode(d)| == (4 * |d| + 2) / 3
    decreases |d|
  {
    if |d| > 3 {
      EncodeLength(d[3..]);
    }
  }

  predicate AllUrlChars(s: string) {
    forall i :: 0 <= i < |s| ==> IsUrlChar(s[i])
  }

  lemma GroupAlphabet(g: seq<Byte>)
    requires 1 <= |g| <= 3
    ensures AllUrlChars(Group(g))
  {
    var b1 := if |g| >= 2 then g[1] else 0;
    var b2 := if |g| == 3 then g[2] else 0;
    CharRoundTrip(g[0] / 4);
    CharRoundTrip(g[0] % 4 * 16 + b1 / 16);
    CharRoundTrip(b1 % 16 * 4 + b2 / 64);
    CharRoundTrip(b2 % 64);
  }

  lemma AppendAlphabet(q: string, r: string)
    requires AllUrlChars(q) && AllUrlChars(r)
    ensures AllUrlChars(q + r)
  {
    assert forall i :: |q| <= i < |q + r| ==> (q + r)[i] == r[i - |q|];
  }

  /** The output uses only `A-Z a-z 0-9 - _`; in particular no `=` and no
      `.`. */
  lemma {:induction false} EncodeAlphabet(d: seq<Byte>)
    ensures AllUrlChars(Encode(d))
    decreases |d|
  {
    if |d| > 3 {
      EncodeAlphabet(d[3..]);
      GroupAlphabet(d[..3]);
      AppendAlphabet(Group(d[..3]), Encode(d[3..]));
    } else if d != [] {
      GroupAlphabet(d);
    }
  }

  /** Three bytes come back from their four 6-bit values. */
  lemma QuadBytes(b0: Byte, b1: Byte, b2: Byte)
    ensures Bytes(b0 / 4, b0 % 4 * 16 + b1 / 16, b1 % 16 * 4 + b2 / 64, b2 % 64) == [b0, b1, b2]
  {
    assert (b0 % 4 * 16 + b1 / 16) / 16 == b0 % 4;
    assert (b0 % 4 * 16 + b1 / 16) % 16 == b1 / 16;
    assert (b1 % 16 * 4 + b2 / 64) / 4 == b1 % 16;
    assert (b1 % 16 * 4 + b2 / 64) % 4 == b2 / 64;
  }

  /** A group comes back from its characters. */
  lemma GroupRoundTrip(g: seq<Byte>)
    requires 1 <= |g| <= 3
    ensures |Group(g)| == |g| + 1
    ensures DecodeGroup(Group(g)) == Some(g)
  {
    if |g| == 3 {
      DecodeFour(g[0], g[1], g[2]);
      assert Group(g) == Quad(g[0], g[1], g[2]);
      assert g == [g[0], g[1], g[2]];
    } else if |g| == 2 {
      DecodeThree(g[0], g[1]);
      assert g == [g[0], g[1]];
    } else {
      DecodeTwo(g[0]);
      assert g == [g[0]];
    }
  }

  lemma DecodeFour(b0: Byte, b1: Byte, b2: Byte)
    ensures DecodeGroup(Quad(b0, b1, b2)) == Some([b0, b1, b2])
  {
    var c0, c1, c2, c3 := b0 / 4, b0 % 4 * 16 + b1 / 16, b1 % 16 * 4 + b2 / 64, b2 % 64;
    DecodeChars(c0, c1, c2, c3);
    QuadBytes(b0, b1, b2);
  }

  lemma DecodeThree(b0: Byte, b1: Byte)
    ensures DecodeGroup(Quad(b0, b1, 0)[..3]) == Some([b0, b1])
  {
    var c0, c1, c2 := b0 / 4, b0 % 4 * 16 + b1 / 16, b1 % 16 * 4;
    DecodeChars(c0, c1, c2, 0);
    assert Bytes(c0, c1, c2, 0) == [b0, b1, 0] by {
      QuadBytes(b0, b1, 0);
    }
    assert Bytes(c0, c1, c2, 0)[..2] == [b0, b1];
    assert Quad(b0, b1, 0)[..3] == [CharOf(c0), CharOf(c1), CharOf(c2), CharOf(0)][..3];
  }

  lemma DecodeTwo(b0: Byte)
    ensures DecodeGroup(Quad(b0, 0, 0)[..2]) == Some([b0])
  {
    var c0, c1 := b0 / 4, b0 % 4 * 16;
    DecodeChars(c0, c1, 0, 0);
    assert Bytes(c0, c1, 0, 0) == [b0, 0, 0] by {
      QuadBytes(b0, 0, 0);
    }
    assert Bytes(c0, c1, 0, 0)[..1] == [b0];
    assert Quad(b0, 0, 0)[..2] == [CharOf(c0), CharOf(c1), CharOf(0), CharOf(0)][..2];
  }

  /** Two to four characters decode to the bytes of their values. */
  lemma DecodeChars(c0: Sextet, c1: Sextet, c2: Sextet, c3: Sextet)
    ensures var q := [CharOf(c0), CharOf(c1), CharOf(c2), CharOf(c3)];
      && DecodeGroup(q) == Some(Bytes(c0, c1, c2, c3))
      && (c3 == 0 ==> DecodeGroup(q[..3]) == Some(Bytes(c0, c1, c2, c3)[..2]))
      && (c2 == 0 && c3 == 0 ==> DecodeGroup(q[..2]) == Some(Bytes(c0, c1, c2, c3)[..1]))
  {
    CharRoundTrip(c0);
    CharRoundTrip(c1);
    CharRoundTrip(c2);
    CharRoundTrip(c3);
    var q := [CharOf(c0), CharOf(c1), CharOf(c2), CharOf(c3)];
    assert Bytes(c0, c1, c2, c3)[..3] == Bytes(c0, c1, c2, c3);
    assert q[..3] == [CharOf(c0), CharOf(c1), CharOf(c2)];
    assert q[..2] == [CharOf(c0), CharOf(c1)];
  }

  /** Decoding undoes encoding. */
  lemma {:induction false} DecodeEncode(d: seq<Byte>)
    ensures Decode(Encode(d)) == Some(d)
    decreases |d|
  {
    if |d| > 3 {
      var q, r := Group(d[..3]), Encode(d[3..]);
      GroupRoundTrip(d[..3]);
      EncodeLength(d[3..]);
      DecodeEncode(d[3..]);
      DecodeSplit(q, r);
      assert d[..3] + d[3..] == d;
    } else if d != [] {
      GroupRoundTrip(d);
    }
  }

  /** Decoding a four-character group followed by more text. */
  lemma DecodeSplit(q: string, r: string)
    requires |q| == 4 && |r| >= 2
    ensures Decode(q + r) == match (DecodeGroup(q), Decode(r))
      case (Some(g), Some(rest)) => Some(g + rest)
      case _ => None
  {
    var s := q + r;
    assert s[..4] == q && s[4..] == r;
  }
}
