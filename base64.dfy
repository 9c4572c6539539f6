/**
 * Base64 as section 4 of RFC 4648 defines it, the encoding `btoa` produces and `atob`
 * reads: each group of three bytes becomes four characters of the 64-character
 * alphabet, and a final group of one or two bytes is padded with '='.
 */
module Base64 {
  import opened Wrappers

  type byte = x: int | 0 <= x < 256

  /** The character for a 6-bit value: A-Z, a-z, 0-9, '+', '/'. */
  function EncodeChar(v: int): (c: char)
    requires 0 <= v < 64
    ensures c != '='
  {
    if v < 26 then ('A' as int + v) as char
    else if v < 52 then ('a' as int + v - 26) as char
    else if v < 62 then ('0' as int + v - 52) as char
    else if v == 62 then '+'
    else '/'
  }

  /** The 6-bit value of an alphabet character; `None` for any other character, '=' included. */
  function DecodeChar(c: char): (r: Option<int>)
    ensures r.Some? ==> 0 <= r.value < 64
  {
    if 'A' <= c <= 'Z' then Some(c as int - 'A' as int)
    else if 'a' <= c <= 'z' then Some(c as int - 'a' as int + 26)
    else if '0' <= c <= '9' then Some(c as int - '0' as int + 52)
    else if c == '+' then Some(62)
    else if c == '/' then Some(63)
    else None
  }

  lemma DecodeEncodeChar(v: int)
    requires 0 <= v < 64
    ensures DecodeChar(EncodeChar(v)) == Some(v)
  {
  }

  /** The four characters of a full group. */
  function EncodeTriple(a: byte, b: byte, c: byte): string {
    [EncodeChar(a / 4), EncodeChar((a % 4) * 16 + b / 16), EncodeChar((b % 16) * 4 + c / 64), EncodeChar(c % 64)]
  }

  function Encode(bs: seq<byte>): string
    decreases |bs|
  {
    if |bs| == 0 then []
    else if |bs| == 1 then [EncodeChar(bs[0] / 4), EncodeChar((bs[0] % 4) * 16), '=', '=']
    else if |bs| == 2 then
      [EncodeChar(bs[0] / 4), EncodeChar((bs[0] % 4) * 16 + bs[1] / 16), EncodeChar((bs[1] % 16) * 4), '=']
    else EncodeTriple(bs[0], bs[1], bs[2]) + Encode(bs[3..])
  }

  /** Four characters for every started group of three bytes. */
  lemma {:induction false} EncodeLength(bs: seq<byte>)
    ensures |Encode(bs)| == 4 * ((|bs| + 2) / 3)
    decreases |bs|
  {
    if |bs| >= 3 {
      EncodeLength(bs[3..]);
      assert (|bs| + 2) / 3 == (|bs[3..]| + 2) / 3 + 1;
    }
  }

  /** The bytes of four 6-bit values, of which the last group keeps one, two or three. */
  function Byte0(v0: int, v1: int): byte
    requires 0 <= v0 < 64 && 0 <= v1 < 64
  {
    v0 * 4 + v1 / 16
  }

  function Byte1(v1: int, v2: int): byte
    requires 0 <= v1 < 64 && 0 <= v2 < 64
  {
    (v1 % 16) * 16 + v2 / 4
  }

  function Byte2(v2: int, v3: int): byte
    requires 0 <= v2 < 64 && 0 <= v3 < 64
  {
    (v2 % 4) * 64 + v3
  }

  /**
   * The strict decoder: the length is a multiple of four, every character is in the
   * alphabet except for one or two '=' closing the last group. `None` is the error
   * `atob` throws.
   */
  function Decode(s: string): (r: Option<seq<byte>>)
    decreases |s|
  {
    if s == [] then Some([])
    else if |s| < 4 then None
    else
      var d0, d1, d2, d3 := DecodeChar(s[0]), DecodeChar(s[1]), DecodeChar(s[2]), DecodeChar(s[3]);
      if d0.None? || d1.None? then None
      else if |s| == 4 && s[2] == '=' && s[3] == '=' then
        Some([Byte0(d0.value, d1.value)])
      else if d2.None? then None
      else if |s| == 4 && s[3] == '=' then
        Some([Byte0(d0.value, d1.value), Byte1(d1.value, d2.value)])
      else if d3.None? then None
      else
        var group := [Byte0(d0.value, d1.value), Byte1(d1.value, d2.value), Byte2(d2.value, d3.value)];
        var rest := Decode(s[4..]);
        if rest.None? then None else Some(group + rest.value)
  }

  /** The split of a byte into its top 6 and low 2 bits, and the like, read back. */
  lemma TripleArithmetic(a: byte, b: byte, c: byte)
    ensures Byte0(a / 4, (a % 4) * 16 + b / 16) == a
    ensures Byte1((a % 4) * 16 + b / 16, (b % 16) * 4 + c / 64) == b
    ensures Byte2((b % 16) * 4 + c / 64, c % 64) == c
    ensures Byte1((a % 4) * 16 + b / 16, (b % 16) * 4) == b
  {
    var v1 := (a % 4) * 16 + b / 16;
    assert v1 / 16 == a % 4 && v1 % 16 == b / 16;
    var v2 := (b % 16) * 4 + c / 64;
    assert v2 / 4 == b % 16 && v2 % 4 == c / 64;
    var v2' := (b % 16) * 4;
    assert v2' / 4 == b % 16;
  }

  lemma DecodeLastOne(a: byte)
    ensures Decode(Encode([a])) == Some([a])
  {
    DecodeEncodeChar(a / 4);
    DecodeEncodeChar((a % 4) * 16);
    assert (a % 4) * 16 / 16 == a % 4;
  }

  lemma DecodeLastTwo(a: byte, b: byte)
    ensures Decode(Encode([a, b])) == Some([a, b])
  {
    DecodeEncodeChar(a / 4);
    DecodeEncodeChar((a % 4) * 16 + b / 16);
    DecodeEncodeChar((b % 16) * 4);
    TripleArithmetic(a, b, 0);
  }

  /** A full group in front of any text decodes to its three bytes in front of that text's bytes. */
  lemma DecodeGroup(a: byte, b: byte, c: byte, rest: string)
    ensures var d := Decode(rest);
      Decode(EncodeTriple(a, b, c) + rest) == if d.None? then None else Some([a, b, c] + d.value)
  {
    DecodeEncodeChar(a / 4);
    DecodeEncodeChar((a % 4) * 16 + b / 16);
    DecodeEncodeChar((b % 16) * 4 + c / 64);
    DecodeEncodeChar(c % 64);
    TripleArithmetic(a, b, c);
    var s := EncodeTriple(a, b, c) + rest;
    assert s[4..] == rest;
    assert s[..4] == EncodeTriple(a, b, c);
  }

  lemma EncodeGroup(bs: seq<byte>)
    requires |bs| >= 3
    ensures Encode(bs) == EncodeTriple(bs[0], bs[1], bs[2]) + Encode(bs[3..])
  {
  }

  /** Decoding the text of three or more bytes is decoding their first group in front of the rest. */
  lemma DecodeEncodeSplit(bs: seq<byte>)
    requires |bs| >= 3
    ensures Decode(Encode(bs)) == Decode(EncodeTriple(bs[0], bs[1], bs[2]) + Encode(bs[3..]))
  {
    EncodeGroup(bs);
  }

  /** Decoding what was encoded gives back the same bytes. */
  lemma {:induction false} DecodeEncode(bs: seq<byte>)
    ensures Decode(Encode(bs)) == Some(bs)
    decreases |bs|
  {
    if |bs| >= 3 {
      var tail := bs[3..];
      DecodeEncode(tail);
      GroupStep(bs[0], bs[1], bs[2], tail, Encode(tail));
      DecodeEncodeSplit(bs);
      assert bs == [bs[0], bs[1], bs[2]] + tail;
    } else {
      DecodeEncodeShort(bs);
    }
  }

  /** Fewer than three bytes: the padded last group. */
  lemma DecodeEncodeShort(bs: seq<byte>)
    requires |bs| < 3
    ensures Decode(Encode(bs)) == Some(bs)
  {
    if |bs| == 1 {
      assert bs == [bs[0]];
      DecodeLastOne(bs[0]);
    } else if |bs| == 2 {
      assert bs == [bs[0], bs[1]];
      DecodeLastTwo(bs[0], bs[1]);
    }
  }

  /** A whole group in front of a text that decodes to `tail` decodes to the group's bytes and `tail`. */
  lemma GroupStep(a: byte, b: byte, c: byte, tail: seq<byte>, e: string)
    requires Decode(e) == Some(tail)
    ensures Decode(EncodeTriple(a, b, c) + e) == Some([a, b, c] + tail)
  {
    DecodeGroup(a, b, c, e);
  }

  /** Every encoded character is in the alphabet or is padding. */
  lemma {:induction false} EncodeAlphabet(bs: seq<byte>)
    ensures forall i :: 0 <= i < |Encode(bs)| ==> DecodeChar(Encode(bs)[i]).Some? || Encode(bs)[i] == '='
    decreases |bs|
  {
    if |bs| >= 1 {
      DecodeEncodeChar(bs[0] / 4);
      DecodeEncodeChar((bs[0] % 4) * 16 + (if |bs| > 1 then bs[1] / 16 else 0));
    }
    if |bs| >= 2 {
      DecodeEncodeChar((bs[1] % 16) * 4 + (if |bs| > 2 then bs[2] / 64 else 0));
    }
    if |bs| >= 3 {
      DecodeEncodeChar(bs[2] % 64);
      EncodeAlphabet(bs[3..]);
    }
  }

  /** Text whose length is not a multiple of four is rejected. */
  lemma {:induction false} DecodeRejectsLength(s: string)
    requires |s| % 4 != 0
    ensures Decode(s) == None
    decreases |s|
  {
    if |s| > 4 {
      DecodeRejectsLength(s[4..]);
    }
  }
}
