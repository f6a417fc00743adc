/** Base64 with the standard alphabet and `=` padding, as section 4 of RFC 4648 defines it
    (Go's `base64.StdEncoding`), with a decoder as its inverse. */
module Base64 {
  import opened Wrappers
  import opened ConvoAITypes

  /** The character of a 6-bit value: `A`-`Z`, `a`-`z`, `0`-`9`, `+`, `/`. */
  function Sextet(v: int): (c: char)
    requires 0 <= v < 64
    ensures SextetValue(c) == v
  {
    if v < 26 then ('A' as int + v) as char
    else if v < 52 then ('a' as int + v - 26) as char
    else if v < 62 then ('0' as int + v - 52) as char
    else if v == 62 then '+'
    else '/'
  }

  /** The 6-bit value of an alphabet character, or -1 for any other character (`=` included). */
  function SextetValue(c: char): (v: int)
    ensures -1 <= v < 64
    ensures c == '=' ==> v == -1
  {
    if 'A' <= c <= 'Z' then c as int - 'A' as int
    else if 'a' <= c <= 'z' then c as int - 'a' as int + 26
    else if '0' <= c <= '9' then c as int - '0' as int + 52
    else if c == '+' then 62
    else if c == '/' then 63
    else -1
  }

  predicate IsBase64Char(c: char) { SextetValue(c) >= 0 || c == '=' }

  /** Three bytes as four characters (24 bits as four 6-bit values, most significant first). */
  function EncodeGroup(b0: byte, b1: byte, b2: byte): (r: string)
    ensures |r| == 4 && forall i | 0 <= i < 4 :: SextetValue(r[i]) >= 0
  {
    var x0, x1, x2 := b0 as int, b1 as int, b2 as int;
    [Sextet(x0 / 4), Sextet(x0 % 4 * 16 + x1 / 16), Sextet(x1 % 16 * 4 + x2 / 64), Sextet(x2 % 64)]
  }

  /** A final single byte: two characters and `==`. */
  function EncodeLastOne(b0: byte): (r: string)
    ensures |r| == 4 && SextetValue(r[0]) >= 0 && SextetValue(r[1]) >= 0 && r[2] == '=' && r[3] == '='
  {
    var x0 := b0 as int;
    [Sextet(x0 / 4), Sextet(x0 % 4 * 16), '=', '=']
  }

  /** A final pair of bytes: three characters and `=`. */
  function EncodeLastTwo(b0: byte, b1: byte): (r: string)
    ensures |r| == 4 && SextetValue(r[0]) >= 0 && SextetValue(r[1]) >= 0 && SextetValue(r[2]) >= 0
    ensures r[3] == '='
  {
    var x0, x1 := b0 as int, b1 as int;
    [Sextet(x0 / 4), Sextet(x0 % 4 * 16 + x1 / 16), Sextet(x1 % 16 * 4), '=']
  }

  /** Standard base64 encoding: every 3 bytes become 4 characters, a final group of 1 or 2 bytes
      becomes 2 or 3 characters padded with `=` to 4. */
  function Encode(b: seq<byte>): (r: string)
    ensures |r| == 4 * ((|b| + 2) / 3)
  {
    if |b| == 0 then ""
    else if |b| == 1 then EncodeLastOne(b[0])
    else if |b| == 2 then EncodeLastTwo(b[0], b[1])
    else EncodeGroup(b[0], b[1], b[2]) + Encode(b[3..])
  }

  /** An encoding uses only the alphabet and `=`, and `=` only in its last two places. */
  lemma {:induction false} EncodeAlphabet(b: seq<byte>)
    ensures forall i | 0 <= i < |Encode(b)| :: IsBase64Char(Encode(b)[i])
    ensures forall i | 0 <= i < |Encode(b)| && Encode(b)[i] == '=' :: i >= |Encode(b)| - 2
  {
    if |b| >= 3 {
      EncodeAlphabet(b[3..]);
      var g, t := EncodeGroup(b[0], b[1], b[2]), Encode(b[3..]);
      assert Encode(b) == g + t;
      forall i | 4 <= i < |Encode(b)| ensures Encode(b)[i] == t[i - 4] {}
    }
  }

  /** The three bytes of four 6-bit values. */
  function DecodeGroup(v0: int, v1: int, v2: int, v3: int): seq<byte>
    requires 0 <= v0 < 64 && 0 <= v1 < 64 && 0 <= v2 < 64 && 0 <= v3 < 64
  {
    [(v0 * 4 + v1 / 16) as byte, (v1 % 16 * 16 + v2 / 4) as byte, (v2 % 4 * 64 + v3) as byte]
  }

  /** Decodes padded standard base64; `None` on a character outside the alphabet, a length that
      is not a multiple of 4, padding before the last group, or pad bits that are not zero (the
      canonical encoding of section 3.5 of RFC 4648). This is deliberately stricter than Go's
      default `StdEncoding` decoder, which ignores the pad bits: here only one string decodes to
      given bytes (`DecodeCanonical`). */
  function Decode(s: string): Option<seq<byte>>
    decreases |s|
  {
    if |s| == 0 then Some([])
    else if |s| < 4 then None
    else
      var v0, v1, v2, v3 := SextetValue(s[0]), SextetValue(s[1]), SextetValue(s[2]), SextetValue(s[3]);
      if v0 < 0 || v1 < 0 then None
      else if |s| == 4 && s[2] == '=' && s[3] == '=' then
        if v1 % 16 == 0 then Some(DecodeGroup(v0, v1, 0, 0)[..1]) else None
      else if v2 < 0 then None
      else if |s| == 4 && s[3] == '=' then
        if v2 % 4 == 0 then Some(DecodeGroup(v0, v1, v2, 0)[..2]) else None
      else if v3 < 0 then None
      else
        match Decode(s[4..])
        case None => None
        case Some(rest) => Some(DecodeGroup(v0, v1, v2, v3) + rest)
  }

  /** Regrouping three bytes into four 6-bit values and back is the identity. */
  lemma Regroup(b0: byte, b1: byte, b2: byte)
    ensures var x0, x1, x2 := b0 as int, b1 as int, b2 as int;
      DecodeGroup(x0 / 4, x0 % 4 * 16 + x1 / 16, x1 % 16 * 4 + x2 / 64, x2 % 64) == [b0, b1, b2]
  {
    var x0, x1, x2 := b0 as int, b1 as int, b2 as int;
    assert (x0 / 4) * 4 + (x0 % 4 * 16 + x1 / 16) / 16 == x0;
    assert (x0 % 4 * 16 + x1 / 16) % 16 * 16 + (x1 % 16 * 4 + x2 / 64) / 4 == x1;
    assert (x1 % 16 * 4 + x2 / 64) % 4 * 64 + x2 % 64 == x2;
  }

  lemma DecodeEncodeGroup(b0: byte, b1: byte, b2: byte, rest: string)
    ensures Decode(EncodeGroup(b0, b1, b2) + rest) ==
      match Decode(rest)
      case None => None
      case Some(tail) => Some([b0, b1, b2] + tail)
  {
    var g := EncodeGroup(b0, b1, b2);
    var s := g + rest;
    assert s[..4] == g && s[4..] == rest;
    Regroup(b0, b1, b2);
  }

  lemma DecodeEncodeLastOne(b0: byte)
    ensures Decode(EncodeLastOne(b0)) == Some([b0])
  {
    var s := EncodeLastOne(b0);
    var x0 := b0 as int;
    Regroup(b0, 0, 0);
    assert SextetValue(s[0]) == x0 / 4 && SextetValue(s[1]) == x0 % 4 * 16;
    assert (x0 % 4 * 16) % 16 == 0;
    assert DecodeGroup(x0 / 4, x0 % 4 * 16, 0, 0) == [b0, 0, 0];
    assert s[2] == '=' && s[3] == '=';
    assert Decode(s) == Some(DecodeGroup(x0 / 4, x0 % 4 * 16, 0, 0)[..1]);
    assert [b0, 0, 0][..1] == [b0];
  }

  lemma DecodeEncodeLastTwo(b0: byte, b1: byte)
    ensures Decode(EncodeLastTwo(b0, b1)) == Some([b0, b1])
  {
    var s := EncodeLastTwo(b0, b1);
    var x0, x1 := b0 as int, b1 as int;
    Regroup(b0, b1, 0);
    assert SextetValue(s[0]) == x0 / 4 && SextetValue(s[1]) == x0 % 4 * 16 + x1 / 16;
    assert SextetValue(s[2]) == x1 % 16 * 4;
    assert (x1 % 16 * 4) % 4 == 0;
    assert DecodeGroup(x0 / 4, x0 % 4 * 16 + x1 / 16, x1 % 16 * 4, 0) == [b0, b1, 0];
    assert s[2] != '=' && s[3] == '=';
    assert Decode(s) == Some(DecodeGroup(x0 / 4, x0 % 4 * 16 + x1 / 16, x1 % 16 * 4, 0)[..2]);
    assert [b0, b1, 0][..2] == [b0, b1];
  }

  /** Decoding an encoding gives the bytes back. */
  lemma {:induction false} EncodeDecode(b: seq<byte>)
    ensures Decode(Encode(b)) == Some(b)
  {
    if |b| == 1 {
      assert Encode(b) == EncodeLastOne(b[0]);
      DecodeEncodeLastOne(b[0]);
      assert b == [b[0]];
    } else if |b| == 2 {
      assert Encode(b) == EncodeLastTwo(b[0], b[1]);
      DecodeEncodeLastTwo(b[0], b[1]);
      assert b == [b[0], b[1]];
    } else if |b| >= 3 {
      var tail := Encode(b[3..]);
      assert Encode(b) == EncodeGroup(b[0], b[1], b[2]) + tail;
      EncodeDecode(b[3..]);
      DecodeEncodeGroup(b[0], b[1], b[2], tail);
      assert b == [b[0], b[1], b[2]] + b[3..];
    }
  }

  /** An alphabet character is the character of its own value. */
  lemma SextetOfValue(c: char)
    requires SextetValue(c) >= 0
    ensures Sextet(SextetValue(c)) == c
  {
  }

  /** Division by one of the group sizes of a value written as quotient and remainder. */
  lemma DivMod(x: int, q: int, r: int, k: int)
    requires k == 4 || k == 16 || k == 64
    requires 0 <= r < k && x == q * k + r
    ensures x / k == q && x % k == r
  {
    if k == 4 {
      assert x == q * 4 + r;
    } else if k == 16 {
      assert x == q * 16 + r;
    } else {
      assert x == q * 64 + r;
    }
  }

  /** Four 6-bit values decoded to three bytes encode back to the characters of those values. */
  lemma EncodeDecodedGroup(v0: int, v1: int, v2: int, v3: int)
    requires 0 <= v0 < 64 && 0 <= v1 < 64 && 0 <= v2 < 64 && 0 <= v3 < 64
    ensures var d := DecodeGroup(v0, v1, v2, v3);
      EncodeGroup(d[0], d[1], d[2]) == [Sextet(v0), Sextet(v1), Sextet(v2), Sextet(v3)]
  {
    var d := DecodeGroup(v0, v1, v2, v3);
    var x0, x1, x2 := d[0] as int, d[1] as int, d[2] as int;
    DivMod(v1, v1 / 16, v1 % 16, 16);
    DivMod(v2, v2 / 4, v2 % 4, 4);
    DivMod(x0, v0, v1 / 16, 4);
    DivMod(x1, v1 % 16, v2 / 4, 16);
    DivMod(x2, v2 % 4, v3, 64);
    assert x0 % 4 * 16 + x1 / 16 == v1;
    assert x1 % 16 * 4 + x2 / 64 == v2;
  }

  /** A final group with `==` encodes back when its pad bits are zero. */
  lemma EncodeDecodedLastOne(v0: int, v1: int)
    requires 0 <= v0 < 64 && 0 <= v1 < 64 && v1 % 16 == 0
    ensures EncodeLastOne(DecodeGroup(v0, v1, 0, 0)[0]) == [Sextet(v0), Sextet(v1), '=', '=']
  {
    var x0 := v0 * 4 + v1 / 16;
    assert x0 / 4 == v0 && x0 % 4 == v1 / 16;
    assert x0 % 4 * 16 == v1;
  }

  /** A final group with `=` encodes back when its pad bits are zero. */
  lemma EncodeDecodedLastTwo(v0: int, v1: int, v2: int)
    requires 0 <= v0 < 64 && 0 <= v1 < 64 && 0 <= v2 < 64 && v2 % 4 == 0
    ensures var d := DecodeGroup(v0, v1, v2, 0);
      EncodeLastTwo(d[0], d[1]) == [Sextet(v0), Sextet(v1), Sextet(v2), '=']
  {
    var x0, x1 := v0 * 4 + v1 / 16, v1 % 16 * 16 + v2 / 4;
    assert x0 / 4 == v0 && x0 % 4 == v1 / 16;
    assert x1 / 16 == v1 % 16 && x1 % 16 == v2 / 4;
    assert x0 % 4 * 16 + x1 / 16 == v1;
    assert x1 % 16 * 4 == v2;
  }

  /** A padded final group that decodes is the encoding of what it decodes to. */
  lemma DecodeCanonicalPadded(s: string, b: seq<byte>)
    requires |s| == 4 && s[3] == '=' && Decode(s) == Some(b)
    ensures Encode(b) == s
  {
    var c0, c1, c2, c3 := s[0], s[1], s[2], s[3];
    var v0, v1, v2 := SextetValue(c0), SextetValue(c1), SextetValue(c2);
    SextetOfValue(c0);
    SextetOfValue(c1);
    assert s == [c0, c1, c2, c3];
    if c2 == '=' {
      assert b == DecodeGroup(v0, v1, 0, 0)[..1];
      EncodeDecodedLastOne(v0, v1);
    } else {
      SextetOfValue(c2);
      assert b == DecodeGroup(v0, v1, v2, 0)[..2];
      EncodeDecodedLastTwo(v0, v1, v2);
    }
  }

  /** The decoder accepts only canonical encodings: whatever it decodes is the encoding of the
      bytes it returns. With `EncodeDecode`, the encoding is the one string that decodes to a
      given byte string. */
  lemma {:induction false} DecodeCanonical(s: string, b: seq<byte>)
    requires Decode(s) == Some(b)
    ensures Encode(b) == s
    decreases |s|
  {
    if |s| == 4 && s[3] == '=' {
      DecodeCanonicalPadded(s, b);
    } else if |s| > 0 {
      var c0, c1, c2, c3 := s[0], s[1], s[2], s[3];
      var v0, v1, v2, v3 := SextetValue(c0), SextetValue(c1), SextetValue(c2), SextetValue(c3);
      SextetOfValue(c0);
      SextetOfValue(c1);
      SextetOfValue(c2);
      SextetOfValue(c3);
      var rest := Decode(s[4..]).value;
      assert b == DecodeGroup(v0, v1, v2, v3) + rest;
      DecodeCanonical(s[4..], rest);
      EncodeDecodedGroup(v0, v1, v2, v3);
      assert b[3..] == rest;
      assert Encode(b) == EncodeGroup(b[0], b[1], b[2]) + Encode(rest);
      assert s == [c0, c1, c2, c3] + s[4..];
    }
  }
}
