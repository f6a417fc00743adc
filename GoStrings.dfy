/** The pieces of Go's standard library that the core relies on, stated over Unicode code points:
    UTF-8 length and encoding (`len(s)`, `[]byte(s)`), `fmt`'s `%d`, `strings.Split` with a
    one-character separator, and `strings.TrimSpace` with `unicode.IsSpace`. */
module GoStrings {
  import opened Wrappers
  import opened ConvoAITypes

  // ---------------------------------------------------------------------------------------------
  // UTF-8 (a Go string holds the UTF-8 bytes of its runes)

  /** Number of UTF-8 bytes of one code point. */
  function RuneLen(c: char): (n: nat)
    ensures 1 <= n <= 4
    ensures n == 1 <==> c as int < 0x80
  {
    var v := c as int;
    if v < 0x80 then 1 else if v < 0x800 then 2 else if v < 0x10000 then 3 else 4
  }

  /** UTF-8 encoding of one code point. */
  function EncodeRune(c: char): (r: seq<byte>)
    ensures |r| == RuneLen(c)
    ensures c as int < 0x80 ==> r == [c as int as byte]
  {
    var v := c as int;
    if v < 0x80 then [v as byte]
    else if v < 0x800 then [(0xC0 + v / 64) as byte, (0x80 + v % 64) as byte]
    else if v < 0x10000 then
      [(0xE0 + v / 4096) as byte, (0x80 + (v / 64) % 64) as byte, (0x80 + v % 64) as byte]
    else
      [(0xF0 + v / 262144) as byte, (0x80 + (v / 4096) % 64) as byte,
       (0x80 + (v / 64) % 64) as byte, (0x80 + v % 64) as byte]
  }

  /** Length of a UTF-8 sequence as announced by its leading byte (0 for a byte that cannot lead). */
  function LeadLen(b: byte): nat {
    if b < 0x80 then 1
    else if 0xC0 <= b < 0xE0 then 2
    else if 0xE0 <= b < 0xF0 then 3
    else if 0xF0 <= b < 0xF8 then 4
    else 0
  }

  /** The code point of one well-formed UTF-8 sequence. */
  function DecodeRune(bs: seq<byte>): int
    requires 1 <= |bs| == LeadLen(bs[0])
  {
    if |bs| == 1 then bs[0] as int
    else if |bs| == 2 then (bs[0] as int - 0xC0) * 64 + (bs[1] as int - 0x80)
    else if |bs| == 3 then
      (bs[0] as int - 0xE0) * 4096 + (bs[1] as int - 0x80) * 64 + (bs[2] as int - 0x80)
    else
      (bs[0] as int - 0xF0) * 262144 + (bs[1] as int - 0x80) * 4096
        + (bs[2] as int - 0x80) * 64 + (bs[3] as int - 0x80)
  }

  /** The leading byte of a rune's encoding announces its length, and decoding gives it back. */
  lemma RuneRoundTrip(c: char)
    ensures LeadLen(EncodeRune(c)[0]) == RuneLen(c)
    ensures DecodeRune(EncodeRune(c)) == c as int
  {
    var v := c as int;
    assert v <= 0x10FFFF;
    if v < 0x80 {
    } else if v < 0x800 {
      assert v == (v / 64) * 64 + v % 64;
    } else if v < 0x10000 {
      assert v / 64 == (v / 4096) * 64 + (v / 64) % 64;
      assert v == (v / 64) * 64 + v % 64;
    } else {
      assert v / 4096 == (v / 262144) * 64 + (v / 4096) % 64;
      assert v / 64 == (v / 4096) * 64 + (v / 64) % 64;
      assert v == (v / 64) * 64 + v % 64;
    }
  }

  /** Go's `len(s)`: the number of bytes of the UTF-8 encoding. */
  function Utf8Len(s: string): (n: nat)
    ensures |s| <= n <= 4 * |s|
  {
    if s == [] then 0 else RuneLen(s[0]) + Utf8Len(s[1..])
  }

  /** Go's `[]byte(s)`. */
  function Utf8Encode(s: string): (r: seq<byte>)
    ensures |r| == Utf8Len(s)
  {
    if s == [] then [] else EncodeRune(s[0]) + Utf8Encode(s[1..])
  }

  /** The code points of a byte sequence, or `None` when it is not well-formed UTF-8 as far as
      the lengths announced by its leading bytes go. */
  function Utf8Decode(bs: seq<byte>): Option<seq<int>>
    decreases |bs|
  {
    if bs == [] then Some([])
    else
      var n := LeadLen(bs[0]);
      if n == 0 || |bs| < n then None
      else
        match Utf8Decode(bs[n..])
        case None => None
        case Some(rest) => Some([DecodeRune(bs[..n])] + rest)
  }

  /** The code points of a string, as integers. */
  function CodePoints(s: string): (r: seq<int>)
    ensures |r| == |s| && forall i | 0 <= i < |s| :: r[i] == s[i] as int
  {
    seq(|s|, i requires 0 <= i < |s| => s[i] as int)
  }

  /** `[]byte(s)` loses nothing: decoding the bytes gives back the runes. */
  lemma {:induction false} Utf8RoundTrip(s: string)
    ensures Utf8Decode(Utf8Encode(s)) == Some(CodePoints(s))
  {
    if s != [] {
      var e := EncodeRune(s[0]);
      var bs := Utf8Encode(s);
      RuneRoundTrip(s[0]);
      assert bs == e + Utf8Encode(s[1..]);
      assert bs[0] == e[0];
      assert bs[..|e|] == e;
      assert bs[|e|..] == Utf8Encode(s[1..]);
      Utf8RoundTrip(s[1..]);
      assert CodePoints(s) == [s[0] as int] + CodePoints(s[1..]);
    }
  }

  /** On ASCII text, byte length and rune count agree, and the bytes are the character codes. */
  lemma {:induction false} AsciiUtf8(s: string)
    requires forall i | 0 <= i < |s| :: s[i] as int < 0x80
    ensures Utf8Len(s) == |s|
    ensures forall i | 0 <= i < |s| :: Utf8Encode(s)[i] as int == s[i] as int
  {
    if s != [] {
      AsciiUtf8(s[1..]);
      var e := Utf8Encode(s);
      assert e == [s[0] as int as byte] + Utf8Encode(s[1..]);
      forall i | 1 <= i < |s| ensures e[i] as int == s[i] as int {
        assert e[i] == Utf8Encode(s[1..])[i - 1];
        assert s[i] == s[1..][i - 1];
      }
    }
  }

  // ---------------------------------------------------------------------------------------------
  // fmt's %d

  predicate IsDigit(c: char) { '0' <= c <= '9' }

  function DigitChar(d: nat): (c: char)
    requires d < 10
    ensures IsDigit(c)
  {
    ('0' as int + d) as char
  }

  /** Decimal digits of a natural number, most significant first, no leading zero. */
  function Digits(n: nat): (s: string)
    ensures |s| >= 1 && (forall i | 0 <= i < |s| :: IsDigit(s[i]))
    ensures s[0] == '0' ==> n == 0
  {
    if n < 10 then [DigitChar(n)] else Digits(n / 10) + [DigitChar(n % 10)]
  }

  /** `fmt.Sprintf("%d", n)`: an optional minus sign followed by the digits of |n|. */
  function FormatInt(n: int): (s: string)
    ensures |s| >= 1
    ensures n >= 0 ==> forall i | 0 <= i < |s| :: IsDigit(s[i])
    ensures n < 0 ==> s[0] == '-'
  {
    if n < 0 then "-" + Digits(-n) else Digits(n)
  }

  /** The value of a string of decimal digits. */
  function DigitsValue(s: string): nat
    requires forall i | 0 <= i < |s| :: IsDigit(s[i])
  {
    if s == [] then 0
    else
      assert IsDigit(s[|s| - 1]);
      DigitsValue(s[..|s| - 1]) * 10 + (s[|s| - 1] as int - '0' as int)
  }

  /** The value of the text `%d` prints. */
  function ParseInt(s: string): int
    requires |s| >= 1
    requires forall i | 1 <= i < |s| :: IsDigit(s[i])
    requires s[0] == '-' || IsDigit(s[0])
  {
    if s[0] == '-' then -(DigitsValue(s[1..]) as int) else DigitsValue(s)
  }

  lemma {:induction false} DigitsRoundTrip(n: nat)
    ensures DigitsValue(Digits(n)) == n
  {
    if n >= 10 {
      var s := Digits(n);
      assert s[..|s| - 1] == Digits(n / 10);
      DigitsRoundTrip(n / 10);
    }
  }

  /** `%d` is read back as the number it printed. */
  lemma FormatIntRoundTrip(n: int)
    ensures ParseInt(FormatInt(n)) == n
  {
    if n < 0 {
      assert FormatInt(n)[1..] == Digits(-n);
      DigitsRoundTrip(-n);
    } else {
      DigitsRoundTrip(n);
    }
  }

  // ---------------------------------------------------------------------------------------------
  // strings.Split with a one-character separator

  /** `strings.Split(s, [sep])`: the pieces between separators, always at least one. */
  function Split(s: string, sep: char): (r: seq<string>)
    ensures |r| >= 1
    ensures forall i | 0 <= i < |r| :: sep !in r[i]
  {
    if s == [] then [""]
    else if s[0] == sep then [""] + Split(s[1..], sep)
    else
      var rest := Split(s[1..], sep);
      [[s[0]] + rest[0]] + rest[1..]
  }

  /** `strings.Join(pieces, [sep])`. */
  function Join(pieces: seq<string>, sep: char): string
    requires |pieces| >= 1
  {
    if |pieces| == 1 then pieces[0] else pieces[0] + [sep] + Join(pieces[1..], sep)
  }

  /** Splitting loses nothing: joining the pieces gives the string back. */
  lemma {:induction false} SplitJoin(s: string, sep: char)
    ensures Join(Split(s, sep), sep) == s
  {
    if s != [] {
      SplitJoin(s[1..], sep);
      var rest := Split(s[1..], sep);
      if s[0] != sep && |rest| > 1 {
        assert rest == [rest[0]] + rest[1..];
        assert Join(rest, sep) == rest[0] + [sep] + Join(rest[1..], sep);
      }
    }
  }

  /** A string without the separator is its own single piece. */
  lemma {:induction false} SplitNoSeparator(s: string, sep: char)
    requires sep !in s
    ensures Split(s, sep) == [s]
  {
    if s != [] {
      assert sep !in s[1..];
      SplitNoSeparator(s[1..], sep);
      assert [s[0]] + s[1..] == s;
    }
  }

  /** Splitting `a + sep + b` where `a` has no separator. */
  lemma {:induction false} SplitFirst(a: string, sep: char, b: string)
    requires sep !in a
    ensures Split(a + [sep] + b, sep) == [a] + Split(b, sep)
  {
    if a == [] {
      assert a + [sep] + b == [sep] + b;
      assert ([sep] + b)[1..] == b;
    } else {
      assert (a + [sep] + b)[1..] == a[1..] + [sep] + b;
      assert sep !in a[1..];
      SplitFirst(a[1..], sep, b);
      assert [a[0]] + a[1..] == a;
    }
  }

  /** Splitting at one separator occurrence: the pieces of `a` followed by the pieces of `b`. */
  lemma {:induction false} SplitConcat(a: string, sep: char, b: string)
    ensures Split(a + [sep] + b, sep) == Split(a, sep) + Split(b, sep)
  {
    if a == [] {
      assert a + [sep] + b == [sep] + b;
      assert ([sep] + b)[1..] == b;
    } else {
      assert (a + [sep] + b)[1..] == a[1..] + [sep] + b;
      SplitConcat(a[1..], sep, b);
      if a[0] != sep {
        var rest := Split(a[1..], sep);
        assert (rest + Split(b, sep))[0] == rest[0];
        assert (rest + Split(b, sep))[1..] == rest[1..] + Split(b, sep);
      }
    }
  }

  /** A separator at the end adds one empty last piece. */
  lemma {:induction false} SplitTrailing(s: string, sep: char)
    ensures Split(s + [sep], sep) == Split(s, sep) + [""]
  {
    if s == [] {
      assert s + [sep] == [sep];
      assert [sep][1..] == [];
    } else {
      assert (s + [sep])[1..] == s[1..] + [sep];
      SplitTrailing(s[1..], sep);
      if s[0] != sep {
        var rest := Split(s[1..], sep);
        assert (rest + [""])[0] == rest[0];
        assert (rest + [""])[1..] == rest[1..] + [""];
      }
    }
  }

  // ---------------------------------------------------------------------------------------------
  // strings.TrimSpace

  /** `unicode.IsSpace`: the Latin-1 spaces and the other code points with Unicode's White_Space
      property. */
  predicate IsSpace(c: char) {
    var v := c as int;
    (0x09 <= v <= 0x0D) || v == 0x20 || v == 0x85 || v == 0xA0
    || v == 0x1680 || (0x2000 <= v <= 0x200A) || v == 0x2028 || v == 0x2029
    || v == 0x202F || v == 0x205F || v == 0x3000
  }

  /** Drops the leading white space. */
  function TrimLeftSpace(s: string): string {
    if s != [] && IsSpace(s[0]) then TrimLeftSpace(s[1..]) else s
  }

  /** Drops the trailing white space. */
  function TrimRightSpace(s: string): string {
    if s != [] && IsSpace(s[|s| - 1]) then TrimRightSpace(s[..|s| - 1]) else s
  }

  /** `strings.TrimSpace`: white space removed at both ends. */
  function TrimSpace(s: string): (r: string)
    ensures |r| <= |s|
    ensures r == [] || (!IsSpace(r[0]) && !IsSpace(r[|r| - 1]))
  {
    TrimLeftSpaceIsSuffix(s);
    TrimRightSpaceIsPrefix(TrimLeftSpace(s));
    TrimRightSpace(TrimLeftSpace(s))
  }

  /** `TrimLeftSpace` removes a prefix made only of white space, and what it leaves does not start
      with white space. */
  lemma {:induction false} TrimLeftSpaceIsSuffix(s: string)
    ensures |TrimLeftSpace(s)| <= |s| && TrimLeftSpace(s) == s[|s| - |TrimLeftSpace(s)|..]
    ensures forall k | 0 <= k < |s| - |TrimLeftSpace(s)| :: IsSpace(s[k])
    ensures TrimLeftSpace(s) == [] || !IsSpace(TrimLeftSpace(s)[0])
  {
    if s != [] && IsSpace(s[0]) {
      TrimLeftSpaceIsSuffix(s[1..]);
      forall k | 1 <= k < |s| - |TrimLeftSpace(s)| ensures IsSpace(s[k]) {
        assert s[k] == s[1..][k - 1];
      }
    }
  }

  /** `TrimRightSpace` removes a suffix made only of white space, and what it leaves does not end
      with white space. */
  lemma {:induction false} TrimRightSpaceIsPrefix(s: string)
    ensures |TrimRightSpace(s)| <= |s| && TrimRightSpace(s) == s[..|TrimRightSpace(s)|]
    ensures forall k | |TrimRightSpace(s)| <= k < |s| :: IsSpace(s[k])
    ensures TrimRightSpace(s) == [] || !IsSpace(TrimRightSpace(s)[|TrimRightSpace(s)| - 1])
  {
    if s != [] && IsSpace(s[|s| - 1]) {
      TrimRightSpaceIsPrefix(s[..|s| - 1]);
      forall k | |TrimRightSpace(s)| <= k < |s| - 1 ensures IsSpace(s[k]) {
        assert s[k] == s[..|s| - 1][k];
      }
    }
  }

  /** What `TrimSpace` leaves is the infix of `s` between a white-space prefix and a white-space
      suffix, and it neither starts nor ends with white space. */
  lemma TrimSpaceIsTrimmedInfix(s: string)
    ensures exists i, j | 0 <= i <= j <= |s| ::
              && TrimSpace(s) == s[i..j]
              && (forall k | 0 <= k < i :: IsSpace(s[k]))
              && (forall k | j <= k < |s| :: IsSpace(s[k]))
    ensures TrimSpace(s) == [] || (!IsSpace(TrimSpace(s)[0]) && !IsSpace(TrimSpace(s)[|TrimSpace(s)| - 1]))
  {
    var l := TrimLeftSpace(s);
    TrimLeftSpaceIsSuffix(s);
    TrimRightSpaceIsPrefix(l);
    var r := TrimRightSpace(l);
    var i := |s| - |l|;
    assert r == s[i..i + |r|];
    forall k | i + |r| <= k < |s| ensures IsSpace(s[k]) {
      assert s[k] == l[k - i];
    }
  }

  /** Trimming twice is trimming once. */
  lemma TrimSpaceIdempotent(s: string)
    ensures TrimSpace(TrimSpace(s)) == TrimSpace(s)
  {
    var t := TrimSpace(s);
    TrimSpaceIsTrimmedInfix(s);
    if t != [] {
      assert TrimLeftSpace(t) == t;
      assert TrimRightSpace(t) == t;
    }
  }

  /** Leading white space in front of a string that does not start with white space is what
      `TrimLeftSpace` removes. */
  lemma {:induction false} TrimLeftPadding(ws: string, x: string)
    requires forall k | 0 <= k < |ws| :: IsSpace(ws[k])
    requires x == [] || !IsSpace(x[0])
    ensures TrimLeftSpace(ws + x) == x
  {
    if ws == [] {
      assert ws + x == x;
    } else {
      assert (ws + x)[0] == ws[0];
      assert (ws + x)[1..] == ws[1..] + x;
      TrimLeftPadding(ws[1..], x);
    }
  }

  /** Trailing white space behind a string that does not end with white space is what
      `TrimRightSpace` removes. */
  lemma {:induction false} TrimRightPadding(x: string, ws: string)
    requires forall k | 0 <= k < |ws| :: IsSpace(ws[k])
    requires x == [] || !IsSpace(x[|x| - 1])
    ensures TrimRightSpace(x + ws) == x
  {
    if ws == [] {
      assert x + ws == x;
    } else {
      var n := |ws| - 1;
      assert (x + ws)[|x + ws| - 1] == ws[n];
      assert (x + ws)[..|x + ws| - 1] == x + ws[..n];
      TrimRightPadding(x, ws[..n]);
    }
  }

  /** `TrimSpace` strips exactly the white-space padding around a string that neither starts nor
      ends with white space. */
  lemma TrimPadding(ws1: string, m: string, ws2: string)
    requires forall k | 0 <= k < |ws1| :: IsSpace(ws1[k])
    requires forall k | 0 <= k < |ws2| :: IsSpace(ws2[k])
    requires m == [] || (!IsSpace(m[0]) && !IsSpace(m[|m| - 1]))
    ensures TrimSpace(ws1 + m + ws2) == m
  {
    var x := m + ws2;
    assert ws1 + m + ws2 == ws1 + x;
    if m == [] {
      assert x == ws2;
      TrimLeftPadding(ws1 + ws2, []) by {
        forall k | 0 <= k < |ws1 + ws2| ensures IsSpace((ws1 + ws2)[k]) {
          if k < |ws1| { assert (ws1 + ws2)[k] == ws1[k]; } else { assert (ws1 + ws2)[k] == ws2[k - |ws1|]; }
        }
      }
      assert ws1 + x == (ws1 + ws2) + [];
    } else {
      assert x[0] == m[0];
      TrimLeftPadding(ws1, x);
      TrimRightPadding(m, ws2);
    }
  }
}
