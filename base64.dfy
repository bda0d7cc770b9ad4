/**
 * The standard base64 encoding of section 4 of RFC 4648, as
 * base64.StdEncoding.EncodeToString produces it: every three bytes become
 * four characters of the 64-letter alphabet, and a final group of one or
 * two bytes is completed with '=' padding.
 */
module Base64 {
  import opened Go

  /** The character of a 6-bit value: A-Z, a-z, 0-9, '+', '/'. */
  function Letter(v: int): (c: char)
    requires 0 <= v < 64
    ensures Sextet(c) == v
    ensures v < 62 <==> AlphaNumeric(c)
    ensures c != '='
  {
    if v < 26 then ('A' as int + v) as char
    else if v < 52 then ('a' as int + (v - 26)) as char
    else if v < 62 then ('0' as int + (v - 52)) as char
    else if v == 62 then '+'
    else '/'
  }

  /** The 6-bit value of an alphabet character; 0 for any other character, '=' included. */
  function Sextet(c: char): (v: int)
    ensures 0 <= v < 64
  {
    if 'A' <= c <= 'Z' then c as int - 'A' as int
    else if 'a' <= c <= 'z' then c as int - 'a' as int + 26
    else if '0' <= c <= '9' then c as int - '0' as int + 52
    else if c == '+' then 62
    else if c == '/' then 63
    else 0
  }

  predicate AlphaNumeric(c: char) {
    'A' <= c <= 'Z' || 'a' <= c <= 'z' || '0' <= c <= '9'
  }

  /** The four characters of three bytes: their 24 bits cut into four 6-bit values. */
  function Quad(b0: byte, b1: byte, b2: byte): (s: string)
    ensures |s| == 4 && forall i :: 0 <= i < 4 ==> s[i] != '='
  {
    var x0, x1, x2 := b0 as int, b1 as int, b2 as int;
    [Letter(x0 / 4), Letter(x0 % 4 * 16 + x1 / 16), Letter(x1 % 16 * 4 + x2 / 64), Letter(x2 % 64)]
  }

  /** The three bytes whose bits four characters carry. */
  function Triple(s: string): seq<byte>
    requires |s| >= 4
  {
    var v0, v1, v2, v3 := Sextet(s[0]), Sextet(s[1]), Sextet(s[2]), Sextet(s[3]);
    [(v0 * 4 + v1 / 16) as byte, (v1 % 16 * 16 + v2 / 4) as byte, (v2 % 4 * 64 + v3) as byte]
  }

  /**
   * EncodeToString: four characters per group of three bytes; a last group
   * of one or two bytes is the group completed with zero bits, cut to two or
   * three characters, and padded with '='.
   */
  function Encode(b: seq<byte>): (s: string)
    ensures |s| % 4 == 0
    decreases |b|
  {
    if |b| == 0 then ""
    else if |b| == 1 then Quad(b[0], 0, 0)[..2] + "=="
    else if |b| == 2 then Quad(b[0], b[1], 0)[..3] + "="
    else Quad(b[0], b[1], b[2]) + Encode(b[3..])
  }

  /**
   * The decoding of well-formed text: each group of four characters gives
   * three bytes, or two or one when it ends in one or two '='.
   */
  function Decode(s: string): seq<byte>
    requires |s| % 4 == 0
    decreases |s|
  {
    if |s| == 0 then []
    else if |s| == 4 && s[2] == '=' && s[3] == '=' then Triple(s)[..1]
    else if |s| == 4 && s[3] == '=' then Triple(s)[..2]
    else Triple(s) + Decode(s[4..])
  }

  /** Four characters for every group of three bytes, a last partial group included. */
  lemma {:induction false} EncodeLength(b: seq<byte>)
    ensures |Encode(b)| == 4 * ((|b| + 2) / 3)
    decreases |b|
  {
    var n := |b|;
    if n >= 3 {
      EncodeLength(b[3..]);
      assert |Encode(b)| == 4 + |Encode(b[3..])|;
      assert (n + 2) / 3 == (n - 1) / 3 + 1;
    }
  }

  /** Cutting 24 bits into four 6-bit values and joining them again gives the three bytes back. */
  lemma BitsRoundTrip(x0: int, x1: int, x2: int)
    requires 0 <= x0 < 256 && 0 <= x1 < 256 && 0 <= x2 < 256
    ensures var v1, v2 := x0 % 4 * 16 + x1 / 16, x1 % 16 * 4 + x2 / 64;
      x0 / 4 * 4 + v1 / 16 == x0 && v1 % 16 * 16 + v2 / 4 == x1 && v2 % 4 * 64 + x2 % 64 == x2
  {
  }

  /** Decoding undoes encoding. */
  lemma {:induction false} DecodeEncode(b: seq<byte>)
    ensures Decode(Encode(b)) == b
    decreases |b|
  {
    if |b| == 1 || |b| == 2 {
      DecodeEncodeLastGroup(b);
    } else if |b| >= 3 {
      var rest := b[3..];
      FullGroupRoundTrip(b[0], b[1], b[2]);
      DecodeGroups(Quad(b[0], b[1], b[2]), Encode(rest));
      DecodeEncode(rest);
      assert b == [b[0], b[1], b[2]] + rest;
    }
  }

  /** The three bytes of a whole group come back from its four characters. */
  lemma FullGroupRoundTrip(b0: byte, b1: byte, b2: byte)
    ensures Triple(Quad(b0, b1, b2)) == [b0, b1, b2]
  {
    BitsRoundTrip(b0 as int, b1 as int, b2 as int);
  }

  /** Text made of a group without padding, then more groups, decodes group by group. */
  lemma DecodeGroups(q: string, rest: string)
    requires |q| == 4 && q[3] != '=' && |rest| % 4 == 0
    ensures Decode(q + rest) == Triple(q) + Decode(rest)
  {
    var s := q + rest;
    assert s[..4] == q && s[4..] == rest;
    assert Triple(s) == Triple(q);
  }

  /** A last group of one or two bytes comes back from its padded characters. */
  lemma DecodeEncodeLastGroup(b: seq<byte>)
    requires |b| == 1 || |b| == 2
    ensures Decode(Encode(b)) == b
  {
    if |b| == 1 {
      DecodeEncodeOne(b[0]);
      assert b == [b[0]];
    } else {
      DecodeEncodeTwo(b[0], b[1]);
      assert b == [b[0], b[1]];
    }
  }

  lemma DecodeEncodeOne(b0: byte)
    ensures Decode(Encode([b0])) == [b0]
  {
    var x0 := b0 as int;
    var s := Encode([b0]);
    assert s == Quad(b0, 0, 0)[..2] + "==";
    assert Sextet(s[0]) == x0 / 4 && Sextet(s[1]) == x0 % 4 * 16;
    BitsRoundTrip(x0, 0, 0);
    assert Triple(s)[0] == b0;
  }

  lemma DecodeEncodeTwo(b0: byte, b1: byte)
    ensures Decode(Encode([b0, b1])) == [b0, b1]
  {
    var x0, x1 := b0 as int, b1 as int;
    var s := Encode([b0, b1]);
    assert s == Quad(b0, b1, 0)[..3] + "=";
    assert Sextet(s[0]) == x0 / 4 && Sextet(s[1]) == x0 % 4 * 16 + x1 / 16 && Sextet(s[2]) == x1 % 16 * 4;
    BitsRoundTrip(x0, x1, 0);
    assert Triple(s)[..2] == [b0, b1];
  }

  /** Without padding, that is for a whole number of groups, every character is in the alphabet. */
  lemma {:induction false} EncodeWholeGroups(b: seq<byte>)
    requires |b| % 3 == 0
    ensures forall i :: 0 <= i < |Encode(b)| ==> Encode(b)[i] != '='
    ensures forall i :: 0 <= i < |Encode(b)| ==> AlphaNumeric(Encode(b)[i]) || Encode(b)[i] in "+/"
    decreases |b|
  {
    if |b| > 0 {
      EncodeWholeGroups(b[3..]);
      var s := Encode(b);
      assert s[4..] == Encode(b[3..]);
      forall i | 0 <= i < |s| ensures s[i] != '=' && (AlphaNumeric(s[i]) || s[i] in "+/") {
        if i >= 4 {
          assert s[i] == s[4..][i - 4];
        }
      }
    }
  }

  /** strings.NewReplacer("+", "", "/", "").Replace: the text with every '+' and '/' removed. */
  function Stripped(s: string): (r: string)
    ensures |r| <= |s|
    ensures forall i :: 0 <= i < |r| ==> r[i] != '+' && r[i] != '/'
    decreases |s|
  {
    if s == [] then []
    else (if s[0] == '+' || s[0] == '/' then [] else [s[0]]) + Stripped(s[1..])
  }

  /** Stripping keeps the other characters: each one left was in the text. */
  lemma {:induction false} StrippedFromText(s: string)
    ensures forall i :: 0 <= i < |Stripped(s)| ==> Stripped(s)[i] in s
    decreases |s|
  {
    if s != [] {
      StrippedFromText(s[1..]);
      var head := if s[0] == '+' || s[0] == '/' then [] else [s[0]];
      forall i | 0 <= i < |Stripped(s)| ensures Stripped(s)[i] in s {
        if i >= |head| {
          assert Stripped(s)[i] == Stripped(s[1..])[i - |head|];
          assert Stripped(s[1..])[i - |head|] in s[1..];
        }
      }
    }
  }

  /** Stripping distributes over concatenation: each character is kept or dropped on its own. */
  lemma {:induction false} StrippedConcat(s: string, t: string)
    ensures Stripped(s + t) == Stripped(s) + Stripped(t)
    decreases |s|
  {
    if s == [] {
      assert s + t == t;
    } else {
      assert (s + t)[0] == s[0] && (s + t)[1..] == s[1..] + t;
      StrippedConcat(s[1..], t);
    }
  }

  /** Text with no '+' or '/' is left as it is, so stripping twice is stripping once. */
  lemma {:induction false} StrippedKeepsCleanText(s: string)
    requires forall i :: 0 <= i < |s| ==> s[i] != '+' && s[i] != '/'
    ensures Stripped(s) == s
    decreases |s|
  {
    if s != [] {
      assert forall i :: 0 <= i < |s[1..]| ==> s[1..][i] == s[i + 1];
      StrippedKeepsCleanText(s[1..]);
    }
  }

  /** Every character other than '+' and '/' is kept as often as it occurs; those two are all dropped. */
  lemma {:induction false} StrippedCounts(s: string, c: char)
    ensures multiset(Stripped(s))[c] == if c == '+' || c == '/' then 0 else multiset(s)[c]
    decreases |s|
  {
    if s != [] {
      StrippedCounts(s[1..], c);
      assert s == [s[0]] + s[1..];
    }
  }
}
