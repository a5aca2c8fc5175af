/**
 * Base64 with the standard alphabet and `=` padding of section 4 of RFC 4648,
 * as `java.util.Base64.getEncoder()` produces it, and a decoder that inverts it.
 */
module Base64 {
  import opened Wrappers

  type Byte = b: int | 0 <= b < 256
  type Sextet = v: int | 0 <= v < 64

  /** Table 1 of RFC 4648: A-Z, a-z, 0-9, '+', '/'. */
  function Char(v: Sextet): char {
    if v < 26 then (65 + v) as char
    else if v < 52 then (97 + v - 26) as char
    else if v < 62 then (48 + v - 52) as char
    else if v == 62 then '+'
    else '/'
  }

  /** The value of an alphabet character; None for any other character, '=' included. */
  function Value(c: char): Option<Sextet> {
    if 'A' <= c <= 'Z' then Some(c as int - 65)
    else if 'a' <= c <= 'z' then Some(c as int - 97 + 26)
    else if '0' <= c <= '9' then Some(c as int - 48 + 52)
    else if c == '+' then Some(62)
    else if c == '/' then Some(63)
    else None
  }

  const Pad := '='

  /** Three bytes, 24 bits, as four characters of six bits each. */
  function EncodeGroup(b0: Byte, b1: Byte, b2: Byte): string {
    [Char(b0 / 4), Char(b0 % 4 * 16 + b1 / 16), Char(b1 % 16 * 4 + b2 / 64), Char(b2 % 64)]
  }

  /**
   * `encodeToString`: whole groups of three bytes, then a final group of one
   * or two bytes padded with zero bits and `=` to four characters.
   */
  function Encode(b: seq<Byte>): (s: string)
    ensures |s| == (|b| + 2) / 3 * 4
    decreases |b|
  {
    if |b| == 0 then ""
    else if |b| == 1 then [Char(b[0] / 4), Char(b[0] % 4 * 16), Pad, Pad]
    else if |b| == 2 then [Char(b[0] / 4), Char(b[0] % 4 * 16 + b[1] / 16), Char(b[1] % 16 * 4), Pad]
    else EncodeGroup(b[0], b[1], b[2]) + Encode(b[3..])
  }

  /**
   * One quantum of four characters. Padding is accepted only in the last one,
   * and only with its pad bits zero, as section 3.5 of RFC 4648 has the
   * encoder leave them: every accepted text is the canonical encoding.
   */
  function DecodeQuantum(q: string, last: bool): Option<seq<Byte>>
    requires |q| == 4
  {
    var v0, v1, v2, v3 := Value(q[0]), Value(q[1]), Value(q[2]), Value(q[3]);
    if v0.None? || v1.None? then None
    else
      var b0 := v0.value * 4 + v1.value / 16;
      if v2.Some? && v3.Some? then
        Some([b0, v1.value % 16 * 16 + v2.value / 4, v2.value % 4 * 64 + v3.value])
      else if last && v2.Some? && q[3] == Pad && v2.value % 4 == 0 then
        Some([b0, v1.value % 16 * 16 + v2.value / 4])
      else if last && q[2] == Pad && q[3] == Pad && v1.value % 16 == 0 then
        Some([b0])
      else None
  }

  function Decode(s: string): Option<seq<Byte>>
    decreases |s|
  {
    if s == [] then Some([])
    else if |s| < 4 then None
    else match DecodeQuantum(s[..4], |s| == 4)
      case None => None
      case Some(head) =>
        match Decode(s[4..])
        case None => None
        case Some(tail) => Some(head + tail)
  }

  lemma ValueOfChar(v: Sextet)
    ensures Value(Char(v)) == Some(v)
  {
  }

  lemma DecodeGroup(b0: Byte, b1: Byte, b2: Byte, last: bool)
    ensures DecodeQuantum(EncodeGroup(b0, b1, b2), last) == Some([b0, b1, b2])
  {
    var q := EncodeGroup(b0, b1, b2);
    ValueOfChar(b0 / 4);
    ValueOfChar(b0 % 4 * 16 + b1 / 16);
    ValueOfChar(b1 % 16 * 4 + b2 / 64);
    ValueOfChar(b2 % 64);
    assert (b0 % 4 * 16 + b1 / 16) / 16 == b0 % 4;
    assert (b0 % 4 * 16 + b1 / 16) % 16 == b1 / 16;
    assert (b1 % 16 * 4 + b2 / 64) / 4 == b1 % 16;
    assert (b1 % 16 * 4 + b2 / 64) % 4 == b2 / 64;
  }

  lemma DecodeOne(b0: Byte)
    ensures Decode(Encode([b0])) == Some([b0])
  {
    var s := Encode([b0]);
    ValueOfChar(b0 / 4);
    ValueOfChar(b0 % 4 * 16);
    assert (b0 % 4 * 16) / 16 == b0 % 4;
    assert DecodeQuantum(s[..4], true) == Some([b0]);
    assert s[4..] == [] && Decode(s[4..]) == Some([]);
    assert [b0] + [] == [b0];
  }

  lemma DecodeTwo(b0: Byte, b1: Byte)
    ensures Decode(Encode([b0, b1])) == Some([b0, b1])
  {
    var s := Encode([b0, b1]);
    ValueOfChar(b0 / 4);
    ValueOfChar(b0 % 4 * 16 + b1 / 16);
    ValueOfChar(b1 % 16 * 4);
    assert (b0 % 4 * 16 + b1 / 16) / 16 == b0 % 4;
    assert (b0 % 4 * 16 + b1 / 16) % 16 == b1 / 16;
    assert (b1 % 16 * 4) / 4 == b1 % 16;
    assert DecodeQuantum(s[..4], true) == Some([b0, b1]);
    assert s[4..] == [] && Decode(s[4..]) == Some([]);
    assert [b0, b1] + [] == [b0, b1];
  }

  /** A quantum that decodes, followed by a text that decodes, decodes to the two results joined. */
  lemma DecodeQuantumThen(q: string, rest: string, head: seq<Byte>, tail: seq<Byte>)
    requires |q| == 4
    requires DecodeQuantum(q, rest == []) == Some(head) && Decode(rest) == Some(tail)
    ensures Decode(q + rest) == Some(head + tail)
  {
    var s := q + rest;
    assert s[..4] == q && s[4..] == rest;
  }

  /** One whole group in front of bytes whose encoding decodes back. */
  lemma DecodeGroupThen(b0: Byte, b1: Byte, b2: Byte, tail: seq<Byte>)
    requires Decode(Encode(tail)) == Some(tail)
    ensures Decode(Encode([b0, b1, b2] + tail)) == Some([b0, b1, b2] + tail)
  {
    var b := [b0, b1, b2] + tail;
    assert b[0] == b0 && b[1] == b1 && b[2] == b2 && b[3..] == tail;
    var q := EncodeGroup(b0, b1, b2);
    var rest := Encode(tail);
    assert Encode(b) == q + rest;
    DecodeGroup(b0, b1, b2, rest == []);
    DecodeQuantumThen(q, rest, [b0, b1, b2], tail);
  }

  lemma SplitFirstGroup(b: seq<Byte>)
    requires |b| >= 3
    ensures [b[0], b[1], b[2]] + b[3..] == b
  {
    assert b[..3] == [b[0], b[1], b[2]];
    assert b[..3] + b[3..] == b;
  }

  /** Decoding undoes encoding, for every byte sequence. */
  lemma {:induction false} DecodeEncode(b: seq<Byte>)
    ensures Decode(Encode(b)) == Some(b)
    decreases |b|
  {
    if |b| == 1 {
      assert b == [b[0]];
      DecodeOne(b[0]);
    } else if |b| == 2 {
      assert b == [b[0], b[1]];
      DecodeTwo(b[0], b[1]);
    } else if |b| >= 3 {
      SplitFirstGroup(b);
      DecodeEncode(b[3..]);
      DecodeGroupThen(b[0], b[1], b[2], b[3..]);
    }
  }

  lemma CharOfValue(c: char)
    requires Value(c).Some?
    ensures Char(Value(c).value) == c
  {
  }

  /** Regrouping four sextets into three bytes and back gives the sextets again. */
  lemma RegroupSextets(v0: int, v1: int, v2: int, v3: int)
    requires 0 <= v0 < 64 && 0 <= v1 < 64 && 0 <= v2 < 64 && 0 <= v3 < 64
    ensures var b0, b1, b2 := v0 * 4 + v1 / 16, v1 % 16 * 16 + v2 / 4, v2 % 4 * 64 + v3;
      && 0 <= b0 < 256 && 0 <= b1 < 256 && 0 <= b2 < 256
      && b0 / 4 == v0 && b0 % 4 * 16 + b1 / 16 == v1
      && b1 % 16 * 4 + b2 / 64 == v2 && b2 % 64 == v3
  {
  }

  /** A full quantum is the encoding of the three bytes it decodes to. */
  lemma EncodeFullQuantum(q: string, last: bool)
    requires |q| == 4 && DecodeQuantum(q, last).Some? && |DecodeQuantum(q, last).value| == 3
    ensures EncodeGroup(DecodeQuantum(q, last).value[0], DecodeQuantum(q, last).value[1],
                        DecodeQuantum(q, last).value[2]) == q
  {
    var v0: int, v1: int, v2: int, v3: int := Value(q[0]).value, Value(q[1]).value, Value(q[2]).value, Value(q[3]).value;
    var h := DecodeQuantum(q, last).value;
    assert h == [v0 * 4 + v1 / 16, v1 % 16 * 16 + v2 / 4, v2 % 4 * 64 + v3];
    RegroupSextets(v0, v1, v2, v3);
    CharOfValue(q[0]);
    CharOfValue(q[1]);
    CharOfValue(q[2]);
    CharOfValue(q[3]);
  }

  /** A last quantum with one `=` is the encoding of the two bytes it decodes to. */
  lemma EncodeTwoQuantum(q: string)
    requires |q| == 4 && DecodeQuantum(q, true).Some? && |DecodeQuantum(q, true).value| == 2
    ensures Encode(DecodeQuantum(q, true).value) == q
  {
    var v0: int, v1: int, v2: int := Value(q[0]).value, Value(q[1]).value, Value(q[2]).value;
    CharOfValue(q[0]);
    CharOfValue(q[1]);
    CharOfValue(q[2]);
    var b0: int, b1: int := v0 * 4 + v1 / 16, v1 % 16 * 16 + v2 / 4;
    assert DecodeQuantum(q, true).value == [b0, b1];
    assert b0 / 4 == v0 && b0 % 4 * 16 + b1 / 16 == v1;
    assert b1 % 16 * 4 == v2;
  }

  /** A last quantum with two `=` is the encoding of the byte it decodes to. */
  lemma EncodeOneQuantum(q: string)
    requires |q| == 4 && DecodeQuantum(q, true).Some? && |DecodeQuantum(q, true).value| == 1
    ensures Encode(DecodeQuantum(q, true).value) == q
  {
    var v0: int, v1: int := Value(q[0]).value, Value(q[1]).value;
    CharOfValue(q[0]);
    CharOfValue(q[1]);
    var b0: int := v0 * 4 + v1 / 16;
    assert DecodeQuantum(q, true).value == [b0];
    assert b0 / 4 == v0 && b0 % 4 * 16 == v1;
  }

  /** The last quantum is the encoding of what it decodes to. */
  lemma EncodeLastQuantum(q: string)
    requires |q| == 4 && DecodeQuantum(q, true).Some?
    ensures Encode(DecodeQuantum(q, true).value) == q
  {
    var h := DecodeQuantum(q, true).value;
    if |h| == 3 {
      EncodeFullQuantum(q, true);
      assert h[3..] == [];
    } else if |h| == 2 {
      EncodeTwoQuantum(q);
    } else {
      EncodeOneQuantum(q);
    }
  }

  /** Three bytes in front of bytes whose encoding is known. */
  lemma EncodeGroupThen(head: seq<Byte>, tail: seq<Byte>, rest: string)
    requires |head| == 3 && Encode(tail) == rest
    ensures Encode(head + tail) == EncodeGroup(head[0], head[1], head[2]) + rest
  {
    var b := head + tail;
    assert b[0] == head[0] && b[1] == head[1] && b[2] == head[2] && b[3..] == tail;
  }

  /**
   * Decoding succeeds only on the canonical encoding: a text that decodes to
   * some bytes is exactly the encoding of those bytes.
   */
  lemma {:induction false} EncodeDecode(s: string)
    requires Decode(s).Some?
    ensures Encode(Decode(s).value) == s
    decreases |s|
  {
    if s != [] {
      var q, rest := s[..4], s[4..];
      assert s == q + rest;
      var head := DecodeQuantum(q, |s| == 4).value;
      if |s| == 4 {
        EncodeLastQuantum(q);
        assert Decode(rest) == Some([]);
        assert head + [] == head;
      } else {
        EncodeFullQuantum(q, false);
        EncodeDecode(rest);
        EncodeGroupThen(head, Decode(rest).value, rest);
      }
    }
  }

  /** Two texts that decode to the same bytes are the same text. */
  lemma DecodeDeterminesText(s: string, t: string)
    requires Decode(s).Some? && Decode(s) == Decode(t)
    ensures s == t
  {
    EncodeDecode(s);
    EncodeDecode(t);
  }

  /** The test vectors of section 10 of RFC 4648 up to one group: "", "f", "fo", "foo". */
  lemma KnownAnswersOneGroup()
    ensures Encode([]) == ""
    ensures Encode([102]) == "Zg=="
    ensures Encode([102, 111]) == "Zm8="
    ensures Encode([102, 111, 111]) == "Zm9v"
  {
  }

  /** The longer test vectors of section 10 of RFC 4648: "foob", "fooba", "foobar". */
  lemma KnownAnswersTwoGroups()
    ensures Encode([102, 111, 111, 98]) == "Zm9vYg=="
    ensures Encode([102, 111, 111, 98, 97]) == "Zm9vYmE="
    ensures Encode([102, 111, 111, 98, 97, 114]) == "Zm9vYmFy"
  {
    var foo: seq<Byte> := [102, 111, 111];
    KnownAnswersOneGroup();
    assert EncodeGroup(102, 111, 111) == "Zm9v";
    var b1: seq<Byte>, b2: seq<Byte>, b3: seq<Byte> := [98], [98, 97], [98, 97, 114];
    assert Encode(b1) == "Yg==" && Encode(b2) == "YmE=" && Encode(b3) == "YmFy";
    EncodeGroupThen(foo, b1, "Yg==");
    EncodeGroupThen(foo, b2, "YmE=");
    EncodeGroupThen(foo, b3, "YmFy");
    assert foo + b1 == [102, 111, 111, 98];
    assert foo + b2 == [102, 111, 111, 98, 97];
    assert foo + b3 == [102, 111, 111, 98, 97, 114];
  }
}
