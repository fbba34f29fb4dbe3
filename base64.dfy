/**
 * Base64 with the standard alphabet and `=` padding (section 4 of RFC 4648),
 * the encoding Node's `Buffer#toString('base64')` produces.
 * `Decode` is a reference decoder used to state that an attachment carries
 * exactly the bytes it was made from.
 */
module Base64 {
  import opened Wrappers
  import opened Bytes

  type sextet = x: int | 0 <= x < 64

  const Pad: char := '='

  predicate IsAlphabetChar(c: char) {
    ('A' <= c <= 'Z') || ('a' <= c <= 'z') || ('0' <= c <= '9') || c == '+' || c == '/'
  }

  /** Position of an alphabet character in the table of section 4 of RFC 4648. */
  function IndexOf(c: char): sextet
    requires IsAlphabetChar(c)
  {
    if 'A' <= c <= 'Z' then c as int - 'A' as int
    else if 'a' <= c <= 'z' then c as int - 'a' as int + 26
    else if '0' <= c <= '9' then c as int - '0' as int + 52
    else if c == '+' then 62
    else 63
  }

  /** The character the table assigns to a 6-bit value; `IndexOf` undoes it. */
  function CharOf(i: sextet): (c: char)
    ensures IsAlphabetChar(c) && IndexOf(c) == i
  {
    if i < 26 then ('A' as int + i) as char
    else if i < 52 then ('a' as int + (i - 26)) as char
    else if i < 62 then ('0' as int + (i - 52)) as char
    else if i == 62 then '+'
    else '/'
  }

  /** `CharOf` undoes `IndexOf`: the table is a bijection. */
  lemma CharOfIndexOf(c: char)
    requires IsAlphabetChar(c)
    ensures CharOf(IndexOf(c)) == c
  {
  }

  /** Three bytes (24 bits) become four characters. */
  function Quad3(b0: byte, b1: byte, b2: byte): string {
    [CharOf(b0 / 4), CharOf((b0 % 4) * 16 + b1 / 16), CharOf((b1 % 16) * 4 + b2 / 64), CharOf(b2 % 64)]
  }

  /** A final group of two bytes: three characters and one pad. */
  function Quad2(b0: byte, b1: byte): string {
    [CharOf(b0 / 4), CharOf((b0 % 4) * 16 + b1 / 16), CharOf((b1 % 16) * 4), Pad]
  }

  /** A final group of one byte: two characters and two pads. */
  function Quad1(b0: byte): string {
    [CharOf(b0 / 4), CharOf((b0 % 4) * 16), Pad, Pad]
  }

  predicate IsEncodingChar(c: char) {
    IsAlphabetChar(c) || c == Pad
  }

  /** Base64 text of a byte sequence: four characters per started group of three bytes. */
  function Encode(b: seq<byte>): (s: string)
    ensures |s| == 4 * ((|b| + 2) / 3)
    ensures forall i :: 0 <= i < |s| ==> IsEncodingChar(s[i])
    decreases |b|
  {
    if |b| == 0 then ""
    else if |b| == 1 then Quad1(b[0])
    else if |b| == 2 then Quad2(b[0], b[1])
    else Quad3(b[0], b[1], b[2]) + Encode(b[3..])
  }

  /** Decodes one unpadded group of four characters. */
  function DecodeQuad(q: string): Option<seq<byte>>
    requires |q| == 4
  {
    if IsAlphabetChar(q[0]) && IsAlphabetChar(q[1]) && IsAlphabetChar(q[2]) && IsAlphabetChar(q[3]) then
      var i0, i1, i2, i3 := IndexOf(q[0]), IndexOf(q[1]), IndexOf(q[2]), IndexOf(q[3]);
      Some([i0 * 4 + i1 / 16, (i1 % 16) * 16 + i2 / 4, (i2 % 4) * 64 + i3])
    else None
  }

  /**
   * Decodes the last group, which may carry one or two pads. The bits a pad
   * leaves unused must be zero (section 3.5 of RFC 4648), so that every byte
   * sequence has exactly one text.
   */
  function DecodeLastQuad(q: string): Option<seq<byte>>
    requires |q| == 4
  {
    if q[2] == Pad && q[3] == Pad then
      if IsAlphabetChar(q[0]) && IsAlphabetChar(q[1]) && IndexOf(q[1]) % 16 == 0 then
        Some([IndexOf(q[0]) * 4 + IndexOf(q[1]) / 16])
      else None
    else if q[3] == Pad then
      if IsAlphabetChar(q[0]) && IsAlphabetChar(q[1]) && IsAlphabetChar(q[2]) && IndexOf(q[2]) % 4 == 0 then
        var i0, i1, i2 := IndexOf(q[0]), IndexOf(q[1]), IndexOf(q[2]);
        Some([i0 * 4 + i1 / 16, (i1 % 16) * 16 + i2 / 4])
      else None
    else DecodeQuad(q)
  }

  /**
   * Strict reference decoder: length a multiple of four, pads only in the
   * last group, unused pad bits zero.
   */
  function Decode(s: string): Option<seq<byte>>
    decreases |s|
  {
    if |s| == 0 then Some([])
    else if |s| < 4 then None
    else if |s| == 4 then DecodeLastQuad(s)
    else
      match DecodeQuad(s[..4])
      case None => None
      case Some(head) =>
        match Decode(s[4..])
        case None => None
        case Some(tail) => Some(head + tail)
  }

  lemma Rebuild0(b0: byte, b1: byte)
    ensures (b0 / 4) * 4 + ((b0 % 4) * 16 + b1 / 16) / 16 == b0
  {
    assert ((b0 % 4) * 16 + b1 / 16) / 16 == b0 % 4;
  }

  lemma Rebuild1(b0: byte, b1: byte, b2: byte)
    ensures (((b0 % 4) * 16 + b1 / 16) % 16) * 16 + ((b1 % 16) * 4 + b2 / 64) / 4 == b1
  {
    assert ((b0 % 4) * 16 + b1 / 16) % 16 == b1 / 16;
    assert ((b1 % 16) * 4 + b2 / 64) / 4 == b1 % 16;
  }

  lemma Rebuild2(b1: byte, b2: byte)
    ensures (((b1 % 16) * 4 + b2 / 64) % 4) * 64 + b2 % 64 == b2
  {
    assert ((b1 % 16) * 4 + b2 / 64) % 4 == b2 / 64;
  }

  lemma Quad3RoundTrip(b0: byte, b1: byte, b2: byte)
    ensures DecodeQuad(Quad3(b0, b1, b2)) == Some([b0, b1, b2])
    ensures DecodeLastQuad(Quad3(b0, b1, b2)) == Some([b0, b1, b2])
  {
    var q := Quad3(b0, b1, b2);
    var i0, i1, i2, i3 := b0 / 4, (b0 % 4) * 16 + b1 / 16, (b1 % 16) * 4 + b2 / 64, b2 % 64;
    assert IndexOf(q[0]) == i0 && IndexOf(q[1]) == i1 && IndexOf(q[2]) == i2 && IndexOf(q[3]) == i3;
    Rebuild0(b0, b1);
    Rebuild1(b0, b1, b2);
    Rebuild2(b1, b2);
    assert DecodeQuad(q) == Some([i0 * 4 + i1 / 16, (i1 % 16) * 16 + i2 / 4, (i2 % 4) * 64 + i3]);
  }

  lemma Quad1RoundTrip(b0: byte)
    ensures DecodeLastQuad(Quad1(b0)) == Some([b0])
  {
    var q := Quad1(b0);
    assert IndexOf(q[0]) == b0 / 4 && IndexOf(q[1]) == (b0 % 4) * 16;
  }

  lemma Quad2RoundTrip(b0: byte, b1: byte)
    ensures DecodeLastQuad(Quad2(b0, b1)) == Some([b0, b1])
  {
    var q := Quad2(b0, b1);
    assert IndexOf(q[0]) == b0 / 4;
    assert IndexOf(q[1]) == (b0 % 4) * 16 + b1 / 16;
    assert IndexOf(q[2]) == (b1 % 16) * 4;
    Rebuild0(b0, b1);
    Rebuild1(b0, b1, 0);
  }

  /** A full group followed by more text decodes group by group. */
  lemma DecodeStep(q: string, rest: string, head: seq<byte>, tail: seq<byte>)
    requires |q| == 4 && |rest| > 0
    requires DecodeQuad(q) == Some(head) && Decode(rest) == Some(tail)
    ensures Decode(q + rest) == Some(head + tail)
  {
    var s := q + rest;
    assert s[..4] == q;
    assert s[4..] == rest;
  }

  /** Decoding undoes encoding: every byte sequence survives the round trip. */
  lemma {:induction false} DecodeEncode(b: seq<byte>)
    ensures Decode(Encode(b)) == Some(b)
    decreases |b|
  {
    if |b| == 0 {
    } else if |b| == 1 {
      Quad1RoundTrip(b[0]);
      assert Encode(b) == Quad1(b[0]) && b == [b[0]];
    } else if |b| == 2 {
      Quad2RoundTrip(b[0], b[1]);
      assert Encode(b) == Quad2(b[0], b[1]) && b == [b[0], b[1]];
    } else {
      var q := Quad3(b[0], b[1], b[2]);
      var tail := b[3..];
      assert Encode(b) == q + Encode(tail);
      assert b == [b[0], b[1], b[2]] + tail;
      Quad3RoundTrip(b[0], b[1], b[2]);
      if |tail| == 0 {
        assert Encode(b) == q && |q| == 4;
        assert b == [b[0], b[1], b[2]];
      } else {
        DecodeEncode(tail);
        DecodeStep(q, Encode(tail), [b[0], b[1], b[2]], tail);
      }
    }
  }

  /** The test vectors of section 10 of RFC 4648 for "f", "fo" and "foo". */
  lemma KnownAnswers()
    ensures Encode([102]) == "Zg=="
    ensures Encode([102, 111]) == "Zm8="
    ensures Encode([102, 111, 111]) == "Zm9v"
  {
    assert Encode([102]) == Quad1(102);
    assert Encode([102, 111]) == Quad2(102, 111);
    assert Encode([102, 111, 111]) == Quad3(102, 111, 111) + Encode([]);
  }

  lemma Unpack0(i0: sextet, i1: sextet)
    ensures (i0 * 4 + i1 / 16) / 4 == i0 && (i0 * 4 + i1 / 16) % 4 == i1 / 16
  {
  }

  lemma Unpack1(i1: sextet, i2: sextet)
    ensures ((i1 % 16) * 16 + i2 / 4) / 16 == i1 % 16 && ((i1 % 16) * 16 + i2 / 4) % 16 == i2 / 4
  {
  }

  lemma Unpack2(i2: sextet, i3: sextet)
    ensures ((i2 % 4) * 64 + i3) / 64 == i2 % 4 && ((i2 % 4) * 64 + i3) % 64 == i3
  {
  }

  /** A full group that decodes is the encoding of the three bytes it gives. */
  lemma QuadInverse(q: string)
    requires |q| == 4 && DecodeQuad(q).Some?
    ensures |DecodeQuad(q).value| == 3
    ensures var v := DecodeQuad(q).value; Quad3(v[0], v[1], v[2]) == q
  {
    var i0, i1, i2, i3 := IndexOf(q[0]), IndexOf(q[1]), IndexOf(q[2]), IndexOf(q[3]);
    var v := DecodeQuad(q).value;
    Unpack0(i0, i1);
    Unpack1(i1, i2);
    Unpack2(i2, i3);
    assert v[0] / 4 == i0 && (v[0] % 4) * 16 + v[1] / 16 == i1;
    assert (v[1] % 16) * 4 + v[2] / 64 == i2 && v[2] % 64 == i3;
    CharOfIndexOf(q[0]);
    CharOfIndexOf(q[1]);
    CharOfIndexOf(q[2]);
    CharOfIndexOf(q[3]);
  }

  /** A last group with two pads that decodes is the encoding of its one byte. */
  lemma Last1Inverse(q: string)
    requires |q| == 4 && q[2] == Pad && q[3] == Pad && DecodeLastQuad(q).Some?
    ensures |DecodeLastQuad(q).value| == 1
    ensures Quad1(DecodeLastQuad(q).value[0]) == q
  {
    var i0, i1 := IndexOf(q[0]), IndexOf(q[1]);
    var v := DecodeLastQuad(q).value;
    Unpack0(i0, i1);
    assert v[0] / 4 == i0 && (v[0] % 4) * 16 == i1;
    CharOfIndexOf(q[0]);
    CharOfIndexOf(q[1]);
  }

  /** A last group with one pad that decodes is the encoding of its two bytes. */
  lemma Last2Inverse(q: string)
    requires |q| == 4 && q[2] != Pad && q[3] == Pad && DecodeLastQuad(q).Some?
    ensures |DecodeLastQuad(q).value| == 2
    ensures var v := DecodeLastQuad(q).value; Quad2(v[0], v[1]) == q
  {
    var i0, i1, i2 := IndexOf(q[0]), IndexOf(q[1]), IndexOf(q[2]);
    var v := DecodeLastQuad(q).value;
    Unpack0(i0, i1);
    Unpack1(i1, i2);
    assert v[0] / 4 == i0 && (v[0] % 4) * 16 + v[1] / 16 == i1;
    assert (v[1] % 16) * 4 == i2;
    CharOfIndexOf(q[0]);
    CharOfIndexOf(q[1]);
    CharOfIndexOf(q[2]);
  }

  /** A last group that decodes is the encoding of the bytes it gives. */
  lemma LastQuadInverse(q: string)
    requires |q| == 4 && DecodeLastQuad(q).Some?
    ensures Encode(DecodeLastQuad(q).value) == q
  {
    var v := DecodeLastQuad(q).value;
    if q[2] == Pad && q[3] == Pad {
      Last1Inverse(q);
      assert Encode(v) == Quad1(v[0]);
    } else if q[3] == Pad {
      Last2Inverse(q);
      assert Encode(v) == Quad2(v[0], v[1]);
    } else {
      QuadInverse(q);
      assert Encode(v) == Quad3(v[0], v[1], v[2]) + Encode(v[3..]);
    }
  }

  /** Encoding undoes decoding: a text the decoder accepts is the encoding of what it gives. */
  lemma {:induction false} EncodeDecode(s: string)
    requires Decode(s).Some?
    ensures Encode(Decode(s).value) == s
    decreases |s|
  {
    if |s| == 4 {
      LastQuadInverse(s);
    } else if |s| > 4 {
      var head := DecodeQuad(s[..4]).value;
      var tail := Decode(s[4..]).value;
      QuadInverse(s[..4]);
      EncodeDecode(s[4..]);
      var b := head + tail;
      assert Decode(s).value == b;
      assert b[3..] == tail;
      assert Encode(b) == Quad3(b[0], b[1], b[2]) + Encode(b[3..]);
      assert s == s[..4] + s[4..];
    }
  }

  /**
   * Each byte sequence has exactly one base64 text: a text decodes to the
   * bytes iff it is their encoding.
   */
  lemma Canonical(b: seq<byte>)
    ensures forall s :: Decode(s) == Some(b) <==> s == Encode(b)
  {
    DecodeEncode(b);
    forall s | Decode(s) == Some(b)
      ensures s == Encode(b)
    {
      EncodeDecode(s);
    }
  }

  /** A final group whose pad hides non-zero bits is refused: `Zh==` is not the text of any byte. */
  lemma RejectsNonzeroPadBits()
    ensures Decode("Zh==") == None
    ensures Decode("Zm9=") == None
  {
    assert IndexOf('h') == 33;
    assert IndexOf('9') == 61;
  }
}
