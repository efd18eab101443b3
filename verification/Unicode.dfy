/** Python strings and bytes, and the UTF-8 codec the transcript uses. */
module Unicode {
  // A Python `str` is a sequence of code points; surrogates are allowed in it.
  type Code = c: int | 0 <= c < 0x11_0000
  type Text = seq<Code>
  type Byte = b: int | 0 <= b < 256
  type Bytes = seq<Byte>

  const LF: Code := 0x0A
  const CR: Code := 0x0D
  const REPLACEMENT: Code := 0xFFFD

  function Ascii(s: string): Text
    requires forall c <- s :: c < 128 as char
  {
    seq(|s|, i requires 0 <= i < |s| => s[i] as int)
  }

  predicate IsScalar(c: Code) {
    c < 0xD800 || 0xDFFF < c
  }

  predicate AllScalar(s: Text) {
    forall c <- s :: IsScalar(c)
  }

  function EncodeCode(c: Code): (bs: Bytes)
    ensures 1 <= |bs| <= 4
    ensures c < 0x80 ==> bs == [c]
    ensures c >= 0x80 ==> |bs| > 1 && forall b <- bs :: b >= 0x80
  {
    if c < 0x80 then [c]
    else if c < 0x800 then [0xC0 + c / 64, 0x80 + c % 64]
    else if c < 0x1_0000 then [0xE0 + c / 4096, 0x80 + c / 64 % 64, 0x80 + c % 64]
    else [0xF0 + c / 26_2144, 0x80 + c / 4096 % 64, 0x80 + c / 64 % 64, 0x80 + c % 64]
  }

  function Encode(s: Text): Bytes {
    if s == [] then [] else EncodeCode(s[0]) + Encode(s[1..])
  }

  predicate Continues(bs: Bytes, i: nat) {
    i < |bs| && 0x80 <= bs[i] < 0xC0
  }

  /** The least and greatest second byte that may follow lead byte `b`. */
  function SecondRange(b: Byte): (r: (Byte, Byte))
    ensures 0x80 <= r.0 <= r.1 < 0xC0
  {
    if b == 0xE0 then (0xA0, 0xBF)
    else if b == 0xED then (0x80, 0x9F)
    else if b == 0xF0 then (0x90, 0xBF)
    else if b == 0xF4 then (0x80, 0x8F)
    else (0x80, 0xBF)
  }

  predicate SecondFits(bs: Bytes)
    requires bs != []
  {
    |bs| > 1 && SecondRange(bs[0]).0 <= bs[1] <= SecondRange(bs[0]).1
  }

  /** The six payload bits of a continuation byte. */
  function Low(bs: Bytes, i: nat): int
    requires i < |bs|
  {
    bs[i] as int - 0x80
  }

  /** One step of decoding with `errors="replace"`: the next code point, and how
      many bytes it takes.  An ill-formed sequence becomes one replacement
      character per maximal well-formed beginning. */
  function DecodeStep(bs: Bytes): (r: (Code, nat))
    requires bs != []
    ensures 1 <= r.1 <= |bs|
  {
    var b: int := bs[0];
    if b < 0x80 then (b, 1)
    else if b < 0xC2 || 0xF4 < b then (REPLACEMENT, 1)
    else if !SecondFits(bs) then (REPLACEMENT, 1)
    else if b < 0xE0 then ((b - 0xC0) * 64 + Low(bs, 1), 2)
    else if !Continues(bs, 2) then (REPLACEMENT, 2)
    else if b < 0xF0 then ((b - 0xE0) * 4096 + Low(bs, 1) * 64 + Low(bs, 2), 3)
    else if !Continues(bs, 3) then (REPLACEMENT, 3)
    else ((b - 0xF0) * 26_2144 + Low(bs, 1) * 4096 + Low(bs, 2) * 64 + Low(bs, 3), 4)
  }

  function Decode(bs: Bytes): Text {
    if bs == [] then []
    else [DecodeStep(bs).0] + Decode(bs[DecodeStep(bs).1..])
  }

  lemma SixBits(c: Code)
    ensures c == c / 64 * 64 + c % 64
    ensures c / 64 == c / 4096 * 64 + c / 64 % 64
    ensures c / 4096 == c / 26_2144 * 64 + c / 4096 % 64
  {
  }

  lemma DecodeStepOfEncoded(c: Code, rest: Bytes)
    requires IsScalar(c)
    ensures DecodeStep(EncodeCode(c) + rest) == (c, |EncodeCode(c)|)
  {
    var e := EncodeCode(c);
    var bs := e + rest;
    assert forall i | 0 <= i < |e| :: bs[i] == e[i];
    SixBits(c);
    if c < 0x80 {
    } else if c < 0x800 {
    } else if c < 0x1_0000 {
      assert SecondFits(bs) && Continues(bs, 2);
    } else {
      assert SecondFits(bs) && Continues(bs, 2) && Continues(bs, 3);
    }
  }

  lemma DecodeFirst(bs: Bytes, c: Code, n: nat)
    requires bs != [] && DecodeStep(bs) == (c, n)
    ensures Decode(bs) == [c] + Decode(bs[n..])
  {
  }

  lemma DecodeEncodedFirst(c: Code, rest: Bytes)
    requires IsScalar(c)
    ensures Decode(EncodeCode(c) + rest) == [c] + Decode(rest)
  {
    DecodeStepOfEncoded(c, rest);
    DecodeFirst(EncodeCode(c) + rest, c, |EncodeCode(c)|);
    assert (EncodeCode(c) + rest)[|EncodeCode(c)|..] == rest;
  }

  lemma EncodedShape(c: Code)
    requires IsScalar(c) && c >= 0x80
    ensures var e := EncodeCode(c);
      && SecondFits(e) && 0xC2 <= e[0] <= 0xF4
      && (|e| == 2 <==> e[0] < 0xE0) && (|e| == 4 <==> e[0] >= 0xF0)
      && forall i | 2 <= i < |e| :: Continues(e, i)
  {
    SixBits(c);
  }

  /** A character cut short by a crash costs one replacement character: decoding
      is back in step at the next ASCII byte. */
  lemma DecodeStepOfTorn(c: Code, k: nat, rest: Bytes)
    requires IsScalar(c) && 0 < k < |EncodeCode(c)|
    requires rest != [] ==> rest[0] < 0x80
    ensures DecodeStep(EncodeCode(c)[..k] + rest) == (REPLACEMENT, k)
  {
    EncodedShape(c);
    hide EncodeCode, SecondRange;
    var e := EncodeCode(c);
    var bs := e[..k] + rest;
    assert forall i | 0 <= i < k :: bs[i] == e[i];
    assert |bs| > k ==> bs[k] == rest[0];
    assert k > 2 ==> Continues(e, 2);
  }

  lemma {:induction false} DecodeEncode(s: Text, rest: Bytes)
    requires AllScalar(s)
    ensures Decode(Encode(s) + rest) == s + Decode(rest)
  {
    if s == [] {
      assert Encode(s) + rest == rest;
    } else {
      assert Encode(s) + rest == EncodeCode(s[0]) + (Encode(s[1..]) + rest);
      DecodeEncodedFirst(s[0], Encode(s[1..]) + rest);
      DecodeEncode(s[1..], rest);
      assert s + Decode(rest) == [s[0]] + (s[1..] + Decode(rest));
    }
  }

  lemma {:induction false} EncodeConcat(s: Text, t: Text)
    ensures Encode(s + t) == Encode(s) + Encode(t)
  {
    if s == [] {
      assert s + t == t;
    } else {
      assert (s + t)[1..] == s[1..] + t;
      EncodeConcat(s[1..], t);
    }
  }

  /** The line feed byte appears in an encoding only as the line feed itself. */
  lemma {:induction false} EncodeNoLineFeed(s: Text)
    requires LF !in s
    ensures LF !in Encode(s)
  {
    if s != [] {
      EncodeNoLineFeed(s[1..]);
      assert LF !in EncodeCode(s[0]) by {
        assert s[0] in s;
      }
    }
  }
}
