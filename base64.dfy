/** Base 64 with the standard alphabet and `=` padding (section 4 of RFC 4648), as Go's
    `base64.StdEncoding` encodes and decodes it. The decoder skips carriage returns and
    line feeds wherever they occur and, not being in strict mode, ignores the unused low
    bits of a padded final quantum. */
module Base64 {
  import opened Wrappers
  import opened Octets

  const Pad: byte := 61   // '='
  const CR: byte := 13
  const LF: byte := 10

  /** The character for a six-bit value (Table 1 of RFC 4648). */
  function Alphabet(v: int): (c: byte)
    requires 0 <= v < 64
  {
    if v < 26 then (65 + v) as byte        // 'A'..'Z'
    else if v < 52 then (71 + v) as byte   // 'a'..'z'
    else if v < 62 then (v - 4) as byte    // '0'..'9'
    else if v == 62 then 43 as byte        // '+'
    else 47 as byte                        // '/'
  }

  /** The six-bit value of an alphabet character, or -1 for any other byte. */
  function Value(c: byte): (v: int)
    ensures -1 <= v < 64
  {
    if 65 <= c <= 90 then c as int - 65
    else if 97 <= c <= 122 then c as int - 71
    else if 48 <= c <= 57 then c as int + 4
    else if c == 43 then 62
    else if c == 47 then 63
    else -1
  }

  predicate InAlphabet(c: byte) {
    Value(c) >= 0
  }

  lemma ValueOfAlphabet(v: int)
    requires 0 <= v < 64
    ensures Value(Alphabet(v)) == v
  {
  }

  /** Four characters for three bytes. */
  function EncodeGroup(b0: byte, b1: byte, b2: byte): Bytes {
    [ Alphabet(b0 as int / 4),
      Alphabet((b0 as int % 4) * 16 + b1 as int / 16),
      Alphabet((b1 as int % 16) * 4 + b2 as int / 64),
      Alphabet(b2 as int % 64) ]
  }

  /** `StdEncoding.Encode`: whole groups of three bytes, then a final one or two bytes
      padded to four characters. */
  function Encode(data: Bytes): (s: Bytes)
    ensures |s| == 4 * ((|data| + 2) / 3)
  {
    if |data| == 0 then []
    else if |data| == 1 then
      [Alphabet(data[0] as int / 4), Alphabet((data[0] as int % 4) * 16), Pad, Pad]
    else if |data| == 2 then
      [ Alphabet(data[0] as int / 4),
        Alphabet((data[0] as int % 4) * 16 + data[1] as int / 16),
        Alphabet((data[1] as int % 16) * 4), Pad ]
    else EncodeGroup(data[0], data[1], data[2]) + Encode(data[3..])
  }

  /** Three bytes from four alphabet values. */
  function Group(v0: int, v1: int, v2: int, v3: int): Bytes
    requires 0 <= v0 < 64 && 0 <= v1 < 64 && 0 <= v2 < 64 && 0 <= v3 < 64
  {
    [ (v0 * 4 + v1 / 16) as byte, ((v1 % 16) * 16 + v2 / 4) as byte, ((v2 % 4) * 64 + v3) as byte ]
  }

  /** A quantum that is not the last one: four alphabet characters. */
  function DecodeInner(c0: byte, c1: byte, c2: byte, c3: byte): Option<Bytes> {
    if InAlphabet(c0) && InAlphabet(c1) && InAlphabet(c2) && InAlphabet(c3)
    then Some(Group(Value(c0), Value(c1), Value(c2), Value(c3)))
    else None
  }

  /** The last quantum: four alphabet characters, or two followed by `==`, or three
      followed by `=`. Padding in the first two places is refused. */
  function DecodeLast(c0: byte, c1: byte, c2: byte, c3: byte): Option<Bytes> {
    if !InAlphabet(c0) || !InAlphabet(c1) then None
    else if c2 == Pad && c3 == Pad then Some(Group(Value(c0), Value(c1), 0, 0)[..1])
    else if !InAlphabet(c2) then None
    else if c3 == Pad then Some(Group(Value(c0), Value(c1), Value(c2), 0)[..2])
    else DecodeInner(c0, c1, c2, c3)
  }

  /** Decodes text without line breaks; its length must be a multiple of four. */
  function DecodeQuanta(t: Bytes): Option<Bytes>
    decreases |t|
  {
    if |t| == 0 then Some([])
    else if |t| < 4 then None
    else if |t| == 4 then DecodeLast(t[0], t[1], t[2], t[3])
    else match DecodeInner(t[0], t[1], t[2], t[3])
      case None => None
      case Some(g) =>
        match DecodeQuanta(t[4..])
        case None => None
        case Some(rest) => Some(g + rest)
  }

  /** The input with every carriage return and line feed removed. */
  function StripLineBreaks(s: Bytes): (t: Bytes)
    ensures |t| <= |s|
  {
    if s == [] then []
    else (if s[0] == CR || s[0] == LF then [] else [s[0]]) + StripLineBreaks(s[1..])
  }

  /** `StdEncoding.DecodeString`: None stands for Go's CorruptInputError. */
  function Decode(s: Bytes): Option<Bytes> {
    DecodeQuanta(StripLineBreaks(s))
  }

  /** The encoding consists of alphabet characters, with `=` only in the last two places. */
  lemma {:induction false} EncodeCharacters(data: Bytes)
    ensures forall i :: 0 <= i < |Encode(data)| ==>
      InAlphabet(Encode(data)[i]) || (Encode(data)[i] == Pad && i >= |Encode(data)| - 2)
  {
    if |data| > 2 {
      EncodeCharacters(data[3..]);
      var g := EncodeGroup(data[0], data[1], data[2]);
      forall v | 0 <= v < 64 ensures InAlphabet(Alphabet(v)) { ValueOfAlphabet(v); }
      assert forall i :: 0 <= i < 4 ==> InAlphabet(g[i]);
    } else if |data| > 0 {
      forall v | 0 <= v < 64 ensures InAlphabet(Alphabet(v)) { ValueOfAlphabet(v); }
    }
  }

  /** The encoding holds no line break, so the decoder's line-break removal keeps it whole. */
  lemma {:induction false} StripEncoded(data: Bytes)
    ensures StripLineBreaks(Encode(data)) == Encode(data)
  {
    var s := Encode(data);
    EncodeCharacters(data);
    NoLineBreaksKept(s);
  }

  lemma {:induction false} NoLineBreaksKept(s: Bytes)
    requires forall i :: 0 <= i < |s| ==> s[i] != CR && s[i] != LF
    ensures StripLineBreaks(s) == s
  {
    if s != [] {
      NoLineBreaksKept(s[1..]);
      assert [s[0]] + s[1..] == s;
    }
  }

  /** The three bytes of a group survive encoding and decoding. */
  lemma GroupRoundTrip(b0: byte, b1: byte, b2: byte)
    ensures DecodeInner(EncodeGroup(b0, b1, b2)[0], EncodeGroup(b0, b1, b2)[1],
                        EncodeGroup(b0, b1, b2)[2], EncodeGroup(b0, b1, b2)[3]) == Some([b0, b1, b2])
  {
    var v0, v1, v2, v3 := b0 as int / 4, (b0 as int % 4) * 16 + b1 as int / 16,
                          (b1 as int % 16) * 4 + b2 as int / 64, b2 as int % 64;
    ValueOfAlphabet(v0); ValueOfAlphabet(v1); ValueOfAlphabet(v2); ValueOfAlphabet(v3);
    assert v1 / 16 == b0 as int % 4 && v1 % 16 == b1 as int / 16;
    assert v2 / 4 == b1 as int % 16 && v2 % 4 == b2 as int / 64;
    assert Group(v0, v1, v2, v3) == [b0, b1, b2];
  }

  /** Decoding the encoding gives back the bytes. */
  lemma {:induction false} DecodeEncode(data: Bytes)
    ensures Decode(Encode(data)) == Some(data)
  {
    StripEncoded(data);
    QuantaRoundTrip(data);
  }

  lemma LastOneRoundTrip(b0: byte)
    ensures DecodeQuanta(Encode([b0])) == Some([b0])
  {
    var v0, v1 := b0 as int / 4, (b0 as int % 4) * 16;
    ValueOfAlphabet(v0); ValueOfAlphabet(v1);
    var s := Encode([b0]);
    assert s == [Alphabet(v0), Alphabet(v1), Pad, Pad];
    assert DecodeQuanta(s) == DecodeLast(s[0], s[1], s[2], s[3]);
    assert v1 / 16 == b0 as int % 4;
    assert v0 * 4 + v1 / 16 == b0 as int;
    assert Value(s[0]) == v0 && Value(s[1]) == v1;
    assert DecodeLast(s[0], s[1], s[2], s[3]) == Some(Group(v0, v1, 0, 0)[..1]);
    assert Group(v0, v1, 0, 0)[..1] == [b0];
  }

  lemma LastTwoRoundTrip(b0: byte, b1: byte)
    ensures DecodeQuanta(Encode([b0, b1])) == Some([b0, b1])
  {
    var v0, v1, v2 := b0 as int / 4, (b0 as int % 4) * 16 + b1 as int / 16, (b1 as int % 16) * 4;
    ValueOfAlphabet(v0); ValueOfAlphabet(v1); ValueOfAlphabet(v2);
    var s := Encode([b0, b1]);
    assert s == [Alphabet(v0), Alphabet(v1), Alphabet(v2), Pad];
    assert Alphabet(v2) != Pad;
    assert DecodeQuanta(s) == DecodeLast(s[0], s[1], s[2], s[3]);
    assert v1 / 16 == b0 as int % 4 && v1 % 16 == b1 as int / 16;
    assert Group(v0, v1, v2, 0)[..2] == [b0, b1];
  }

  lemma LastThreeRoundTrip(b0: byte, b1: byte, b2: byte)
    ensures DecodeQuanta(Encode([b0, b1, b2])) == Some([b0, b1, b2])
  {
    var s := Encode([b0, b1, b2]);
    var g := EncodeGroup(b0, b1, b2);
    assert [b0, b1, b2][3..] == [];
    assert s == g;
    GroupRoundTrip(b0, b1, b2);
    ValueOfAlphabet((b1 as int % 16) * 4 + b2 as int / 64);
    ValueOfAlphabet(b2 as int % 64);
    assert s[2] != Pad && s[3] != Pad;
    assert DecodeQuanta(s) == DecodeLast(s[0], s[1], s[2], s[3]);
  }

  lemma {:induction false} QuantaRoundTrip(data: Bytes)
    ensures DecodeQuanta(Encode(data)) == Some(data)
    decreases |data|
  {
    if |data| == 1 {
      assert data == [data[0]];
      LastOneRoundTrip(data[0]);
    } else if |data| == 2 {
      assert data == [data[0], data[1]];
      LastTwoRoundTrip(data[0], data[1]);
    } else if |data| == 3 {
      assert data == [data[0], data[1], data[2]];
      LastThreeRoundTrip(data[0], data[1], data[2]);
    } else if |data| > 3 {
      QuantaRoundTrip(data[3..]);
      InnerRoundTrip(data[0], data[1], data[2], Encode(data[3..]), data[3..]);
      assert Encode(data) == EncodeGroup(data[0], data[1], data[2]) + Encode(data[3..]);
      assert data == [data[0], data[1], data[2]] + data[3..];
    }
  }

  /** A whole group in front of a text that decodes: the group's bytes come first. */
  lemma InnerRoundTrip(b0: byte, b1: byte, b2: byte, rest: Bytes, tail: Bytes)
    requires |rest| >= 4 && DecodeQuanta(rest) == Some(tail)
    ensures DecodeQuanta(EncodeGroup(b0, b1, b2) + rest) == Some([b0, b1, b2] + tail)
  {
    var g := EncodeGroup(b0, b1, b2);
    var s := g + rest;
    GroupRoundTrip(b0, b1, b2);
    assert s[0] == g[0] && s[1] == g[1] && s[2] == g[2] && s[3] == g[3];
    assert s[4..] == rest;
  }

  /** A last quantum that decodes gives one to three bytes. */
  lemma LastLength(t: Bytes)
    requires |t| == 4 && DecodeQuanta(t).Some?
    ensures 1 <= |DecodeQuanta(t).value| <= 3
  {
  }

  /** An inner quantum that decodes gives three bytes in front of the rest. */
  lemma InnerLength(t: Bytes)
    requires |t| > 4 && DecodeQuanta(t).Some?
    ensures DecodeQuanta(t[4..]).Some?
    ensures |DecodeQuanta(t).value| == 3 + |DecodeQuanta(t[4..]).value|
  {
  }

  /** Whatever decodes has a length that is a multiple of four, namely the length of
      the canonical encoding of the bytes it decodes to. */
  lemma {:induction false} DecodedLength(t: Bytes)
    requires DecodeQuanta(t).Some?
    ensures |t| % 4 == 0 && |t| == 4 * ((|DecodeQuanta(t).value| + 2) / 3)
    decreases |t|
  {
    if |t| == 4 {
      LastLength(t);
    } else if |t| > 4 {
      InnerLength(t);
      DecodedLength(t[4..]);
      LengthStep(|t[4..]|, |DecodeQuanta(t[4..]).value|);
    }
  }

  /** Four more characters encode three more bytes. */
  lemma LengthStep(a: nat, n: nat)
    requires a % 4 == 0 && a == 4 * ((n + 2) / 3)
    ensures (a + 4) % 4 == 0 && a + 4 == 4 * ((n + 3 + 2) / 3)
  {
    assert (n + 3 + 2) / 3 == (n + 2) / 3 + 1;
  }

  /** The decoder refuses text whose length, line breaks aside, is not a multiple of four. */
  lemma DecodeRefusesLength(s: Bytes)
    requires |StripLineBreaks(s)| % 4 != 0
    ensures Decode(s).None?
  {
    if Decode(s).Some? {
      DecodedLength(StripLineBreaks(s));
    }
  }

  /** A byte outside the alphabet makes a text undecodable, unless it is `=` in one of
      the last two places. */
  lemma {:induction false} DecodeQuantaRefuses(t: Bytes, i: nat)
    requires i < |t| && !InAlphabet(t[i])
    requires t[i] != Pad || i < |t| - 2
    ensures DecodeQuanta(t).None?
    decreases |t|
  {
    if |t| > 4 && i >= 4 {
      assert t[4..][i - 4] == t[i];
      DecodeQuantaRefuses(t[4..], i - 4);
    }
  }

  /** The decoder refuses any byte that is neither in the alphabet nor a line break,
      unless it is padding in one of the last two places; padding inside the text is
      refused too. */
  lemma DecodeRefuses(s: Bytes, i: nat)
    requires i < |StripLineBreaks(s)| && !InAlphabet(StripLineBreaks(s)[i])
    requires StripLineBreaks(s)[i] != Pad || i < |StripLineBreaks(s)| - 2
    ensures Decode(s).None?
  {
    DecodeQuantaRefuses(StripLineBreaks(s), i);
  }

  /** Removing the line breaks of `AA` CR LF `==` leaves `AA==`. */
  lemma WrappedStripped()
    ensures StripLineBreaks([65, 65, CR, LF, Pad, Pad]) == [65, 65, Pad, Pad]
  {
    var s: Bytes := [65, 65, CR, LF, Pad, Pad];
    var s1, s2, s3, s4, s5: Bytes := s[1..], s[2..], s[3..], s[4..], s[5..];
    assert s5[1..] == [] && s4[1..] == s5 && s3[1..] == s4 && s2[1..] == s3 && s1[1..] == s2 && s[1..] == s1;
    assert StripLineBreaks(s5) == [Pad];
    assert StripLineBreaks(s4) == [Pad, Pad];
    assert StripLineBreaks(s2) == [Pad, Pad];
    assert StripLineBreaks(s1) == [65, Pad, Pad];
  }

  /** Line breaks inside base64 text are skipped: `AA` CR LF `==` decodes to a zero byte,
      and what is left once the line breaks are removed is that byte's encoding. */
  lemma LineWrappedText()
    ensures Decode([65, 65, CR, LF, Pad, Pad]) == Some([0])
    ensures StripLineBreaks([65, 65, CR, LF, Pad, Pad]) == Encode([0])
  {
    WrappedStripped();
    assert Alphabet(0) == 65;
    assert Encode([0]) == [65, 65, Pad, Pad];
    QuantaRoundTrip([0]);
  }

  /** Go's decoder is not strict: it ignores the unused bits of a padded quantum, so two
      different texts decode to the same byte and re-encoding gives the canonical one. */
  lemma NonCanonicalPadding()
    ensures Decode([65, 66, Pad, Pad]) == Some([0])        // "AB==" decodes to a zero byte
    ensures Encode([0]) == [65, 65, Pad, Pad]               // which encodes as "AA=="
  {
    var t: Bytes := [65, 66, Pad, Pad];
    NoLineBreaksKept(t);
    assert Value(65) == 0 && Value(66) == 1;
    assert Group(0, 1, 0, 0)[..1] == [0];
    assert DecodeLast(65, 66, Pad, Pad) == Some([0]);
    assert DecodeQuanta(t) == DecodeLast(t[0], t[1], t[2], t[3]);
    assert Alphabet(0) == 65;
    assert Encode([0]) == [Alphabet(0), Alphabet(0), Pad, Pad];
  }
}
