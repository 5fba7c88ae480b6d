/** Well-formed UTF-8, as the standard library checks it byte by byte, and as the encodings of
    code points (section 3 of RFC 3629). */
module Utf8 {
  import opened Bytes

  predicate Continues(b: Byte) {
    0x80 <= b <= 0xBF
  }

  // The length of the well-formed character at the start, 0 if there is none.
  function CharLength(s: seq<Byte>): (n: nat)
    ensures n <= |s|
  {
    if |s| >= 1 && s[0] < 0x80 then 1
    else if |s| >= 2 && 0xC2 <= s[0] <= 0xDF && Continues(s[1]) then 2
    else if |s| >= 3 && 0xE0 <= s[0] <= 0xEF && Continues(s[1]) && Continues(s[2])
            && (s[0] == 0xE0 ==> s[1] >= 0xA0) && (s[0] == 0xED ==> s[1] <= 0x9F) then 3
    else if |s| >= 4 && 0xF0 <= s[0] <= 0xF4 && Continues(s[1]) && Continues(s[2]) && Continues(s[3])
            && (s[0] == 0xF0 ==> s[1] >= 0x90) && (s[0] == 0xF4 ==> s[1] <= 0x8F) then 4
    else 0
  }

  predicate ValidUtf8(s: seq<Byte>)
    decreases |s|
  {
    s == [] || (CharLength(s) > 0 && ValidUtf8(s[CharLength(s)..]))
  }

  lemma {:induction false} ValidUtf8Concat(a: seq<Byte>, b: seq<Byte>)
    requires ValidUtf8(a) && ValidUtf8(b)
    ensures ValidUtf8(a + b)
    decreases |a|
  {
    if a == [] {
      assert a + b == b;
    } else {
      var n := CharLength(a);
      CharLengthOfPrefix(a, b);
      assert (a + b)[n..] == a[n..] + b;
      ValidUtf8Concat(a[n..], b);
    }
  }

  // ---------- The encoding ----------

  // A code point that is no surrogate.
  predicate IsScalar(c: nat) {
    c < 0xD800 || 0xE000 <= c < 0x11_0000
  }

  function Tail(bits: nat): Byte {
    0x80 + bits % 64
  }

  function EncodeChar(c: nat): seq<Byte>
    requires IsScalar(c)
  {
    if c < 0x80 then [c]
    else if c < 0x800 then [0xC0 + c / 64, Tail(c)]
    else if c < 0x1_0000 then [0xE0 + c / 4096, Tail(c / 64), Tail(c)]
    else [0xF0 + c / 26_2144, Tail(c / 4096), Tail(c / 64), Tail(c)]
  }

  ghost predicate AllScalar(text: seq<nat>) {
    forall i | 0 <= i < |text| :: IsScalar(text[i])
  }

  function EncodeText(text: seq<nat>): seq<Byte>
    requires AllScalar(text)
  {
    if text == [] then [] else EncodeChar(text[0]) + EncodeText(text[1..])
  }

  lemma EncodedChar(c: nat, rest: seq<Byte>)
    requires IsScalar(c)
    ensures CharLength(EncodeChar(c) + rest) == |EncodeChar(c)|
  {
    EncodedAlone(c);
    hide EncodeChar;
    CharLengthOfPrefix(EncodeChar(c), rest);
  }

  lemma EncodedAlone(c: nat)
    requires IsScalar(c)
    ensures CharLength(EncodeChar(c)) == |EncodeChar(c)|
  {}

  lemma CharLengthOfPrefix(s: seq<Byte>, rest: seq<Byte>)
    requires CharLength(s) > 0
    ensures CharLength(s + rest) == CharLength(s)
  {}

  // The code point of the character at the start.
  function DecodeChar(s: seq<Byte>): nat
    requires CharLength(s) > 0
  {
    match CharLength(s)
    case 1 => s[0]
    case 2 => AddBits(s[0] - 0xC0, s[1])
    case 3 => AddBits(AddBits(s[0] - 0xE0, s[1]), s[2])
    case _ => AddBits(AddBits(AddBits(s[0] - 0xF0, s[1]), s[2]), s[3])
  }

  // Six more bits.
  function AddBits(high: nat, b: Byte): (c: nat)
    requires Continues(b)
    ensures c == high * 64 + (b as int - 0x80) && c / 64 == high && Tail(c) == b
    ensures c / 4096 == high / 64 && c / 26_2144 == high / 4096
  {
    high * 64 + (b as int - 0x80)
  }

  lemma DecodedChar(s: seq<Byte>)
    requires CharLength(s) > 0
    ensures IsScalar(DecodeChar(s)) && EncodeChar(DecodeChar(s)) == s[..CharLength(s)]
  {
    match CharLength(s)
    case 1 => assert s[..1] == [s[0]];
    case 2 =>
      hide Tail, AddBits;
      assert s[..2] == [s[0], s[1]];
    case 3 => DecodedThree(s);
    case _ => DecodedFour(s);
  }

  lemma DecodedThree(s: seq<Byte>)
    requires CharLength(s) == 3
    ensures IsScalar(DecodeChar(s)) && EncodeChar(DecodeChar(s)) == s[..3]
  {
    hide Tail, AddBits;
    assert s[..3] == [s[0], s[1], s[2]];
  }

  lemma DecodedFour(s: seq<Byte>)
    requires CharLength(s) == 4
    ensures IsScalar(DecodeChar(s)) && EncodeChar(DecodeChar(s)) == s[..4]
  {
    hide Tail, AddBits;
    assert s[..4] == [s[0], s[1], s[2], s[3]];
  }

  lemma {:induction false} EncodedText(text: seq<nat>)
    requires AllScalar(text)
    ensures ValidUtf8(EncodeText(text))
  {
    if text == [] {
    } else {
      var rest := EncodeText(text[1..]);
      EncodedChar(text[0], rest);
      EncodedText(text[1..]);
      hide CharLength, EncodeChar;
      assert (EncodeChar(text[0]) + rest)[|EncodeChar(text[0])|..] == rest;
    }
  }

  lemma {:induction false} DecodedText(s: seq<Byte>) returns (text: seq<nat>)
    requires ValidUtf8(s)
    ensures AllScalar(text) && EncodeText(text) == s
    decreases |s|
  {
    if s == [] {
      text := [];
    } else {
      var n := CharLength(s);
      DecodedChar(s);
      var rest := DecodedText(s[n..]);
      text := [DecodeChar(s)] + rest;
      EncodedFirst(DecodeChar(s), rest);
      hide CharLength, EncodeChar, IsScalar, ValidUtf8, DecodeChar, EncodeText;
      assert s == s[..n] + s[n..];
    }
  }

  lemma EncodedFirst(c: nat, rest: seq<nat>)
    requires IsScalar(c) && AllScalar(rest)
    ensures AllScalar([c] + rest) && EncodeText([c] + rest) == EncodeChar(c) + EncodeText(rest)
  {
    hide EncodeChar;
    assert ([c] + rest)[1..] == rest;
  }

  // The check accepts exactly the encodings of code points that are no surrogates.
  lemma ValidUtf8Exactly(s: seq<Byte>)
    ensures ValidUtf8(s) <==> exists text :: AllScalar(text) && EncodeText(text) == s
  {
    if ValidUtf8(s) {
      var text := DecodedText(s);
    }
    if text :| AllScalar(text) && EncodeText(text) == s {
      EncodedText(text);
    }
  }
}
