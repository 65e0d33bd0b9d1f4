/** Which bytes `str::from_utf8` takes for text: table 3-7 of the Unicode Standard. */
module Utf8 {
  import opened Base

  predicate Between(b: byte, low: int, high: int) {
    low <= b <= high
  }

  /** The length of the character at the front of `s`, or 0 where there is none. */
  function CharLength(s: Bytes): (n: nat)
    requires s != []
    ensures n <= |s|
  {
    var first := s[0];
    if first < 0x80 then 1
    else if |s| >= 2 && Between(first, 0xC2, 0xDF) && Between(s[1], 0x80, 0xBF) then 2
    else if |s| >= 3 && Between(s[2], 0x80, 0xBF)
            && ((first == 0xE0 && Between(s[1], 0xA0, 0xBF))
                || (Between(first, 0xE1, 0xEC) && Between(s[1], 0x80, 0xBF))
                || (first == 0xED && Between(s[1], 0x80, 0x9F))
                || (Between(first, 0xEE, 0xEF) && Between(s[1], 0x80, 0xBF))) then 3
    else if |s| >= 4 && Between(s[2], 0x80, 0xBF) && Between(s[3], 0x80, 0xBF)
            && ((first == 0xF0 && Between(s[1], 0x90, 0xBF))
                || (Between(first, 0xF1, 0xF3) && Between(s[1], 0x80, 0xBF))
                || (first == 0xF4 && Between(s[1], 0x80, 0x8F))) then 4
    else 0
  }

  predicate IsText(s: Bytes)
    decreases |s|
  {
    s == [] || (CharLength(s) > 0 && IsText(s[CharLength(s)..]))
  }

  // ----- The characters behind the bytes -----

  /** A Unicode scalar value: a code point that is no surrogate. */
  predicate IsScalar(c: nat) {
    c < 0xD800 || 0xE000 <= c <= 0x10FFFF
  }

  /** How UTF-8 lays a scalar value out. */
  function Encoded(c: nat): (s: Bytes)
    requires IsScalar(c)
    ensures s != []
  {
    if c < 0x80 then [c]
    else if c < 0x800 then [0xC0 + c / 64, 0x80 + c % 64]
    else if c < 0x1_0000 then [0xE0 + c / 64 / 64, 0x80 + c / 64 % 64, 0x80 + c % 64]
    else [0xF0 + c / 64 / 64 / 64, 0x80 + c / 64 / 64 % 64, 0x80 + c / 64 % 64, 0x80 + c % 64]
  }

  function EncodedAll(cs: seq<nat>): Bytes
    requires forall i :: 0 <= i < |cs| ==> IsScalar(cs[i])
  {
    if cs == [] then [] else Encoded(cs[0]) + EncodedAll(cs[1..])
  }

  /** Six more bits below what has been read so far. */
  function Below(high: int, b: byte): int {
    64 * high + (b - 0x80)
  }

  /** The scalar value of the character at the front. */
  function Decoded(s: Bytes): int
    requires s != [] && CharLength(s) > 0
  {
    var a: int := s[0];
    match CharLength(s)
    case 1 => a
    case 2 => Below(a - 0xC0, s[1])
    case 3 => Below(Below(a - 0xE0, s[1]), s[2])
    case _ => Below(Below(Below(a - 0xF0, s[1]), s[2]), s[3])
  }

  lemma BelowIs(high: int, b: byte)
    requires high >= 0 && 0x80 <= b <= 0xBF
    ensures Below(high, b) >= 0 && Below(high, b) / 64 == high && 0x80 + Below(high, b) % 64 == b
  {
  }

  lemma EncodedIsChar(c: nat, rest: Bytes)
    requires IsScalar(c)
    ensures CharLength(Encoded(c) + rest) == |Encoded(c)|
  {
    var s := Encoded(c) + rest;
    assert forall i :: 0 <= i < |Encoded(c)| ==> s[i] == Encoded(c)[i];
  }

  lemma CharIsEncoded(s: Bytes)
    requires s != [] && CharLength(s) > 0
    ensures 0 <= Decoded(s) && IsScalar(Decoded(s)) && Encoded(Decoded(s)) == s[..CharLength(s)]
  {
    hide Below;
    var a: int := s[0];
    match CharLength(s)
    case 1 =>
    case 2 =>
      BelowIs(a - 0xC0, s[1]);
      TwoBytes(s);
    case 3 =>
      BelowIs(a - 0xE0, s[1]);
      BelowIs(Below(a - 0xE0, s[1]), s[2]);
      ThreeBytes(s);
    case _ =>
      BelowIs(a - 0xF0, s[1]);
      BelowIs(Below(a - 0xF0, s[1]), s[2]);
      BelowIs(Below(Below(a - 0xF0, s[1]), s[2]), s[3]);
      FourBytes(s);
  }

  lemma TwoBytes(s: Bytes)
    requires s != [] && CharLength(s) == 2
    ensures 0x80 <= Decoded(s) < 0x800
  {
  }

  lemma ThreeBytes(s: Bytes)
    requires s != [] && CharLength(s) == 3
    ensures 0x800 <= Decoded(s) < 0x1_0000 && IsScalar(Decoded(s))
  {
  }

  lemma FourBytes(s: Bytes)
    requires s != [] && CharLength(s) == 4
    ensures 0x1_0000 <= Decoded(s) <= 0x10FFFF
  {
  }

  lemma {:induction false} EncodedIsText(cs: seq<nat>)
    requires forall i :: 0 <= i < |cs| ==> IsScalar(cs[i])
    ensures IsText(EncodedAll(cs))
    decreases |cs|
  {
    hide CharLength, Encoded;
    if cs != [] {
      var first, rest := Encoded(cs[0]), EncodedAll(cs[1..]);
      EncodedIsText(cs[1..]);
      EncodedIsChar(cs[0], rest);
      assert (first + rest)[|first|..] == rest;
    }
  }

  lemma {:induction false} TextIsEncoded(s: Bytes) returns (cs: seq<nat>)
    requires IsText(s)
    ensures forall i :: 0 <= i < |cs| ==> IsScalar(cs[i])
    ensures EncodedAll(cs) == s
    decreases |s|
  {
    hide CharLength, Encoded, Decoded;
    if s == [] {
      cs := [];
    } else {
      var n := CharLength(s);
      var later := TextIsEncoded(s[n..]);
      CharIsEncoded(s);
      var c: nat := Decoded(s);
      cs := [c] + later;
      assert cs[1..] == later;
      assert s == s[..n] + s[n..];
    }
  }

  /** Bytes are text exactly when they are some characters laid out one after another. */
  lemma TextIsCharacters(s: Bytes)
    ensures IsText(s) <==>
            exists cs: seq<nat> :: (forall i :: 0 <= i < |cs| ==> IsScalar(cs[i])) && EncodedAll(cs) == s
  {
    if IsText(s) {
      var cs := TextIsEncoded(s);
    }
    forall cs: seq<nat> | (forall i :: 0 <= i < |cs| ==> IsScalar(cs[i])) && EncodedAll(cs) == s
      ensures IsText(s)
    {
      EncodedIsText(cs);
    }
  }
}
