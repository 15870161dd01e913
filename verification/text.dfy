/**
 * Kotlin strings are sequences of UTF-16 code units: `String.length` and
 * `Char.code` count and read units, not characters. A Dafny `string` is a
 * sequence of Unicode scalar values, so this module gives the encoding that
 * relates the two, with its decoder as partner.
 */
module Utf16 {
  import opened Common

  /** A UTF-16 code unit: what a Kotlin `Char` holds. */
  newtype Unit = x: int | 0 <= x < 0x1_0000

  predicate IsHighSurrogate(u: Unit) { 0xD800 <= u < 0xDC00 }

  predicate IsLowSurrogate(u: Unit) { 0xDC00 <= u < 0xE000 }

  /** Every character of `s` lies in the Basic Multilingual Plane, so it takes one code unit. */
  predicate Bmp(s: string)
  {
    forall i :: 0 <= i < |s| ==> s[i] as int < 0x1_0000
  }

  /** The code units of one character: itself below U+10000, a surrogate pair above. */
  function UnitsOf(c: char): (r: seq<Unit>)
    ensures |r| == if c as int < 0x1_0000 then 1 else 2
    ensures |r| == 1 ==> r[0] as int == c as int && !IsHighSurrogate(r[0]) && !IsLowSurrogate(r[0])
    ensures |r| == 2 ==> IsHighSurrogate(r[0]) && IsLowSurrogate(r[1])
  {
    if c as int < 0x1_0000 then [c as int as Unit]
    else
      var v := c as int - 0x1_0000;
      [(0xD800 + v / 0x400) as Unit, (0xDC00 + v % 0x400) as Unit]
  }

  /** The UTF-16 encoding of a text: the code units Kotlin stores for it. */
  function Encode(s: string): (r: seq<Unit>)
    ensures |r| >= |s|
    ensures |r| == |s| <==> Bmp(s)
    ensures Bmp(s) ==> forall i :: 0 <= i < |s| ==> r[i] as int == s[i] as int
  {
    if s == [] then []
    else
      var r := UnitsOf(s[0]) + Encode(s[1..]);
      assert forall i :: 1 <= i < |s| ==> s[1..][i-1] == s[i];
      assert Bmp(s) <==> s[0] as int < 0x1_0000 && Bmp(s[1..]);
      r
  }

  /** The character a surrogate pair stands for. */
  function Combine(hi: Unit, lo: Unit): (c: char)
    requires IsHighSurrogate(hi) && IsLowSurrogate(lo)
    ensures c as int >= 0x1_0000
  {
    (0x1_0000 + (hi as int - 0xD800) * 0x400 + (lo as int - 0xDC00)) as char
  }

  /** Read code units back as characters; `None` for a lone or misplaced surrogate. */
  function Decode(us: seq<Unit>): (r: Option<string>)
    decreases |us|
  {
    if us == [] then Some([])
    else if IsHighSurrogate(us[0]) then
      if |us| >= 2 && IsLowSurrogate(us[1]) then
        match Decode(us[2..])
        case None => None
        case Some(t) => Some([Combine(us[0], us[1])] + t)
      else None
    else if IsLowSurrogate(us[0]) then None
    else
      match Decode(us[1..])
      case None => None
      case Some(t) => Some([us[0] as int as char] + t)
  }

  /** Decoding one character's units, followed by anything, gives that character first. */
  lemma DecodeUnitsOf(c: char, rest: seq<Unit>)
    ensures Decode(UnitsOf(c) + rest) ==
      match Decode(rest)
      case None => None
      case Some(t) => Some([c] + t)
  {
    var us := UnitsOf(c) + rest;
    if c as int < 0x1_0000 {
      assert us[1..] == rest;
    } else {
      assert us[2..] == rest;
      var v := c as int - 0x1_0000;
      assert v == (v / 0x400) * 0x400 + v % 0x400;
      assert Combine(us[0], us[1]) as int == c as int;
    }
  }

  /** Encoding loses nothing: decoding the units of a text gives the text back. */
  lemma {:induction false} DecodeEncode(s: string)
    ensures Decode(Encode(s)) == Some(s)
  {
    if s != [] {
      DecodeEncode(s[1..]);
      DecodeUnitsOf(s[0], Encode(s[1..]));
      assert [s[0]] + s[1..] == s;
    }
  }
}
