/** UTF-8 as Go decodes it when it ranges over a string, and `strings.ToLower`. */
module Utf8 {
  import opened ByteStrings

  const RUNE_ERROR: nat := 0xFFFD

  predicate ValidRune(r: int) {
    0 <= r < 0xD800 || 0xE000 <= r <= 0x10FFFF
  }

  /** How far `range` over a Go string steps at `i`: the width of the UTF-8 sequence there, 1 if it is malformed. */
  function Width(s: Bytes, i: nat): (w: nat)
    requires i < |s|
    ensures 1 <= w <= 4 && i + w <= |s|
    ensures forall k | i < k < i + w :: s[k] >= 0x80
  {
    if 0xC2 <= s[i] <= 0xDF && Continues(s, i, 2) then 2
    else if 0xE0 <= s[i] <= 0xEF && Continues(s, i, 3)
            && (s[i] == 0xE0 ==> s[i + 1] >= 0xA0) && (s[i] == 0xED ==> s[i + 1] <= 0x9F) then 3
    else if 0xF0 <= s[i] <= 0xF4 && Continues(s, i, 4)
            && (s[i] == 0xF0 ==> s[i + 1] >= 0x90) && (s[i] == 0xF4 ==> s[i + 1] <= 0x8F) then 4
    else 1
  }

  predicate Continues(s: Bytes, i: nat, w: nat) {
    i + w <= |s| && forall k | i < k < i + w :: 0x80 <= s[k] <= 0xBF
  }

  /** The rune at the front of a string; a byte that starts no well-formed sequence stands for U+FFFD. */
  function Decode(s: Bytes): (r: nat)
    requires s != []
    ensures ValidRune(r) && (r < 0x80 <==> s[0] < 0x80)
  {
    match Width(s, 0)
    case 2 => (s[0] - 0xC0) * 64 + (s[1] - 0x80)
    case 3 => (s[0] - 0xE0) * 4096 + (s[1] - 0x80) * 64 + (s[2] - 0x80)
    case 4 => (s[0] - 0xF0) * 262144 + (s[1] - 0x80) * 4096 + (s[2] - 0x80) * 64 + (s[3] - 0x80)
    case _ => if s[0] < 0x80 then s[0] else RUNE_ERROR
  }

  function EncodeValid(r: nat): (s: Bytes)
    requires ValidRune(r)
    ensures s != []
  {
    if r < 0x80 then [r]
    else if r < 0x800 then [0xC0 + r / 64, 0x80 + r % 64]
    else if r < 0x10000 then [0xE0 + r / 4096, 0x80 + r / 64 % 64, 0x80 + r % 64]
    else [0xF0 + r / 262144, 0x80 + r / 4096 % 64, 0x80 + r / 64 % 64, 0x80 + r % 64]
  }

  /** What `strings.Map` writes for the result of its mapping: nothing if negative, U+FFFD if it is no rune. */
  function Encode(r: int): Bytes {
    if r < 0 then [] else EncodeValid(if ValidRune(r) then r else RUNE_ERROR)
  }

  lemma TwoBytes(r: nat, rest: Bytes)
    requires 0x80 <= r < 0x800
    ensures Decode(EncodeValid(r) + rest) == r && Width(EncodeValid(r) + rest, 0) == 2
  {
    var s := EncodeValid(r) + rest;
    assert s[0] == 0xC0 + r / 64 && s[1] == 0x80 + r % 64;
  }

  lemma ThreeBytes(r: nat, rest: Bytes)
    requires 0x800 <= r < 0x10000 && ValidRune(r)
    ensures Decode(EncodeValid(r) + rest) == r && Width(EncodeValid(r) + rest, 0) == 3
  {
    var s := EncodeValid(r) + rest;
    assert s[0] == 0xE0 + r / 4096 && s[1] == 0x80 + r / 64 % 64 && s[2] == 0x80 + r % 64;
    assert r / 64 == r / 4096 * 64 + r / 64 % 64;
  }

  lemma FourBytes(r: nat, rest: Bytes)
    requires 0x10000 <= r <= 0x10FFFF
    ensures Decode(EncodeValid(r) + rest) == r && Width(EncodeValid(r) + rest, 0) == 4
  {
    var s := EncodeValid(r) + rest;
    assert s[0] == 0xF0 + r / 262144 && s[1] == 0x80 + r / 4096 % 64;
    assert s[2] == 0x80 + r / 64 % 64 && s[3] == 0x80 + r % 64;
    assert r / 64 == r / 4096 * 64 + r / 64 % 64;
    assert r / 4096 == r / 262144 * 64 + r / 4096 % 64;
  }

  /** A rune survives being written and read, whatever follows. */
  lemma DecodeEncode(r: nat, rest: Bytes)
    requires ValidRune(r)
    ensures Decode(Encode(r) + rest) == r
    ensures Width(Encode(r) + rest, 0) == |Encode(r)|
  {
    if r < 0x80 {
      assert (Encode(r) + rest)[0] == r;
    } else {
      hide Decode, Width;
      if r < 0x800 {
        TwoBytes(r, rest);
      } else if r < 0x10000 {
        ThreeBytes(r, rest);
      } else {
        FourBytes(r, rest);
      }
    }
  }

  // ----- lower case

  predicate IsUpper(b: Byte) {
    65 <= b <= 90
  }

  function LowerByte(b: Byte): Byte {
    if IsUpper(b) then b + 32 else b
  }

  /** `unicode.ToLower`: its tables beyond ASCII are the parameter `fold`. */
  function LowerRune(fold: int -> int, r: nat): int {
    if r < 0x80 then LowerByte(r) else fold(r)
  }

  /** `strings.ToLower`: rune by rune; malformed bytes become U+FFFD unless `fold` changes that. */
  function ToLower(fold: int -> int, s: Bytes): Bytes
    decreases |s|
  {
    if s == [] then [] else Encode(LowerRune(fold, Decode(s))) + ToLower(fold, s[Width(s, 0)..])
  }

  /** The UTF-8 text of a list of runes; U+FFFD stands for what is no rune. */
  function Text(runes: seq<int>): Bytes {
    if runes == [] then [] else Encode(runes[0]) + Text(runes[1..])
  }

  /** Each rune in lower case: A to Z by 32, the rest of ASCII as it is, all others by the Unicode tables. */
  function LowerEach(fold: int -> int, runes: seq<int>): seq<int> {
    seq(|runes|, i requires 0 <= i < |runes| =>
      if 65 <= runes[i] <= 90 then runes[i] + 32 else if runes[i] < 0x80 then runes[i] else fold(runes[i]))
  }

  /** The lower case of well-formed text is the text of its runes in lower case. */
  lemma {:induction false} LowerText(fold: int -> int, runes: seq<int>)
    requires forall r | r in runes :: ValidRune(r)
    ensures ToLower(fold, Text(runes)) == Text(LowerEach(fold, runes))
    decreases |runes|
  {
    hide Decode, Width, Encode, ValidRune;
    if runes != [] {
      var r, rest := runes[0], Text(runes[1..]);
      assert r in runes;
      LowerFirstRune(fold, r, rest);
      LowerText(fold, runes[1..]);
      assert LowerEach(fold, runes)[1..] == LowerEach(fold, runes[1..]);
    }
  }

  lemma LowerFirstRune(fold: int -> int, r: int, rest: Bytes)
    requires ValidRune(r)
    ensures ToLower(fold, Encode(r) + rest) == Encode(LowerRune(fold, r)) + ToLower(fold, rest)
  {
    hide Decode, Width, LowerRune;
    DecodeEncode(r, rest);
    assert (Encode(r) + rest)[|Encode(r)|..] == rest;
  }

  predicate IsAscii(s: Bytes) {
    forall i | 0 <= i < |s| :: s[i] < 0x80
  }

  predicate LowerCase(s: Bytes) {
    forall i | 0 <= i < |s| :: !IsUpper(s[i])
  }

  function LowerAscii(s: Bytes): (r: Bytes)
    ensures |r| == |s|
  {
    seq(|s|, i requires 0 <= i < |s| => LowerByte(s[i]))
  }

  lemma LowerFirst(fold: int -> int, s: Bytes)
    requires s != [] && s[0] < 0x80
    ensures ToLower(fold, s) == [LowerByte(s[0])] + ToLower(fold, s[1..])
  {
    assert Width(s, 0) == 1 && Decode(s) == s[0];
    assert Encode(LowerByte(s[0])) == [LowerByte(s[0])];
  }

  /** An ASCII prefix is lowered byte by byte and does not touch what follows. */
  lemma {:induction false} LowerPrefix(fold: int -> int, a: Bytes, s: Bytes)
    requires IsAscii(a)
    ensures ToLower(fold, a + s) == LowerAscii(a) + ToLower(fold, s)
    decreases |a|
  {
    hide ToLower, LowerByte;
    if a == [] {
      assert a + s == s;
    } else {
      assert a[0] < 0x80 && (a + s)[0] == a[0] && (a + s)[1..] == a[1..] + s;
      LowerFirst(fold, a + s);
      LowerPrefix(fold, a[1..], s);
      assert LowerAscii(a) == [LowerByte(a[0])] + LowerAscii(a[1..]);
    }
  }

  lemma LowerOfAscii(fold: int -> int, a: Bytes)
    requires IsAscii(a)
    ensures ToLower(fold, a) == LowerAscii(a)
    ensures ToLower(fold, a) == a <==> LowerCase(a)
  {
    LowerPrefix(fold, a, []);
    assert a + [] == a;
    var r := LowerAscii(a);
    if !LowerCase(a) {
      var i :| 0 <= i < |a| && IsUpper(a[i]);
      assert r[i] != a[i];
    } else {
      assert r == a;
    }
  }

  /** What the Unicode tables give for one rune: a rune whose lower case is itself. */
  predicate Lowers(fold: int -> int, r: int) {
    var l := fold(r);
    ValidRune(l) && (if l < 0x80 then !IsUpper(l) else fold(l) == l)
  }

  /** Simple lower-casing in Unicode maps runes to runes and lower-case runes to themselves. */
  ghost predicate Unicode(fold: int -> int) {
    forall r | ValidRune(r) && r >= 0x80 :: Lowers(fold, r)
  }

  /** Lowering twice is lowering once. */
  lemma {:induction false} LowerTwice(fold: int -> int, s: Bytes)
    requires Unicode(fold)
    ensures ToLower(fold, ToLower(fold, s)) == ToLower(fold, s)
    decreases |s|
  {
    hide Encode, Decode, Width;
    if s != [] {
      var r := Decode(s);
      var l := LowerRune(fold, r);
      var rest := ToLower(fold, s[Width(s, 0)..]);
      assert r >= 0x80 ==> Lowers(fold, r);
      LowerTwice(fold, s[Width(s, 0)..]);
      LowerEncoded(fold, l, rest);
    }
  }

  /** A rune that is its own lower case stays at the front. */
  lemma LowerEncoded(fold: int -> int, l: nat, rest: Bytes)
    requires ValidRune(l) && LowerRune(fold, l) == l
    ensures ToLower(fold, Encode(l) + rest) == Encode(l) + ToLower(fold, rest)
  {
    DecodeEncode(l, rest);
    hide Decode, Width, LowerRune;
    assert (Encode(l) + rest)[|Encode(l)|..] == rest;
    assert Encode(l) != [];
  }
}
