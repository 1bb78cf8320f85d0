/** The random outcome source. The 32-bit word `crypto.getRandomValues`
    writes into a one-element Uint32Array, and the 16 bytes it writes for a
    seed, are parameters; this module is the deterministic mapping from them
    to game outcomes. */
module Rng {

  import opened Types
  import opened JsBuiltins
  import Arithmetic

  const TwoTo32: int := 0x1_0000_0000

  /** An element of a Uint32Array. */
  type Uint32 = x: int | 0 <= x < 0x1_0000_0000

  /** An element of a Uint8Array. */
  type Uint8 = x: int | 0 <= x < 256

  /** `getSecureRandom`: the word divided by 2^32, a number in [0, 1). */
  function SecureRandom(word: Uint32): (u: real)
    ensures 0.0 <= u < 1.0
  {
    word as real / (0xffffffff + 1) as real
  }

  /** `getRandomInt`: floor(u * (max - min + 1)) + min. Since u = word/2^32
      exactly, this is min + (word * (max - min + 1)) div 2^32, and for
      min <= max it lies in [min, max]. */
  function GetRandomInt(min: int, max: int, word: Uint32): (n: int)
    ensures n == min + (word * (max - min + 1)) / TwoTo32
    ensures min <= max ==> min <= n <= max
  {
    var span := max - min + 1;
    assert SecureRandom(word) * span as real == (word * span) as real / TwoTo32 as real;
    Arithmetic.FloorOfRatio(word * span, TwoTo32);
    ScaledWordBound(word, span);
    (SecureRandom(word) * span as real).Floor + min
  }

  /** A word scaled by a positive span, divided by 2^32, lies in [0, span). */
  lemma ScaledWordBound(word: Uint32, span: int)
    ensures span >= 1 ==> 0 <= (word * span) / TwoTo32 < span
  {
    if span >= 1 {
      Arithmetic.ProductSign(TwoTo32 - word, span);
      assert (TwoTo32 - word) * span == TwoTo32 * span - word * span;
      assert TwoTo32 * span - word * span >= span;
      Arithmetic.ProductSign(word, span);
      Arithmetic.DivUpperBound(word * span, TwoTo32, span);
    }
  }

  /** `getRandomCardColor`: red exactly for the lower half of the words. */
  function GetRandomCardColor(word: Uint32): (c: CardColor)
    ensures c == Red <==> word < 0x8000_0000
  {
    if SecureRandom(word) < 0.5 then Red else Black
  }

  /** `getRandomDiceValue`: a face from 1 to 6. */
  function GetRandomDiceValue(word: Uint32): (face: int)
    ensures 1 <= face <= 6
  {
    GetRandomInt(1, 6, word)
  }

  /** `getDiceRange`: faces up to 2 are low, 3 and 4 middle, the rest high. */
  function GetDiceRange(value: int): (range: DiceRange)
    ensures range == Low <==> value <= 2
    ensures range == Middle <==> 2 < value <= 4
    ensures range == High <==> 4 < value
  {
    if value <= 2 then Low else if value <= 4 then Middle else High
  }

  /** Of the six faces, each range covers exactly two. */
  lemma EachRangeCoversTwoFaces(range: DiceRange)
    ensures |set face | 1 <= face <= 6 && GetDiceRange(face) == range| == 2
  {
    var faces := set face | 1 <= face <= 6 && GetDiceRange(face) == range;
    match range
    case Low => assert faces == {1, 2};
    case Middle => assert faces == {3, 4};
    case High => assert faces == {5, 6};
  }

  /** `getRandomNumber`: the same mapping as getRandomInt. */
  function GetRandomNumber(min: int, max: int, word: Uint32): (n: int)
    ensures min <= max ==> min <= n <= max
    ensures n == GetRandomInt(min, max, word)
  {
    GetRandomInt(min, max, word)
  }

  /** One byte as `byte.toString(16).padStart(2, '0')`: its two hex digits. */
  function ByteToHex(b: Uint8): (s: string)
    ensures s == [DigitChar(b / 16), DigitChar(b % 16)]
  {
    TwoHexDigits(b);
    PadStart(NatToString(b, 16), 2, '0')
  }

  /** The texts of the bytes joined with no separator. */
  function HexJoin(bytes: seq<Uint8>): (s: string)
    ensures |s| == 2 * |bytes|
  {
    if bytes == [] then "" else ByteToHex(bytes[0]) + HexJoin(bytes[1..])
  }

  /** Reads a hex text back two characters at a time. */
  function HexDecode(s: string): seq<int>
  {
    if |s| < 2 then [] else [DigitValue(s[0]) * 16 + DigitValue(s[1])] + HexDecode(s[2..])
  }

  /** The joined text holds byte i at characters 2i and 2i+1. */
  lemma {:induction false} HexJoinAt(bytes: seq<Uint8>, i: nat)
    requires i < |bytes|
    ensures HexJoin(bytes)[2 * i] == DigitChar(bytes[i] / 16)
    ensures HexJoin(bytes)[2 * i + 1] == DigitChar(bytes[i] % 16)
  {
    var s, rest := HexJoin(bytes), HexJoin(bytes[1..]);
    assert s == ByteToHex(bytes[0]) + rest;
    if i > 0 {
      HexJoinAt(bytes[1..], i - 1);
      assert s[2 * i] == rest[2 * (i - 1)] && s[2 * i + 1] == rest[2 * (i - 1) + 1];
    }
  }

  /** The joined text holds only lower-case hex digits. */
  lemma HexJoinDigits(bytes: seq<Uint8>, j: nat)
    requires j < |HexJoin(bytes)|
    ensures IsDigitChar(HexJoin(bytes)[j], 16)
  {
    var i := j / 2;
    assert j == 2 * i || j == 2 * i + 1;
    HexJoinAt(bytes, i);
  }

  /** Decoding the joined text gives the bytes back. */
  lemma {:induction false} HexJoinRoundTrip(bytes: seq<Uint8>)
    ensures HexDecode(HexJoin(bytes)) == bytes
  {
    if bytes != [] {
      HexJoinRoundTrip(bytes[1..]);
      var s := HexJoin(bytes);
      assert s[2..] == HexJoin(bytes[1..]);
      assert DigitValue(s[0]) * 16 + DigitValue(s[1]) == bytes[0];
      assert bytes == [bytes[0]] + bytes[1..];
    }
  }

  /** `generateSeed`: the 16 bytes as 32 lower-case hex digits, byte i at
      characters 2i and 2i+1, decodable back to the bytes. */
  function GenerateSeed(bytes: seq<Uint8>): (seed: string)
    requires |bytes| == 16
    ensures |seed| == 32
    ensures forall j :: 0 <= j < |seed| ==> IsDigitChar(seed[j], 16)
    ensures forall i :: 0 <= i < 16 ==> seed[2 * i] == DigitChar(bytes[i] / 16) && seed[2 * i + 1] == DigitChar(bytes[i] % 16)
    ensures HexDecode(seed) == bytes
  {
    var seed := HexJoin(bytes);
    assert forall i :: 0 <= i < 16 ==> seed[2 * i] == DigitChar(bytes[i] / 16) && seed[2 * i + 1] == DigitChar(bytes[i] % 16) by {
      forall i | 0 <= i < 16 { HexJoinAt(bytes, i); }
    }
    assert forall j :: 0 <= j < |seed| ==> IsDigitChar(seed[j], 16) by {
      forall j | 0 <= j < |seed| { HexJoinDigits(bytes, j); }
    }
    HexJoinRoundTrip(bytes);
    seed
  }
}
