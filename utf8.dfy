/**
 * UTF-8 as the two encoders the ciphers rely on apply it to a JavaScript
 * string: `TextEncoder.encode`, which replaces a lone surrogate by U+FFFD, and
 * `CryptoJS.enc.Utf8.parse`, which throws on one (it goes through
 * `encodeURIComponent`) and packs the bytes into big-endian signed 32-bit words.
 */
module Utf8 {
  import opened Wrappers
  import opened JsText

  type Byte = x: int | 0 <= x < 256

  /** The code point a character of the string iterator stands for. */
  function CodePoint(ch: Str): (c: int)
    requires 1 <= |ch| <= 2
    ensures 0 <= c < 0x11_0000
    ensures |ch| == 2 && IsHighSurrogate(ch[0]) && IsLowSurrogate(ch[1]) ==> c >= 0x1_0000
  {
    if |ch| == 2 && IsHighSurrogate(ch[0]) && IsLowSurrogate(ch[1])
    then 0x1_0000 + (ch[0] as int - 0xD800) * 0x400 + (ch[1] as int - 0xDC00)
    else ch[0]
  }

  /** A character that is a surrogate on its own, which UTF-8 cannot encode. */
  predicate IsLoneSurrogate(ch: Str)
    requires 1 <= |ch| <= 2
  {
    |ch| == 1 && (IsHighSurrogate(ch[0]) || IsLowSurrogate(ch[0]))
  }

  /** The UTF-8 bytes of a code point. */
  function EncodeCodePoint(c: int): (r: seq<Byte>)
    requires 0 <= c < 0x11_0000
    ensures 1 <= |r| <= 4
    ensures c < 0x80 ==> r == [c]
    ensures c >= 0x1_0000 ==> |r| == 4
  {
    if c < 0x80 then [c]
    else if c < 0x800 then [0xC0 + c / 0x40, 0x80 + c % 0x40]
    else if c < 0x1_0000 then [0xE0 + c / 0x1000, 0x80 + (c / 0x40) % 0x40, 0x80 + c % 0x40]
    else [0xF0 + c / 0x4_0000, 0x80 + (c / 0x1000) % 0x40, 0x80 + (c / 0x40) % 0x40, 0x80 + c % 0x40]
  }

  /** The bytes `TextEncoder` writes for one character: U+FFFD for a lone surrogate. */
  function EncodeChar(ch: Str): (r: seq<Byte>)
    requires 1 <= |ch| <= 2
    requires |ch| == 2 ==> IsHighSurrogate(ch[0]) && IsLowSurrogate(ch[1])
    ensures |r| >= |ch|
  {
    if IsLoneSurrogate(ch) then [0xEF, 0xBF, 0xBD] else EncodeCodePoint(CodePoint(ch))
  }

  /** `new TextEncoder().encode(s)` */
  function TextEncode(s: Str): (r: seq<Byte>)
    ensures |r| >= |s|
    ensures s == [] ==> r == []
    decreases |s|
  {
    if s == [] then [] else EncodeChar(s[..CharLen(s)]) + TextEncode(s[CharLen(s)..])
  }

  /** ASCII text encodes to its own code units. */
  lemma {:induction false} TextEncodeAscii(s: Str)
    requires forall i :: 0 <= i < |s| ==> s[i] < 0x80
    ensures TextEncode(s) == s
    decreases |s|
  {
    if s != [] {
      assert CharLen(s) == 1;
      assert s[..1] == [s[0]];
      TextEncodeAscii(s[1..]);
      assert s == [s[0]] + s[1..];
    }
  }

  /**
   * The bytes of `CryptoJS.enc.Utf8.parse(s)`, or `None` when
   * `encodeURIComponent` throws a URIError on a lone surrogate.
   */
  function StrictEncode(s: Str): (r: Option<seq<Byte>>)
    ensures r.Some? ==> |r.value| >= |s|
    decreases |s|
  {
    if s == [] then Some([])
    else
      var ch := s[..CharLen(s)];
      if IsLoneSurrogate(ch) then None
      else match StrictEncode(s[CharLen(s)..])
        case None => None
        case Some(rest) => Some(EncodeCodePoint(CodePoint(ch)) + rest)
  }

  /** Both encoders agree on text without lone surrogates. */
  lemma {:induction false} StrictEncodeAgrees(s: Str)
    requires StrictEncode(s).Some?
    ensures StrictEncode(s).value == TextEncode(s)
    decreases |s|
  {
    if s != [] {
      StrictEncodeAgrees(s[CharLen(s)..]);
    }
  }

  /** `b` read as a signed 32-bit integer, as the `|=` and `<<` of JavaScript leave it. */
  function Signed32(b: int): (r: int)
    requires 0 <= b < 0x1_0000_0000
    ensures -0x8000_0000 <= r < 0x8000_0000
  {
    if b < 0x8000_0000 then b else b - 0x1_0000_0000
  }

  /** Byte k of `bytes`, or 0 past its end (an unset word bit stays 0). */
  function ByteOrZero(bytes: seq<Byte>, k: int): Byte
  {
    if 0 <= k < |bytes| then bytes[k] else 0
  }

  /**
   * The `words` array of a CryptoJS word array: byte k sits in word k / 4 at
   * bit 24 - 8 * (k % 4), and the word is signed.
   */
  function BigEndianWords(bytes: seq<Byte>): (w: seq<int>)
    ensures |w| == (|bytes| + 3) / 4
  {
    seq((|bytes| + 3) / 4, k =>
      Signed32(ByteOrZero(bytes, 4 * k) * 0x100_0000 + ByteOrZero(bytes, 4 * k + 1) * 0x1_0000
               + ByteOrZero(bytes, 4 * k + 2) * 0x100 + ByteOrZero(bytes, 4 * k + 3)))
  }

  /** A word is negative exactly when its first byte has the top bit set. */
  lemma WordSign(bytes: seq<Byte>, k: nat)
    requires k < (|bytes| + 3) / 4
    ensures BigEndianWords(bytes)[k] < 0 <==> bytes[4 * k] >= 0x80
  {
  }
}
