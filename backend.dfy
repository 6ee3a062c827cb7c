/**
 * The handler bodies of the Python server (`backend/main.py`): key
 * generation, the repeating-key XOR cipher with lower-case hex, and text
 * analysis. A Python string is a sequence of code points; an exception the
 * handler turns into HTTP 500 is a `Failure` naming what raised it. The
 * characters `secrets.choice` picks are given as indices into the charset.
 */
module Backend {
  import opened Wrappers
  import opened JsText
  import opened JsMath
  import opened Bits
  import ComponentHelpers

  /** A Unicode code point, what `ord` returns and `chr` accepts. */
  type CodePoint = x: int | 0 <= x <= 0x10FFFF

  type PyStr = seq<CodePoint>

  /** What raised inside a handler; each one becomes HTTP 500. */
  datatype Fault =
    | ZeroModulo     // `i % key_len` with an empty key
    | NotCodePoint   // `chr` of a value outside [0, 0x10FFFF]
    | NotHexNumber   // `int(pair, 16)` of something that is not a number
    | NoBitLength    // `probability.bit_length()` on a float

  // ---------------------------------------------------------------------------
  // The XOR loop of encrypt_text and decrypt_text

  /** `ord(char) ^ ord(key[i % key_len])` for the i-th character. */
  function XorAt(text: PyStr, key: PyStr, i: nat): nat
    requires key != [] && i < |text|
  {
    Xor(text[i], key[i % |key|])
  }

  /**
   * What the loop leaves in `result`: nothing to do for an empty text; an
   * empty key fails at the first character; a XOR beyond U+10FFFF fails
   * `chr`; otherwise the XOR of every character with the repeating key.
   */
  function XorWithKey(text: PyStr, key: PyStr): Result<PyStr, Fault>
  {
    if text == [] then Success([])
    else if key == [] then Failure(ZeroModulo)
    else if exists i :: 0 <= i < |text| && XorAt(text, key, i) > 0x10FFFF then Failure(NotCodePoint)
    else Success(seq(|text|, i requires 0 <= i < |text| => XorAt(text, key, i)))
  }

  /** `for i, char in enumerate(text): result += chr(ord(char) ^ ord(key[i % key_len]))` */
  method XorText(text: PyStr, key: PyStr) returns (r: Result<PyStr, Fault>)
    ensures r == XorWithKey(text, key)
  {
    var result: PyStr := [];
    var keyLen := |key|;
    for i := 0 to |text|
      invariant i > 0 ==> key != []
      invariant |result| == i
      invariant forall k :: 0 <= k < i ==> key != [] && XorAt(text, key, k) <= 0x10FFFF && result[k] == XorAt(text, key, k)
    {
      if keyLen == 0 {
        return Failure(ZeroModulo);
      }
      var code := Xor(text[i], key[i % keyLen]);
      if code > 0x10FFFF {
        assert XorAt(text, key, i) > 0x10FFFF;
        return Failure(NotCodePoint);
      }
      result := result + [code];
    }
    assert result == seq(|text|, i requires 0 <= i < |text| => XorAt(text, key, i));
    r := Success(result);
  }

  /**
   * The loop succeeds exactly for an empty text, or for a non-empty key whose
   * XORs are all code points; then character i is the XOR at i.
   */
  lemma XorWithKeyOutcome(text: PyStr, key: PyStr)
    ensures XorWithKey(text, key).Success? <==>
      text == [] || (key != [] && forall i :: 0 <= i < |text| ==> XorAt(text, key, i) <= 0x10FFFF)
    ensures XorWithKey(text, key).Success? ==>
      |XorWithKey(text, key).value| == |text| && forall i :: 0 <= i < |text| ==> XorWithKey(text, key).value[i] == XorAt(text, key, i)
  {
  }

  /** Every code point is below 256. */
  predicate Latin1(s: PyStr)
  {
    forall i :: 0 <= i < |s| ==> s[i] < 256
  }

  /** With no code point of text or key beyond 255, every XOR is below 256, so only an empty key can fail. */
  lemma XorOfLatin1(text: PyStr, key: PyStr)
    requires Latin1(text) && Latin1(key) && (text == [] || key != [])
    ensures XorWithKey(text, key).Success? && Latin1(XorWithKey(text, key).value)
  {
    Pow2Values();
    forall i | 0 <= i < |text|
      ensures XorAt(text, key, i) < 256
    {
      XorBelow(text[i], key[i % |key|], 8);
    }
  }

  /** XOR with the same repeating key twice gives the text back. */
  lemma XorWithKeyTwice(text: PyStr, key: PyStr)
    requires XorWithKey(text, key).Success?
    ensures XorWithKey(XorWithKey(text, key).value, key) == Success(text)
  {
    var x := XorWithKey(text, key).value;
    if text != [] {
      forall i | 0 <= i < |x|
        ensures XorAt(x, key, i) == text[i]
      {
        XorTwice(text[i], key[i % |key|]);
      }
      assert seq(|x|, i requires 0 <= i < |x| => XorAt(x, key, i)) == text;
    }
  }

  /** The loop yields `out` when every XOR is the corresponding code point of it. */
  lemma XorWithKeyYields(text: PyStr, key: PyStr, out: PyStr)
    requires text != [] && key != [] && |out| == |text|
    requires forall i :: 0 <= i < |text| ==> XorAt(text, key, i) == out[i]
    ensures XorWithKey(text, key) == Success(out)
  {
    assert seq(|text|, i requires 0 <= i < |text| => XorAt(text, key, i)) == out;
  }

  // ---------------------------------------------------------------------------
  // encrypt_text

  datatype Mode = EncryptMode | DecryptMode

  /** A `CipherRequest`: the mode field is read by neither handler. */
  datatype CipherRequest = CipherRequest(text: PyStr, key: PyStr, algorithm: PyStr, mode: PyStr)

  /** A `CipherResponse`: the algorithm is echoed back. */
  datatype CipherResponse = CipherResponse(result: PyStr, algorithm: PyStr, mode: Mode)

  /** `''.join(f'{ord(c):02x}' for c in result)`: lower-case hex, at least two digits per character. */
  function HexOf(units: PyStr): Str
  {
    Concat(seq(|units|, i requires 0 <= i < |units| => Hex2(units[i])))
  }

  /** The response `encrypt_text` returns, or what raised. */
  function EncryptResponse(request: CipherRequest): Result<CipherResponse, Fault>
  {
    match XorWithKey(request.text, request.key)
    case Success(units) => Success(CipherResponse(HexOf(units), request.algorithm, EncryptMode))
    case Failure(f) => Failure(f)
  }

  /** `encrypt_text(request)`: the XOR loop, then the hex rendering. */
  method EncryptText(request: CipherRequest) returns (r: Result<CipherResponse, Fault>)
    ensures r == EncryptResponse(request)
  {
    var xored := XorText(request.text, request.key);
    if xored.Failure? {
      return Failure(xored.error);
    }
    var hexResult := HexOf(xored.value);
    r := Success(CipherResponse(hexResult, request.algorithm, EncryptMode));
  }

  /** The rendering of the first character, then that of the rest. */
  lemma HexOfCons(units: PyStr)
    requires units != []
    ensures HexOf(units) == Hex2(units[0]) + HexOf(units[1..])
  {
    var parts := seq(|units|, i requires 0 <= i < |units| => Hex2(units[i]));
    assert parts == [Hex2(units[0])] + seq(|units| - 1, i requires 0 <= i < |units| - 1 => Hex2(units[1..][i]));
    ConcatAppend([Hex2(units[0])], parts[1..]);
    assert parts[1..] == seq(|units| - 1, i requires 0 <= i < |units| - 1 => Hex2(units[1..][i]));
  }

  /** The hex of byte values: two lower-case digits each, high nibble first. */
  lemma {:induction false} HexOfLatin1(units: PyStr)
    requires Latin1(units)
    ensures |HexOf(units)| == 2 * |units|
    ensures forall i :: 0 <= i < |units| ==>
      HexOf(units)[2 * i] == HexDigit(units[i] / 16) && HexOf(units)[2 * i + 1] == HexDigit(units[i] % 16)
    decreases |units|
  {
    if units != [] {
      HexOfCons(units);
      HexOfLatin1(units[1..]);
      Hex2OfByte(units[0]);
      var h := HexOf(units);
      forall i | 0 <= i < |units|
        ensures h[2 * i] == HexDigit(units[i] / 16) && h[2 * i + 1] == HexDigit(units[i] % 16)
      {
        if i > 0 {
          assert units[i] == units[1..][i - 1];
          assert h[2 * i] == HexOf(units[1..])[2 * (i - 1)];
          assert h[2 * i + 1] == HexOf(units[1..])[2 * (i - 1) + 1];
        }
      }
    }
  }

  /** The result never depends on the algorithm, which is only echoed back. */
  lemma AlgorithmIgnored(a: CipherRequest, b: CipherRequest)
    requires a.text == b.text && a.key == b.key
    ensures EncryptResponse(a).Success? == EncryptResponse(b).Success?
    ensures EncryptResponse(a).Success? ==>
      EncryptResponse(a).value.result == EncryptResponse(b).value.result && EncryptResponse(a).value.algorithm == a.algorithm
    ensures DecryptResponse(a).Success? == DecryptResponse(b).Success?
    ensures DecryptResponse(a).Success? ==>
      DecryptResponse(a).value.result == DecryptResponse(b).value.result && DecryptResponse(a).value.algorithm == a.algorithm
  {
  }

  // ---------------------------------------------------------------------------
  // decrypt_text

  /** `[text[i:i+2] for i in range(0, len(text), 2)]`: slices of two, the last of one for an odd length. */
  function HexPairs(text: PyStr): (pairs: seq<PyStr>)
    ensures forall i :: 0 <= i < |pairs| ==> 1 <= |pairs[i]| <= 2
    decreases |text|
  {
    if text == [] then []
    else if |text| == 1 then [text]
    else [text[..2]] + HexPairs(text[2..])
  }

  /** The slices cover the text in order; all have two characters except, for an odd length, the last. */
  lemma HexPairsShape(text: PyStr)
    ensures |HexPairs(text)| == (|text| + 1) / 2
    ensures forall i :: 0 <= i < |HexPairs(text)| ==> HexPairs(text)[i] == text[2 * i..Min(2 * i + 2, |text|)]
  {
    HexPairsLength(text);
    forall i | 0 <= i < |HexPairs(text)|
      ensures HexPairs(text)[i] == text[2 * i..Min(2 * i + 2, |text|)]
    {
      HexPairAt(text, i);
    }
  }

  /** One slice per two characters, rounding up. */
  lemma {:induction false} HexPairsLength(text: PyStr)
    ensures |HexPairs(text)| == (|text| + 1) / 2
    decreases |text|
  {
    if |text| >= 2 {
      HexPairsLength(text[2..]);
    }
  }

  /** The i-th slice starts at 2 · i. */
  lemma {:induction false} HexPairAt(text: PyStr, i: nat)
    requires i < |HexPairs(text)|
    ensures 2 * i < |text| && HexPairs(text)[i] == text[2 * i..Min(2 * i + 2, |text|)]
    decreases i
  {
    HexPairsLength(text);
    if i > 0 {
      assert |text| >= 2;
      var rest := text[2..];
      HexPairsLength(rest);
      assert HexPairs(text) == [text[..2]] + HexPairs(rest);
      assert HexPairs(text)[i] == HexPairs(rest)[i - 1];
      HexPairAt(rest, i - 1);
      assert rest[2 * (i - 1)..Min(2 * (i - 1) + 2, |rest|)] == text[2 * i..Min(2 * i + 2, |text|)];
    }
  }

  /**
   * The characters `int` skips at either end of its argument: ASCII tab,
   * line feed, vertical tab, form feed, carriage return and space, and the
   * non-ASCII white space that CPython first turns into a space. The ASCII
   * separators U+001C to U+001F are not skipped.
   */
  predicate PySpace(c: int)
  {
    9 <= c <= 13 || c == 0x20 || c == 0x85 || c == 0xA0 || c == 0x1680
    || 0x2000 <= c <= 0x200A || c == 0x2028 || c == 0x2029 || c == 0x202F || c == 0x205F || c == 0x3000
  }

  /** The text `int` reads once the white space at both ends is skipped. */
  function Strip(s: PyStr): (r: PyStr)
    ensures |r| <= |s|
    ensures r != [] ==> !PySpace(r[0]) && !PySpace(r[|r| - 1])
    decreases |s|
  {
    if s == [] then []
    else if PySpace(s[0]) then Strip(s[1..])
    else if PySpace(s[|s| - 1]) then Strip(s[..|s| - 1])
    else s
  }

  /**
   * The stripped text is a slice of the text, and everything before and
   * after that slice is white space.
   */
  lemma {:induction false} StripSlice(s: PyStr) returns (a: nat, b: nat)
    ensures a <= b <= |s| && Strip(s) == s[a..b]
    ensures forall k :: 0 <= k < a ==> PySpace(s[k])
    ensures forall k :: b <= k < |s| ==> PySpace(s[k])
    decreases |s|
  {
    if s == [] {
      a, b := 0, 0;
    } else if PySpace(s[0]) {
      var t := s[1..];
      var c, d := StripSlice(t);
      a, b := c + 1, d + 1;
      StripTail(s, c, d);
    } else if PySpace(s[|s| - 1]) {
      var t := s[..|s| - 1];
      a, b := StripSlice(t);
      StripInit(s, t, a, b);
    } else {
      a, b := 0, |s|;
    }
  }

  // The two recursive steps of `StripSlice`, one each.
  lemma StripTail(s: PyStr, c: nat, d: nat)
    requires s != [] && PySpace(s[0])
    requires c <= d <= |s| - 1 && Strip(s[1..]) == s[1..][c..d]
    requires forall k :: 0 <= k < c ==> PySpace(s[1..][k])
    requires forall k :: d <= k < |s| - 1 ==> PySpace(s[1..][k])
    ensures Strip(s) == s[c + 1..d + 1]
    ensures forall k :: 0 <= k < c + 1 ==> PySpace(s[k])
    ensures forall k :: d + 1 <= k < |s| ==> PySpace(s[k])
  {
    assert s[1..][c..d] == s[c + 1..d + 1];
    forall k | 0 < k < c + 1 ensures PySpace(s[k]) {
      assert s[k] == s[1..][k - 1];
    }
    forall k | d + 1 <= k < |s| ensures PySpace(s[k]) {
      assert s[k] == s[1..][k - 1];
    }
  }

  lemma StripInit(s: PyStr, t: PyStr, a: nat, b: nat)
    requires s != [] && !PySpace(s[0]) && PySpace(s[|s| - 1]) && t == s[..|s| - 1]
    requires a <= b <= |t| && Strip(t) == t[a..b]
    requires forall k :: 0 <= k < a ==> PySpace(t[k])
    requires forall k :: b <= k < |t| ==> PySpace(t[k])
    ensures Strip(s) == s[a..b]
    ensures forall k :: 0 <= k < a ==> PySpace(s[k])
    ensures forall k :: b <= k < |s| ==> PySpace(s[k])
  {
    assert t[a..b] == s[a..b];
    forall k | b <= k < |t| ensures PySpace(s[k]) {
      assert s[k] == t[k];
    }
  }

  /**
   * `int(pair, 16)` for a slice of at most two characters: after stripping,
   * one hex digit, two hex digits, or a sign and one hex digit; anything
   * else raises.
   */
  function PairValue(pair: PyStr): (r: Option<int>)
    requires |pair| <= 2
  {
    var s := Strip(pair);
    if |s| == 1 && HexValue(s[0]).Some? then Some(HexValue(s[0]).value)
    else if |s| == 2 && HexValue(s[0]).Some? && HexValue(s[1]).Some? then Some(16 * HexValue(s[0]).value + HexValue(s[1]).value)
    else if |s| == 2 && (s[0] == '+' as int || s[0] == '-' as int) && HexValue(s[1]).Some? then
      var digit: int := HexValue(s[1]).value;
      Some(if s[0] == '-' as int then -digit else digit)
    else None
  }

  /** A pair `chr(int(pair, 16))` accepts. */
  predicate PairDecodes(pair: PyStr)
    requires |pair| <= 2
  {
    PairValue(pair).Some? && 0 <= PairValue(pair).value <= 0x10FFFF
  }

  /** `''.join(chr(int(pair, 16)) for pair in hex_pairs if pair)`: the first pair that does not parse or is negative raises. */
  function Decoded(pairs: seq<PyStr>): (r: Result<PyStr, Fault>)
    requires forall i :: 0 <= i < |pairs| ==> |pairs[i]| <= 2
  {
    if pairs == [] then Success([])
    else if PairValue(pairs[0]).None? then Failure(NotHexNumber)
    else if !PairDecodes(pairs[0]) then Failure(NotCodePoint)
    else
      match Decoded(pairs[1..])
      case Success(rest) => Success([PairValue(pairs[0]).value as CodePoint] + rest)
      case Failure(f) => Failure(f)
  }

  /** Decoding fails exactly when some pair does not decode, and otherwise yields one code point per pair. */
  lemma {:induction false} DecodedOutcome(pairs: seq<PyStr>)
    requires forall i :: 0 <= i < |pairs| ==> |pairs[i]| <= 2
    ensures Decoded(pairs).Success? <==> forall i :: 0 <= i < |pairs| ==> PairDecodes(pairs[i])
    ensures Decoded(pairs).Success? ==>
      |Decoded(pairs).value| == |pairs| && forall i :: 0 <= i < |pairs| ==> Decoded(pairs).value[i] == PairValue(pairs[i]).value
  {
    if pairs != [] {
      DecodedOutcome(pairs[1..]);
      if Decoded(pairs).Success? {
        forall i | 1 <= i < |pairs|
          ensures PairDecodes(pairs[i]) && Decoded(pairs).value[i] == PairValue(pairs[i]).value
        {
          assert pairs[i] == pairs[1..][i - 1];
        }
      } else if PairDecodes(pairs[0]) {
        var i :| 0 <= i < |pairs[1..]| && !PairDecodes(pairs[1..][i]);
        assert !PairDecodes(pairs[i + 1]);
      }
    }
  }

  /** The response `decrypt_text` returns, or what raised. */
  function DecryptResponse(request: CipherRequest): Result<CipherResponse, Fault>
  {
    match Decoded(HexPairs(request.text))
    case Failure(f) => Failure(f)
    case Success(encrypted) =>
      match XorWithKey(encrypted, request.key)
      case Success(result) => Success(CipherResponse(result, request.algorithm, DecryptMode))
      case Failure(f) => Failure(f)
  }

  /** `decrypt_text(request)`: the pairs parsed, then the XOR loop. */
  method DecryptText(request: CipherRequest) returns (r: Result<CipherResponse, Fault>)
    ensures r == DecryptResponse(request)
  {
    var hexPairs := HexPairs(request.text);
    var encrypted := Decoded(hexPairs);
    if encrypted.Failure? {
      return Failure(encrypted.error);
    }
    var result := XorText(encrypted.value, request.key);
    if result.Failure? {
      return Failure(result.error);
    }
    r := Success(CipherResponse(result.value, request.algorithm, DecryptMode));
  }

  /** Two digits of a byte read back as the byte. */
  lemma PairOfByte(n: nat)
    requires n < 256
    ensures |Hex2(n)| == 2 && PairValue(Hex2(n)) == Some(n)
  {
    Hex2OfByte(n);
    HexValueOfDigit(n / 16);
    HexValueOfDigit(n % 16);
    var s: PyStr := Hex2(n);
    assert !PySpace(s[0]) && !PySpace(s[1]);
    assert Strip(s) == s;
  }

  /** The hex of byte values splits back into the two-digit renderings and decodes to the values. */
  lemma {:induction false} DecodeHexOfLatin1(units: PyStr)
    requires Latin1(units)
    ensures Decoded(HexPairs(HexOf(units))) == Success(units)
    decreases |units|
  {
    if units == [] {
      HexOfLatin1(units);
    } else {
      var tail := units[1..];
      HexPairsOfCons(units);
      PairOfByte(units[0]);
      DecodeHexOfLatin1(tail);
      var pairs := HexPairs(HexOf(tail));
      DecodedCons(Hex2(units[0]), pairs, units[0], tail);
      assert units == [units[0]] + tail;
    }
  }

  /** A pair that decodes, in front of pairs that decode, adds its value in front. */
  lemma DecodedCons(pair: PyStr, pairs: seq<PyStr>, value: CodePoint, rest: PyStr)
    requires |pair| <= 2 && forall i :: 0 <= i < |pairs| ==> |pairs[i]| <= 2
    requires PairValue(pair) == Some(value) && Decoded(pairs) == Success(rest)
    ensures Decoded([pair] + pairs) == Success([value] + rest)
  {
    assert ([pair] + pairs)[1..] == pairs;
  }

  /** The first pair of the hex of byte values is the first value's two digits. */
  lemma HexPairsOfCons(units: PyStr)
    requires Latin1(units) && units != []
    ensures HexPairs(HexOf(units)) == [Hex2(units[0])] + HexPairs(HexOf(units[1..]))
  {
    HexOfLatin1(units);
    HexOfCons(units);
    PairOfByte(units[0]);
    var h: PyStr := HexOf(units);
    var rest: PyStr := HexOf(units[1..]);
    assert h == Hex2(units[0]) + rest;
    assert h[..2] == Hex2(units[0]) && h[2..] == rest;
    HexOfLatin1(units[1..]);
    if units[1..] == [] {
      assert HexPairs(h) == [Hex2(units[0])];
    }
  }

  /**
   * For texts and keys of byte values, encryption fails only for a non-empty
   * text under an empty key, yields two hex digits per character, and
   * decrypting its result with the same key gives the text back.
   */
  lemma RoundTrip(request: CipherRequest)
    requires Latin1(request.text) && Latin1(request.key)
    ensures EncryptResponse(request).Success? <==> request.text == [] || request.key != []
    ensures EncryptResponse(request).Success? ==>
      && |EncryptResponse(request).value.result| == 2 * |request.text|
      && DecryptResponse(request.(text := EncryptResponse(request).value.result))
        == Success(CipherResponse(request.text, request.algorithm, DecryptMode))
  {
    if request.text == [] || request.key != [] {
      XorOfLatin1(request.text, request.key);
      var units := XorWithKey(request.text, request.key).value;
      HexOfLatin1(units);
      DecodeHexOfLatin1(units);
      XorWithKeyTwice(request.text, request.key);
    }
  }

  /** An empty text encrypts and decrypts to "" under any key; a non-empty one fails under the empty key. */
  lemma EmptyKeyAndText(request: CipherRequest)
    ensures request.text == [] ==>
      EncryptResponse(request) == Success(CipherResponse([], request.algorithm, EncryptMode))
      && DecryptResponse(request) == Success(CipherResponse([], request.algorithm, DecryptMode))
    ensures request.text != [] && request.key == [] ==> EncryptResponse(request) == Failure(ZeroModulo)
    ensures request.text != [] && request.key == [] && Decoded(HexPairs(request.text)).Success? ==> DecryptResponse(request) == Failure(ZeroModulo)
  {
    assert HexOf([]) == [];
    if request.text != [] {
      HexPairsShape(request.text);
      if Decoded(HexPairs(request.text)).Success? {
        DecodedOutcome(HexPairs(request.text));
      }
    }
  }

  /** An odd length is not rejected: "616" splits into "61" and "6", read as 0x61 and 0x6. */
  lemma OddLengthDecrypt()
    ensures DecryptResponse(CipherRequest([0x36, 0x31, 0x36], [0], [], [])) == Success(CipherResponse([0x61, 0x6], [], DecryptMode))
  {
    var t: PyStr := [0x36, 0x31, 0x36];
    assert t[..2] == [0x36, 0x31] && t[2..] == [0x36];
    assert HexPairs(t) == [[0x36, 0x31], [0x36]];
    assert Strip([0x36, 0x31]) == [0x36, 0x31];
    assert Strip([0x36]) == [0x36];
    DecodedOutcome(HexPairs(t));
    assert Decoded(HexPairs(t)).value == [0x61, 0x6];
    XorZero(0x61);
    XorZero(0x6);
    XorWithKeyYields([0x61, 0x6], [0], [0x61, 0x6]);
  }

  /**
   * `int` skips white space and accepts a sign: " a" is 10, "-1" is -1;
   * "zz" is no number, and neither is U+001C followed by "1".
   */
  lemma PairValueExamples()
    ensures PairValue([0x36, 0x31]) == Some(0x61) && PairValue([0x36]) == Some(6)
    ensures PairValue([0x20, 0x61]) == Some(10)
    ensures PairValue([0x2D, 0x31]) == Some(-1)
    ensures PairValue([0x7A, 0x7A]) == None
    ensures PairValue([0x1C, 0x31]) == None
  {
    assert Strip([0x36, 0x31]) == [0x36, 0x31];
    assert Strip([0x36]) == [0x36];
    assert [0x20, 0x61][1..] == [0x61];
    assert Strip([0x20, 0x61]) == Strip([0x61]) == [0x61];
    assert Strip([0x2D, 0x31]) == [0x2D, 0x31];
    assert Strip([0x7A, 0x7A]) == [0x7A, 0x7A];
    assert Strip([0x1C, 0x31]) == [0x1C, 0x31];
  }

  /** A negative pair fails `chr`; a pair of non-digits, or U+001C before a digit, fails `int`. */
  lemma BadPairsDecrypt()
    ensures DecryptResponse(CipherRequest([0x2D, 0x31], [0], [], [])) == Failure(NotCodePoint)
    ensures DecryptResponse(CipherRequest([0x7A, 0x7A], [0], [], [])) == Failure(NotHexNumber)
    ensures DecryptResponse(CipherRequest([0x1C, 0x31], [0x6B], [], [])) == Failure(NotHexNumber)
  {
    PairValueExamples();
    var m: PyStr := [0x2D, 0x31];
    assert m[..2] == m && m[2..] == [];
    assert HexPairs(m) == [m];
    var z: PyStr := [0x7A, 0x7A];
    assert z[..2] == z && z[2..] == [];
    assert HexPairs(z) == [z];
    var u: PyStr := [0x1C, 0x31];
    assert u[..2] == u && u[2..] == [];
    assert HexPairs(u) == [u];
  }

  /** U+0100 under the key U+0001 encrypts to "101": three hex digits. */
  lemma WideEncrypt()
    ensures EncryptResponse(CipherRequest([0x100], [1], [], [])) == Success(CipherResponse([0x31, 0x30, 0x31], [], EncryptMode))
  {
    XorLowBit(0x80);
    XorWithKeyYields([0x100], [1], [0x101]);
    HexOfOne(0x101);
    Hex2Of0x101();
  }

  /** Setting the low bit of an even number adds one. */
  lemma XorLowBit(h: nat)
    ensures Xor(2 * h, 1) == 2 * h + 1
  {
    XorZero(h);
    assert Xor(2 * h, 1) == 2 * Xor(h, 0) + 1;
  }

  lemma HexOfOne(n: CodePoint)
    ensures HexOf([n]) == Hex2(n)
  {
    HexOfCons([n]);
    assert [n][1..] == [];
    assert HexOf([]) == Concat([]);
  }

  lemma Hex2Of0x101()
    ensures Hex2(0x101) == [0x31, 0x30, 0x31]
  {
    assert ToHex(1) == [0x31];
    assert ToHex(0x10) == ToHex(1) + [HexDigit(0)];
    assert ToHex(0x101) == ToHex(0x10) + [HexDigit(1)];
  }

  /** "101" under the key U+0001 decrypts to U+0011 U+0000, so the round trip breaks beyond byte values. */
  lemma WideDecrypt()
    ensures DecryptResponse(CipherRequest([0x31, 0x30, 0x31], [1], [], [])) == Success(CipherResponse([0x11, 0], [], DecryptMode))
  {
    var t: PyStr := [0x31, 0x30, 0x31];
    assert t[..2] == [0x31, 0x30] && t[2..] == [0x31];
    assert HexPairs(t) == [[0x31, 0x30], [0x31]];
    assert Strip([0x31, 0x30]) == [0x31, 0x30];
    assert Strip([0x31]) == [0x31];
    DecodedOutcome(HexPairs(t));
    assert Decoded(HexPairs(t)).value == [0x10, 1];
    XorLowBit(8);
    XorSelf(1);
    XorWithKeyYields([0x10, 1], [1], [0x11, 0]);
  }

  // ---------------------------------------------------------------------------
  // generate_key

  /** A `KeyGenerationRequest`; the length is any Python int. */
  datatype KeyRequest = KeyRequest(length: int, keyType: PyStr, entropy: int, includeSymbols: bool, quantumSafe: bool)

  datatype KeyResponse = KeyResponse(key: PyStr, strength: int, length: nat, keyType: PyStr)

  /**
   * `generate_key(request)`, with the index of each character `secrets.choice`
   * picks given: `range` of a negative length is empty, and the strength is
   * `min(100, length * 2 + (20 if include_symbols else 0))`.
   */
  function GenerateKey(request: KeyRequest, picks: seq<nat>): KeyResponse
    requires |picks| == Max(0, request.length)
    requires forall i :: 0 <= i < |picks| ==> picks[i] < |ComponentHelpers.Charset(request.includeSymbols)|
  {
    var key := ComponentHelpers.CharsetKey(ComponentHelpers.Charset(request.includeSymbols), picks);
    KeyResponse(key, Min(100, request.length * 2 + (if request.includeSymbols then 20 else 0)), |key|, request.keyType)
  }

  /**
   * The key has max(0, length) characters, the picked ones of the 88- or
   * 62-character charset, and the strength is at most 100 and below 100
   * exactly when 2 · length plus the symbol bonus is.
   */
  lemma GenerateKeyFacts(request: KeyRequest, picks: seq<nat>)
    requires |picks| == Max(0, request.length)
    requires forall i :: 0 <= i < |picks| ==> picks[i] < |ComponentHelpers.Charset(request.includeSymbols)|
    ensures var r := GenerateKey(request, picks);
      && |r.key| == r.length == Max(0, request.length)
      && (forall i :: 0 <= i < |r.key| ==> r.key[i] == ComponentHelpers.Charset(request.includeSymbols)[picks[i]])
      && (forall i :: 0 <= i < |r.key| ==> r.key[i] in ComponentHelpers.Charset(request.includeSymbols))
      && r.strength <= 100
      && (r.strength < 100 <==> request.length * 2 + (if request.includeSymbols then 20 else 0) < 100)
      && r.keyType == request.keyType
  {
    var charset := ComponentHelpers.Charset(request.includeSymbols);
    ComponentHelpers.CharsetKeyChars(charset, picks);
    var key := ComponentHelpers.CharsetKey(charset, picks);
    forall i | 0 <= i < |picks|
      ensures key[i] == charset[picks[i]]
    {
      SmallMod(picks[i], |charset|);
    }
  }

  lemma SmallMod(a: nat, n: nat)
    requires a < n
    ensures a % n == a
  {
  }

  // ---------------------------------------------------------------------------
  // analyze_text

  /** An `AnalysisRequest`: key and algorithm may be `None`. */
  datatype AnalysisRequest = AnalysisRequest(text: PyStr, key: Option<PyStr>, algorithm: Option<PyStr>)

  /** The `strength` dictionary. */
  datatype Strength = Strength(overall: real, entropy: real, keyStrength: nat, algorithmStrength: nat)

  datatype Vulnerability = WeakKeyDetected | LowEntropyInText

  datatype Advice = UseLongerKey | EnsureRandomness

  datatype AnalysisResponse = AnalysisResponse(entropy: real, strength: Strength, vulnerabilities: seq<Vulnerability>, recommendations: seq<Advice>)

  /** `len(request.key or "") * 2 if request.key else 0`: uncapped. */
  function KeyScore(key: Option<PyStr>): (s: nat)
    ensures s == if key == None then 0 else 2 * |key.value|
  {
    if key == None || key == Some([]) then 0 else 2 * |key.value|
  }

  /** The `algorithm_strengths` table. */
  const AlgorithmStrengths: map<PyStr, nat> := map[Lit("rc4") := 60, Lit("chacha20") := 90, Lit("aes") := 85]

  /** `algorithm_strengths.get(request.algorithm or "rc4", 50)`: a missing or empty name reads as "rc4". */
  function AlgorithmScore(algorithm: Option<PyStr>): nat
  {
    var name := if algorithm == None || algorithm == Some([]) then Lit("rc4") else algorithm.value;
    if name in AlgorithmStrengths then AlgorithmStrengths[name] else 50
  }

  /**
   * Python's `round(x)` on an exact value: the nearest integer, a tie going
   * to the even neighbour.
   */
  function RoundHalfEven(x: real): (r: int)
    ensures x - 0.5 <= r as real <= x + 0.5
    ensures r as real == x - 0.5 || r as real == x + 0.5 ==> r % 2 == 0
  {
    var f := x.Floor;
    var d := x - f as real;
    if d < 0.5 then f
    else if d > 0.5 then f + 1
    else if f % 2 == 0 then f
    else f + 1
  }

  /** `round(x, 2)`: x to two decimals, a tie going to the even last digit. */
  function PyRound2(x: real): (r: real)
    ensures x - 0.005 <= r <= x + 0.005
    ensures (r * 100.0).Floor as real == r * 100.0
  {
    var k := RoundHalfEven(x * 100.0);
    assert k as real / 100.0 * 100.0 == k as real;
    k as real / 100.0
  }

  /** Two decimals are kept, and a tie in the third goes to the even second. */
  lemma PyRound2Examples()
    ensures PyRound2(0.0) == 0.0
    ensures PyRound2(1.0 / 3.0) == 0.33
    ensures PyRound2(2.0 / 3.0) == 0.67
    ensures PyRound2(0.125) == 0.12
    ensures PyRound2(0.135) == 0.14
    ensures PyRound2(2.999) == 3.0
  {
    assert (100.0 / 3.0).Floor == 33;
    assert (200.0 / 3.0).Floor == 66;
    assert (12.5).Floor == 12;
    assert (13.5).Floor == 13;
    assert (299.9).Floor == 299;
  }

  /**
   * The scores and lists built from the entropy, key strength and algorithm
   * strength. The response's own `entropy` is `round(entropy, 2)`; the
   * `strength` dictionary and the "below 3" test keep the unrounded value.
   */
  function Report(entropy: real, keyStrength: nat, algorithmStrength: nat): AnalysisResponse
  {
    var overall := MinReal(100.0, (entropy * 10.0 + keyStrength as real + algorithmStrength as real) / 3.0);
    AnalysisResponse(
      PyRound2(entropy),
      Strength(overall, entropy, keyStrength, algorithmStrength),
      (if keyStrength < 50 then [WeakKeyDetected] else []) + (if entropy < 3.0 then [LowEntropyInText] else []),
      (if keyStrength < 50 then [UseLongerKey] else []) + (if entropy < 3.0 then [EnsureRandomness] else []))
  }

  /**
   * `analyze_text(request)` as written: an empty text has entropy 0; for any
   * other text the loop over the counts calls `bit_length` on a float, which
   * raises.
   */
  function Analyze(request: AnalysisRequest): Result<AnalysisResponse, Fault>
  {
    if request.text != [] then Failure(NoBitLength)
    else Success(Report(0.0, KeyScore(request.key), AlgorithmScore(request.algorithm)))
  }

  /** The counting loop over the text, then the loop over the counts, whose first step raises. */
  method AnalyzeText(request: AnalysisRequest) returns (r: Result<AnalysisResponse, Fault>)
    ensures r == Analyze(request)
  {
    var text := request.text;
    var entropy := 0.0;
    if text != [] {
      var charCounts: map<CodePoint, nat> := map[];
      for i := 0 to |text|
        invariant forall c :: c in charCounts <==> c in text[..i]
        invariant forall c :: c in charCounts ==> charCounts[c] == multiset(text[..i])[c]
      {
        var c := text[i];
        assert text[..i + 1] == text[..i] + [c];
        charCounts := charCounts[c := (if c in charCounts then charCounts[c] else 0) + 1];
      }
      assert text[..|text|] == text;
      // `for count in char_counts.values()`: the first count is positive, so
      // `probability > 0` holds and `probability.bit_length()` raises.
      assert charCounts[text[0]] > 0;
      return Failure(NoBitLength);
    }
    var keyStrength := if request.key != None && request.key != Some([]) then |request.key.value| * 2 else 0;
    var algoStrength := AlgorithmScore(request.algorithm);
    r := Success(Report(entropy, keyStrength, algoStrength));
  }

  /**
   * Every non-empty text fails. An empty text has entropy 0, the key strength
   * is 2 · the key length without a cap, a missing algorithm counts as "rc4"
   * (60), the overall score is min(100, (key + algorithm) / 3), and "Low
   * entropy in text" is always reported.
   */
  lemma AnalyzeOutcome(request: AnalysisRequest)
    ensures Analyze(request).Failure? <==> request.text != []
    ensures request.text == [] ==>
      var r := Analyze(request).value;
      && r.entropy == 0.0
      && r.strength.keyStrength == (if request.key == None then 0 else 2 * |request.key.value|)
      && (request.algorithm == None ==> r.strength.algorithmStrength == 60)
      && r.strength.overall == MinReal(100.0, (r.strength.keyStrength + r.strength.algorithmStrength) as real / 3.0)
      && LowEntropyInText in r.vulnerabilities && EnsureRandomness in r.recommendations
      && (WeakKeyDetected in r.vulnerabilities <==> r.strength.keyStrength < 50)
  {
    assert Lit("rc4")[0] != Lit("chacha20")[0] && Lit("rc4")[0] != Lit("aes")[0];
    assert AlgorithmStrengths[Lit("rc4")] == 60;
  }

  /** The case-sensitive table: "aes" and "chacha20" score 85 and 90, "AES" the default 50. */
  lemma AlgorithmScoreFacts()
    ensures AlgorithmScore(Some(Lit("chacha20"))) == 90
    ensures AlgorithmScore(Some(Lit("aes"))) == 85
    ensures AlgorithmScore(Some([])) == 60
    ensures AlgorithmScore(Some(Lit("AES"))) == 50
  {
    assert Lit("aes")[0] != Lit("rc4")[0] && Lit("aes")[0] != Lit("chacha20")[0];
    assert Lit("chacha20")[0] != Lit("rc4")[0];
    assert Lit("AES")[0] != Lit("aes")[0] && Lit("AES")[0] != Lit("rc4")[0] && Lit("AES")[0] != Lit("chacha20")[0];
  }

  /**
   * The evidently intended handler: the entropy of a non-empty text is the
   * Shannon entropy (`-p * log2(p)` summed), given here as `textEntropy`.
   */
  function AnalyzeIntended(request: AnalysisRequest, textEntropy: real): Result<AnalysisResponse, Fault>
  {
    Success(Report(if request.text == [] then 0.0 else textEntropy, KeyScore(request.key), AlgorithmScore(request.algorithm)))
  }

  /**
   * The intended handler answers every request; it agrees with the handler as
   * written wherever that one answers; the `strength` dictionary carries the
   * entropy itself and the response's `entropy` that value to two decimals;
   * a weak key (strength below 50) and a low entropy (the unrounded value
   * below 3) are reported exactly when they hold, each with its
   * recommendation; and the overall score is at most 100, and not negative
   * for a non-negative entropy.
   */
  lemma AnalyzeIntendedFacts(request: AnalysisRequest, textEntropy: real)
    ensures AnalyzeIntended(request, textEntropy).Success?
    ensures Analyze(request).Success? ==> Analyze(request) == AnalyzeIntended(request, textEntropy)
    ensures var r := AnalyzeIntended(request, textEntropy).value;
      && r.strength.entropy == (if request.text == [] then 0.0 else textEntropy)
      && r.entropy == PyRound2(r.strength.entropy)
      && r.strength.entropy - 0.005 <= r.entropy <= r.strength.entropy + 0.005
      && (WeakKeyDetected in r.vulnerabilities <==> r.strength.keyStrength < 50)
      && (UseLongerKey in r.recommendations <==> r.strength.keyStrength < 50)
      && (LowEntropyInText in r.vulnerabilities <==> r.strength.entropy < 3.0)
      && (EnsureRandomness in r.recommendations <==> r.strength.entropy < 3.0)
      && r.strength.overall <= 100.0
      && (r.strength.entropy >= 0.0 ==> r.strength.overall >= 0.0)
  {
  }

  /**
   * An entropy of 2.999 is sent as 3.0 yet still reported as low, because the
   * test reads the unrounded value.
   */
  lemma RoundedEntropyStillLow(request: AnalysisRequest)
    requires request.text != []
    ensures var r := AnalyzeIntended(request, 2.999).value;
      r.entropy == 3.0 && LowEntropyInText in r.vulnerabilities
  {
    PyRound2Examples();
  }
}
