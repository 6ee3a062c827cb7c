/**
 * The key generator panel (`KeyGeneratorPanel.tsx`): it asks the server for a
 * key and, when that call fails, draws one locally from random bytes and
 * scores it with the class-based strength. The server's answer and the
 * random bytes are inputs.
 */
module KeyGeneratorPanel {
  import opened Wrappers
  import opened JsText
  import opened Utf8
  import opened ComponentHelpers
  import opened KeyGeneration

  /**
   * `generateLocalKey(opts)`: a byte array of `opts.length` entries filled by
   * `crypto.getRandomValues` (the bytes `random`), each mapped to a character
   * of the charset; `None` is the RangeError of a negative length, and NaN
   * gives an empty array.
   */
  method GenerateLocalKey(opts: KeyOptions, random: seq<Byte>) returns (key: Option<Str>)
    requires |random| == Count(opts.length)
    ensures key.None? <==> !Allocates(opts.length)
    ensures key.Some? ==> key.value == CharsetKey(Charset(opts.includeSymbols), random)
  {
    if !Allocates(opts.length) {
      return None;
    }
    var charset := Charset(opts.includeSymbols);
    var n := Count(opts.length);
    var bytes := new Byte[n](i requires 0 <= i < n => random[i]);
    key := Some(CharsetKey(charset, bytes[..]));
  }

  /**
   * A local key has `opts.length` characters; character i is the charset's
   * character at byte i modulo its size, so it is one of the 88 characters
   * with symbols or of the 62 letters and digits without.
   */
  lemma LocalKeyShape(opts: KeyOptions, random: seq<Byte>)
    ensures var key := CharsetKey(Charset(opts.includeSymbols), random);
      && |key| == |random|
      && (forall i :: 0 <= i < |random| ==> key[i] == Charset(opts.includeSymbols)[random[i] % |Charset(opts.includeSymbols)|])
      && (forall i :: 0 <= i < |random| ==> key[i] in Charset(opts.includeSymbols))
      && (!opts.includeSymbols ==> !HasSymbol(key))
  {
    CharsetKeyChars(Charset(opts.includeSymbols), random);
    if !opts.includeSymbols {
      AlphanumericKey(random);
    }
  }

  /** What `apiClient.generateKey` resolves to: the key and a strength that may be absent. */
  datatype ApiKey = ApiKey(key: Str, strength: Option<int>)

  /** `response.strength || 85`: an absent or zero strength reads as 85. */
  function RemoteStrength(strength: Option<int>): (s: int)
    ensures s == 85 <==> strength == None || strength == Some(0) || strength == Some(85)
    ensures strength.Some? && strength.value != 0 ==> s == strength.value
  {
    if strength == None || strength == Some(0) then 85 else strength.value
  }

  /**
   * `generateKey()`: the server's key when the call succeeds (`api` is its
   * answer), otherwise a local key from the random bytes and its
   * `analyzeKeyStrength`. `None` is the RangeError of a negative length on
   * the local path, which the outer `catch` turns into the "Failed to
   * generate key" notice with key and strength unchanged.
   */
  function GenerateKey(opts: KeyOptions, api: Option<ApiKey>, random: seq<Byte>): Option<GeneratedKey>
    requires |random| == Count(opts.length)
  {
    match api
    case Some(response) => Some(GeneratedKey(response.key, RemoteStrength(response.strength)))
    case None =>
      if !Allocates(opts.length) then None
      else
        var key := CharsetKey(Charset(opts.includeSymbols), random);
        Some(GeneratedKey(key, KeyStrength(key)))
  }

  /**
   * A server key is shown as given, with a strength that is never 0. Without
   * one, a negative length fails; any other length gives a local key of that
   * many characters, NaN counting as 0, and a strength in [0, 100] that is 0
   * only for an empty key.
   */
  lemma GenerateKeyOutcome(opts: KeyOptions, api: Option<ApiKey>, random: seq<Byte>)
    requires |random| == Count(opts.length)
    ensures api.Some? ==>
      GenerateKey(opts, api, random).Some? && GenerateKey(opts, api, random).value.key == api.value.key
      && GenerateKey(opts, api, random).value.strength != 0
    ensures api.None? ==> (GenerateKey(opts, api, random).None? <==> opts.length.Typed? && opts.length.n < 0)
    ensures api.None? && GenerateKey(opts, api, random).Some? ==>
      var g := GenerateKey(opts, api, random).value;
      && g.key == CharsetKey(Charset(opts.includeSymbols), random)
      && |g.key| == Count(opts.length)
      && 0 <= g.strength <= 100
      && (g.strength == 0 <==> Count(opts.length) == 0)
    ensures api.None? && opts.length == NotANumber ==> GenerateKey(opts, api, random) == Some(GeneratedKey([], 0))
  {
  }

  /** A server answer without a strength shows as 85: "Very Strong" in green. */
  lemma MissingStrengthDisplay(opts: KeyOptions, key: Str, random: seq<Byte>)
    requires |random| == Count(opts.length)
    ensures var g := GenerateKey(opts, Some(ApiKey(key, None)), random).value;
      g.strength == 85 && StrengthLabel(g.strength as real) == VeryStrong && StrengthColor(g.strength as real) == Green
  {
  }
}
