/**
 * The key generator (`KeyGenerator.tsx`): it dispatches on the kind of key
 * asked for, scores the new key with `analyzeKeyStrength` of the key
 * utilities, and shows a label and a badge for the score. The random bytes
 * and the floating-point parts of the generators are inputs, and so is the
 * Shannon entropy `analyzeKeyStrength` computes of the key.
 */
module KeyGenerator {
  import opened Wrappers
  import opened JsText
  import opened JsMath
  import opened Utf8
  import opened ComponentHelpers
  import opened KeyGeneration

  /** What each generator draws on: the bytes for a charset key, for a quantum-safe key and the neural seed, and the lattice and neuron arithmetic. */
  datatype Sources = Sources(random: seq<Byte>, quantumBytes: seq<Byte>, seed: seq<Byte>, row: LatticeRow, neuron: Neuron)

  /** The random sources deliver as many bytes as each generator asks for. */
  predicate Fits(opts: KeyOptions, src: Sources)
  {
    |src.random| == Count(opts.length) && |src.quantumBytes| == 2 * Count(opts.length) && |src.seed| == 32
  }

  /**
   * The `switch (options.type)`: a quantum-safe key, a neural key, or, for
   * 'random' and every other type, `generateCryptoRandomKey(options)`.
   * `None` is the RangeError `new Uint8Array` throws for a negative length;
   * the neural key allocates no array of that length, and its `substring`
   * reads a negative or NaN end as 0.
   */
  function NewKey(opts: KeyOptions, src: Sources): Option<Str>
    requires Fits(opts, src)
  {
    match opts.keyType
    case Quantum =>
      if Allocates(opts.length) then Some(QuantumSafeKey(Count(opts.length), opts.entropy, src.quantumBytes, src.row)) else None
    case Neural => Some(NeuralKey(Count(opts.length), src.seed, src.neuron))
    case _ => if Allocates(opts.length) then Some(CharsetKey(Charset(opts.includeSymbols), src.random)) else None
  }

  /**
   * `generateKey()`: the new key and `analyzeKeyStrength(newKey)`, given the
   * key's entropy; `None` when the generator threw, which the `catch` turns
   * into the "Failed to generate key" notice with key and strength unchanged.
   */
  function GenerateKey(opts: KeyOptions, src: Sources, entropyOf: Str -> real): Option<GeneratedKey>
    requires Fits(opts, src)
  {
    match NewKey(opts, src)
    case None => None
    case Some(key) => Some(GeneratedKey(key, AnalyzeKeyStrength(key, entropyOf(key))))
  }

  /**
   * A negative length fails for every kind but the neural one. Otherwise a
   * quantum-safe key has 2 · length hex digits, a neural key
   * min(2 · length, 64), and any other kind `length` characters of the
   * charset, where NaN and a negative length count as 0.
   */
  lemma NewKeyShape(opts: KeyOptions, src: Sources)
    requires Fits(opts, src)
    ensures NewKey(opts, src).None? <==> opts.length.Typed? && opts.length.n < 0 && opts.keyType != Neural
    ensures NewKey(opts, src).Some? ==>
      var key := NewKey(opts, src).value;
      && (opts.keyType == Quantum ==> |key| == 2 * Count(opts.length))
      && (opts.keyType == Neural ==> |key| == Min(2 * Count(opts.length), 64))
      && (opts.keyType == RandomKey || opts.keyType == Passphrase ==>
        key == CharsetKey(Charset(opts.includeSymbols), src.random) && |key| == Count(opts.length)
        && forall i :: 0 <= i < |key| ==> key[i] in Charset(opts.includeSymbols))
  {
    var n := Count(opts.length);
    match opts.keyType
    case Quantum => QuantumSafeKeyShape(n, opts.entropy, src.quantumBytes, src.row);
    case Neural => NeuralKeyShape(n, src.seed, src.neuron);
    case _ => CharsetKeyChars(Charset(opts.includeSymbols), src.random);
  }

  /**
   * The key is the one `NewKey` yields, failing exactly as it does, with the
   * shapes of `NewKeyShape`; NaN and a negative length give, where they do
   * not fail, the empty key, which scores 25; the strength is always
   * `analyzeKeyStrength` of the new key, in [0, 100] when its entropy is not
   * negative.
   */
  lemma GenerateKeyDispatch(opts: KeyOptions, src: Sources, entropyOf: Str -> real)
    requires Fits(opts, src)
    ensures GenerateKey(opts, src, entropyOf).None? <==> opts.length.Typed? && opts.length.n < 0 && opts.keyType != Neural
    ensures GenerateKey(opts, src, entropyOf).Some? ==>
      var g := GenerateKey(opts, src, entropyOf).value;
      && g.key == NewKey(opts, src).value
      && g.strength == AnalyzeKeyStrength(g.key, entropyOf(g.key))
      && (entropyOf(g.key) >= 0.0 ==> 0 <= g.strength <= 100)
      && (Count(opts.length) == 0 ==> g.key == [] && (entropyOf([]) == 0.0 ==> g.strength == 25))
    ensures opts.length == NotANumber ==> GenerateKey(opts, src, entropyOf).Some?
  {
    NewKeyShape(opts, src);
    if NewKey(opts, src).Some? {
      var key := NewKey(opts, src).value;
      if entropyOf(key) >= 0.0 {
        AnalyzeKeyStrengthBounds(key, entropyOf(key));
      }
      if Count(opts.length) == 0 {
        assert |key| == 0;
        AnalyzeEmptyKey();
      }
    }
  }

  /** The badge variant: success from 90, default from 70, warning from 50, destructive below. */
  function StrengthBadgeOf(strength: int): (b: Badge)
    ensures b == Badge.Success <==> strength >= 90
    ensures b == Default <==> 70 <= strength < 90
    ensures b == Warning <==> 50 <= strength < 70
    ensures b == Destructive <==> strength < 50
  {
    if strength >= 90 then Badge.Success else if strength >= 70 then Default else if strength >= 50 then Warning else Destructive
  }

  /** The badge follows the label: success with "Quantum-Resistant", default with "Very Strong", warning with "Strong", destructive below. */
  lemma BadgeMatchesLabel(strength: int)
    ensures var l := StrengthLabel(strength as real);
      && (StrengthBadgeOf(strength) == Badge.Success <==> l == QuantumResistant)
      && (StrengthBadgeOf(strength) == Default <==> l == VeryStrong)
      && (StrengthBadgeOf(strength) == Warning <==> l == Strong)
      && (StrengthBadgeOf(strength) == Destructive <==> l == Moderate || l == Weak)
  {
  }
}
