/**
 * `createCipher`, which picks one of the two stream ciphers by name, and the
 * `CIPHER_ALGORITHMS` table that describes them. A created cipher is given by
 * the state its constructor builds: the scheduled table of `RC4Cipher`, or the
 * key and nonce words of `ChaCha20Cipher` (whose class methods are proved
 * against the same specification functions).
 */
module CipherAlgorithms {
  import opened Wrappers
  import opened JsText
  import opened Utf8
  import Rc4
  import ChaCha20

  /** The two names `createCipher` accepts once lower-cased. */
  datatype Algorithm = Rc4Alg | ChaCha20Alg

  /** A cipher instance, by the fields its constructor sets. */
  datatype Cipher =
    | Rc4Cipher(table: seq<int>)
    | ChaCha20Cipher(key: seq<ChaCha20.Word>, nonce: seq<ChaCha20.Word>)

  /** Why `createCipher` throws. */
  datatype CreateError =
    | Unsupported(message: Str)
    /** `encodeURIComponent` (inside `CryptoJS.enc.Utf8.parse`) throws a URIError on a lone surrogate. */
    | MalformedKey

  /** `switch (algorithm.toLowerCase())` with its `default` case. */
  function SelectAlgorithm(name: Str): (r: Option<Algorithm>)
    ensures r == Some(Rc4Alg) <==> AsciiLower(name) == Lit("rc4")
    ensures r == Some(ChaCha20Alg) <==> AsciiLower(name) == Lit("chacha20")
  {
    var lowered := AsciiLower(name);
    if lowered == Lit("rc4") then Some(Rc4Alg)
    else if lowered == Lit("chacha20") then Some(ChaCha20Alg)
    else None
  }

  /** The words of `CryptoJS.enc.Utf8.parse(key)`, or `None` when the parse throws. */
  function Rc4KeyWords(key: Str): (r: Option<seq<int>>)
    ensures r.Some? <==> StrictEncode(key).Some?
    ensures r.Some? ==> |r.value| == (|StrictEncode(key).value| + 3) / 4
  {
    match StrictEncode(key)
    case None => None
    case Some(bytes) => Some(BigEndianWords(bytes))
  }

  /**
   * The RC4 keys the model covers: those whose CryptoJS words are all
   * non-negative. A negative word makes the JavaScript `%` of the key schedule
   * negative and the swap then writes outside the table.
   */
  predicate Rc4KeyModelled(key: Str)
  {
    match Rc4KeyWords(key)
    case None => true
    case Some(words) => Rc4.NonNegative(words)
  }

  /** `createCipher(algorithm, key)`: the instance it returns, or the error it throws. */
  function CreateCipher(algorithm: Str, key: Str): (r: Result<Cipher, CreateError>)
    requires SelectAlgorithm(algorithm) == Some(Rc4Alg) ==> Rc4KeyModelled(key)
  {
    match SelectAlgorithm(algorithm)
    case None => Failure(Unsupported(Lit("Unsupported algorithm: ") + algorithm))
    case Some(Rc4Alg) =>
      (match Rc4KeyWords(key)
       case None => Failure(MalformedKey)
       case Some(words) => Success(Rc4Cipher(Rc4.Ksa(words))))
    case Some(ChaCha20Alg) => Success(ChaCha20Cipher(ChaCha20.KeyWords(key), ChaCha20.NonceWords(None)))
  }

  /** The fields of every instance `createCipher` returns have the shapes the ciphers need. */
  predicate WellFormed(c: Cipher)
  {
    match c
    case Rc4Cipher(table) => Rc4.IsPermutation(table)
    case ChaCha20Cipher(key, nonce) => |key| == 8 && |nonce| == 3
  }

  /**
   * What `createCipher` does: an unknown name throws "Unsupported algorithm: "
   * followed by the name as given, "rc4" in any case builds the RC4 table from
   * the CryptoJS words of the key (throwing on a lone surrogate), and "chacha20"
   * in any case builds a ChaCha20 instance with the parsed key and the all-zero
   * nonce. Every instance is well formed.
   */
  lemma CreateCipherCases(algorithm: Str, key: Str)
    requires SelectAlgorithm(algorithm) == Some(Rc4Alg) ==> Rc4KeyModelled(key)
    ensures var r := CreateCipher(algorithm, key);
      && (r.Success? ==> WellFormed(r.value))
      && (SelectAlgorithm(algorithm) == None <==> r == Failure(Unsupported(Lit("Unsupported algorithm: ") + algorithm)))
      && (r == Failure(MalformedKey) <==> SelectAlgorithm(algorithm) == Some(Rc4Alg) && StrictEncode(key) == None)
      && (r.Success? && r.value.Rc4Cipher? <==> SelectAlgorithm(algorithm) == Some(Rc4Alg) && StrictEncode(key).Some?)
      && (r.Success? && r.value.ChaCha20Cipher? <==> SelectAlgorithm(algorithm) == Some(ChaCha20Alg))
      && (r.Success? && r.value.ChaCha20Cipher? ==> r.value.nonce == [0, 0, 0] && r.value.key == ChaCha20.KeyWords(key))
  {
    var r := CreateCipher(algorithm, key);
    if r.Success? && r.value.Rc4Cipher? {
      Rc4.KsaPermutes(Rc4KeyWords(key).value);
    }
  }

  /** The name is matched whatever its case: "RC4" and "ChaCha20" work as well. */
  lemma CaseInsensitive()
    ensures SelectAlgorithm(Lit("RC4")) == Some(Rc4Alg)
    ensures SelectAlgorithm(Lit("ChaCha20")) == Some(ChaCha20Alg)
    ensures SelectAlgorithm(Lit("aes")) == None
  {
    assert AsciiLower(Lit("RC4")) == Lit("rc4");
    assert AsciiLower(Lit("ChaCha20")) == Lit("chacha20");
    assert AsciiLower(Lit("aes"))[0] != Lit("rc4")[0];
  }

  /** `encrypt` and `decrypt` of an instance: both run `process`. */
  function Apply(c: Cipher, text: Str, decode: seq<bv8> -> Str): (r: Str)
    requires WellFormed(c)
  {
    match c
    case Rc4Cipher(table) => Rc4.ProcessSpec(table, text)
    case ChaCha20Cipher(key, nonce) => ChaCha20.ProcessSpec(key, nonce, text, decode)
  }

  /** RC4 output has the length of its input, and decrypting what was encrypted gives the text back. */
  lemma Rc4Apply(c: Cipher, text: Str, decode: seq<bv8> -> Str)
    requires WellFormed(c) && c.Rc4Cipher?
    ensures |Apply(c, text, decode)| == |text|
    ensures Apply(c, Apply(c, text, decode), decode) == text
  {
    Rc4.ProcessTwice(c.table, text);
  }

  /** RC4 keeps code units below 256 below 256. */
  lemma Rc4ApplyBytes(c: Cipher, text: Str, decode: seq<bv8> -> Str)
    requires WellFormed(c) && c.Rc4Cipher?
    requires forall k :: 0 <= k < |text| ==> text[k] < 256
    ensures forall k :: 0 <= k < |text| ==> Apply(c, text, decode)[k] < 256
  {
    Rc4.ProcessKeepsBytes(c.table, text);
  }

  /** How strong the table says a cipher is. */
  datatype Strength = Low | Medium | High | QuantumResistant

  /** A `CipherAlgorithm` record. */
  datatype AlgorithmInfo = AlgorithmInfo(name: Str, id: Str, keySize: nat, description: Str, strength: Strength)

  /** `CIPHER_ALGORITHMS`, keyed by id in declaration order. */
  function CipherAlgorithmsTable(): (t: seq<(Str, AlgorithmInfo)>)
    ensures |t| == 2
  {
    [(Lit("rc4"), AlgorithmInfo(Lit("RC4"), Lit("rc4"), 256, Lit("Variable key-size stream cipher"), Medium)),
     (Lit("chacha20"), AlgorithmInfo(Lit("ChaCha20"), Lit("chacha20"), 256, Lit("Modern stream cipher by Daniel J. Bernstein"), High))]
  }

  /**
   * Every entry is filed under its own id, has a 256-bit key, and its id is a
   * name `createCipher` accepts, for the cipher the entry describes.
   */
  lemma TableMatchesFactory()
    ensures forall k :: 0 <= k < |CipherAlgorithmsTable()| ==>
      var (id, info) := CipherAlgorithmsTable()[k];
      id == info.id && info.keySize == 256 && SelectAlgorithm(id).Some?
    ensures SelectAlgorithm(CipherAlgorithmsTable()[0].0) == Some(Rc4Alg)
    ensures SelectAlgorithm(CipherAlgorithmsTable()[1].0) == Some(ChaCha20Alg)
    ensures CipherAlgorithmsTable()[0].1.strength == Medium && CipherAlgorithmsTable()[1].1.strength == High
  {
    assert AsciiLower(Lit("rc4")) == Lit("rc4");
    assert AsciiLower(Lit("chacha20")) == Lit("chacha20");
  }
}
