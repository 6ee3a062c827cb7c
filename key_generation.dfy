/**
 * The key utilities: the weak-pattern penalty `detectPatterns`, the score
 * `analyzeKeyStrength`, `bytesToHex`, and the shape of the keys
 * `generateQuantumSafeKey` and `generateNeuralKey` return. Random bytes, the
 * random lattice matrix and the floating-point neuron and lattice arithmetic
 * are inputs: a neuron or a lattice row is given as a function from the bytes
 * it reads to the byte it yields.
 */
module KeyGeneration {
  import opened JsText
  import opened JsMath
  import opened Utf8
  import CipherEngine

  /** The kinds of key `KeyGenerationOptions.type` names. */
  datatype KeyType = RandomKey | Passphrase | Quantum | Neural

  /**
   * What `parseInt` leaves in a length field: an integer, which a typed
   * negative number makes negative whatever the input's `min`, or NaN once
   * the field is emptied.
   */
  datatype LengthField = Typed(n: int) | NotANumber

  /** `KeyGenerationOptions`: the length, kind and entropy asked for and the two switches. */
  datatype KeyOptions = KeyOptions(length: LengthField, keyType: KeyType, entropy: nat, includeSymbols: bool, quantumSafe: bool)

  /**
   * The count a length field gives `new Uint8Array`, `slice(0, _)` and
   * `substring(0, _)`: NaN and a negative number read as 0 (where
   * `new Uint8Array` does not throw first).
   */
  function Count(length: LengthField): nat
  {
    if length.Typed? && length.n >= 0 then length.n else 0
  }

  /** `new Uint8Array(length)`, and of twice the length, throw a RangeError exactly for a negative length; NaN gives an empty array. */
  predicate Allocates(length: LengthField)
  {
    !(length.Typed? && length.n < 0)
  }

  /** A generated key and the strength a panel shows for it. */
  datatype GeneratedKey = GeneratedKey(key: Str, strength: int)

  // ---------------------------------------------------------------------------
  // detectPatterns, part one: `key.match(/(.)\1{2,}/g)`

  /** Length of the run of units equal to s[i] that starts at i. */
  function RunAt(s: Str, i: nat): (n: nat)
    requires i < |s|
    ensures 1 <= n <= |s| - i
    decreases |s| - i
  {
    if i + 1 < |s| && s[i + 1] == s[i] then 1 + RunAt(s, i + 1) else 1
  }

  /** The run at i consists of copies of s[i] and cannot be extended. */
  lemma {:induction false} RunAtMaximal(s: Str, i: nat)
    requires i < |s|
    ensures forall k :: i <= k < i + RunAt(s, i) ==> s[k] == s[i]
    ensures i + RunAt(s, i) == |s| || s[i + RunAt(s, i)] != s[i]
    decreases |s| - i
  {
    if i + 1 < |s| && s[i + 1] == s[i] {
      RunAtMaximal(s, i + 1);
    }
  }

  /**
   * The number of matches of the global expression `/(.)\1{2,}/g` from index i
   * on: at each index the engine tries a unit other than a line terminator
   * followed by at least two copies of it, taken greedily; after a match it
   * resumes behind it, after a failure at the next index.
   */
  function RepeatMatchesFrom(s: Str, i: nat): (n: nat)
    decreases |s| - i
  {
    if i >= |s| then 0
    else if !IsLineTerminator(s[i]) && RunAt(s, i) >= 3 then 1 + RepeatMatchesFrom(s, i + RunAt(s, i))
    else RepeatMatchesFrom(s, i + 1)
  }

  /** `(key.match(/(.)\1{2,}/g) || []).length` */
  function RepeatMatches(s: Str): nat
  {
    RepeatMatchesFrom(s, 0)
  }

  /** A maximal run of three or more equal units, other than line terminators, starts at i. */
  predicate RunStart(s: Str, i: nat)
  {
    && i + 2 < |s|
    && (i == 0 || s[i - 1] != s[i])
    && s[i + 1] == s[i] && s[i + 2] == s[i]
    && !IsLineTerminator(s[i])
  }

  /** The number of such run starts in [lo, hi). */
  function RunStartsBetween(s: Str, lo: nat, hi: nat): nat
    decreases hi - lo
  {
    if lo >= hi then 0 else (if RunStart(s, lo) then 1 else 0) + RunStartsBetween(s, lo + 1, hi)
  }

  lemma {:induction false} RunStartsSkip(s: Str, lo: nat, mid: nat, hi: nat)
    requires lo <= mid <= hi
    requires forall k :: lo <= k < mid ==> !RunStart(s, k)
    ensures RunStartsBetween(s, lo, hi) == RunStartsBetween(s, mid, hi)
    decreases mid - lo
  {
    if lo < mid {
      RunStartsSkip(s, lo + 1, mid, hi);
    }
  }

  /** The engine may resume at i: no run of three or more started before i reaches past it. */
  predicate ScanBoundary(s: Str, i: nat)
  {
    i == 0 || i >= |s| || s[i - 1] != s[i] || IsLineTerminator(s[i]) || RunAt(s, i) < 3
  }

  lemma {:induction false} RepeatMatchesFromRuns(s: Str, i: nat)
    requires ScanBoundary(s, i)
    ensures RepeatMatchesFrom(s, i) == RunStartsBetween(s, i, |s|)
    decreases |s| - i
  {
    if i < |s| {
      var r := RunAt(s, i);
      RunAtMaximal(s, i);
      if !IsLineTerminator(s[i]) && r >= 3 {
        assert RunStart(s, i);
        assert r >= 3 ==> s[i + 1] == s[i];
        forall k | i + 1 <= k < i + r
          ensures !RunStart(s, k)
        {
          assert s[k - 1] == s[i] && s[k] == s[i];
        }
        RunStartsSkip(s, i + 1, i + r, |s|);
        RepeatMatchesFromRuns(s, i + r);
      } else {
        assert i + 2 < |s| && s[i + 1] == s[i] && s[i + 2] == s[i] ==> RunAt(s, i) >= 3;
        if i + 1 < |s| && s[i] == s[i + 1] {
          assert RunAt(s, i) == 1 + RunAt(s, i + 1);
        }
        RepeatMatchesFromRuns(s, i + 1);
      }
    }
  }

  /** The expression matches once per maximal run of three or more equal units. */
  lemma RepeatMatchesCountsRuns(s: Str)
    ensures RepeatMatches(s) == RunStartsBetween(s, 0, |s|)
  {
    RepeatMatchesFromRuns(s, 0);
  }

  // ---------------------------------------------------------------------------
  // detectPatterns, parts two and three

  /** Units i, i + 1 and i + 2 ascend by one each. */
  predicate Ascending(s: Str, i: nat)
  {
    i + 2 < |s| && s[i + 1] as int == s[i] as int + 1 && s[i + 2] as int == s[i + 1] as int + 1
  }

  /** The indices below n that start an ascending triple. */
  function AscendingBelow(s: Str, n: nat): nat
  {
    if n == 0 then 0 else AscendingBelow(s, n - 1) + (if Ascending(s, n - 1) then 1 else 0)
  }

  /** `'123'`, `'abc'`, `'qwe'`, `'asd'` and `'zxc'`, as code units. */
  const CommonPatterns: seq<Str> := [[49, 50, 51], [97, 98, 99], [113, 119, 101], [97, 115, 100], [122, 120, 99]]

  /** How many of the first k common patterns the lower-cased key contains. */
  function CommonHits(s: Str, k: nat): nat
    requires k <= |CommonPatterns|
  {
    if k == 0 then 0 else CommonHits(s, k - 1) + (if Includes(AsciiLower(s), CommonPatterns[k - 1]) then 1 else 0)
  }

  /** How many indices the sequential-pattern loop visits: those below `key.length - 2`. */
  function TripleStarts(s: Str): nat
  {
    if |s| < 2 then 0 else |s| - 2
  }

  /** The penalty `detectPatterns` adds up. */
  function Penalty(s: Str): nat
  {
    3 * RepeatMatches(s) + 2 * AscendingBelow(s, TripleStarts(s)) + 5 * CommonHits(s, |CommonPatterns|)
  }

  /**
   * `detectPatterns(key)`: 3 per repeated-character match, 2 per index that
   * starts an ascending triple, and 5 per common pattern the lower-cased key
   * contains.
   */
  method DetectPatterns(key: Str) returns (penalty: int)
    ensures penalty == Penalty(key)
  {
    penalty := 0;
    var repeated := RepeatMatches(key);
    penalty := penalty + repeated * 3;
    var i := 0;
    while i < |key| - 2
      invariant 0 <= i <= TripleStarts(key)
      invariant penalty == 3 * repeated + 2 * AscendingBelow(key, i)
    {
      var char1, char2, char3 := key[i], key[i + 1], key[i + 2];
      if char2 as int == char1 as int + 1 && char3 as int == char2 as int + 1 {
        penalty := penalty + 2;
      }
      i := i + 1;
    }
    var lowered := AsciiLower(key);
    for k := 0 to |CommonPatterns|
      invariant penalty == 3 * repeated + 2 * AscendingBelow(key, TripleStarts(key)) + 5 * CommonHits(key, k)
    {
      if Includes(lowered, CommonPatterns[k]) {
        penalty := penalty + 5;
      }
    }
  }

  /**
   * The penalty is 3 per maximal run of three or more equal units, 2 per
   * ascending triple, and 5 per common pattern however often it occurs, so the
   * last part is at most 25.
   */
  lemma PenaltyParts(s: Str)
    ensures Penalty(s) == 3 * RunStartsBetween(s, 0, |s|) + 2 * AscendingBelow(s, TripleStarts(s)) + 5 * CommonHits(s, |CommonPatterns|)
    ensures CommonHits(s, |CommonPatterns|) <= |CommonPatterns| == 5
  {
    RepeatMatchesCountsRuns(s);
    CommonHitsBound(s, |CommonPatterns|);
  }

  lemma {:induction false} CommonHitsBound(s: Str, k: nat)
    requires k <= |CommonPatterns|
    ensures CommonHits(s, k) <= k
  {
    if k > 0 {
      CommonHitsBound(s, k - 1);
    }
  }

  /** With no ascending triple below n the count is 0. */
  lemma AscendingBelowNone(s: Str, n: nat)
    requires forall i :: 0 <= i < n ==> !Ascending(s, i)
    ensures AscendingBelow(s, n) == 0
  {
    if n > 0 {
      AscendingBelowNone(s, n - 1);
    }
  }

  /** "abc" scores 7: an ascending triple and a common pattern. */
  lemma PenaltyOfAbc()
    ensures Penalty([97, 98, 99]) == 7
  {
    var s: Str := [97, 98, 99];
    assert RunAt(s, 0) == 1 && RunAt(s, 1) == 1 && RunAt(s, 2) == 1;
    assert RepeatMatches(s) == 0;
    assert AscendingBelow(s, 1) == 1;
    assert AsciiLower(s) == s;
    assert OccursAt(s, CommonPatterns[1], 0);
    NotIncludedThree(s, CommonPatterns[0]);
    NotIncludedThree(s, CommonPatterns[2]);
    NotIncludedThree(s, CommonPatterns[3]);
    NotIncludedThree(s, CommonPatterns[4]);
  }

  /** A pattern of three units is in a text of three units only if they are equal. */
  lemma NotIncludedThree(s: Str, p: Str)
    requires |s| == 3 && |p| == 3 && s != p
    ensures !Includes(s, p)
  {
    assert s[0..3] == s;
  }

  /** "aaaaaa" scores 3: one match of the repeated-character expression, however long the run. */
  lemma PenaltyOfRun()
    ensures Penalty([97, 97, 97, 97, 97, 97]) == 3
  {
    var s: Str := [97, 97, 97, 97, 97, 97];
    assert RunAt(s, 5) == 1 && RunAt(s, 4) == 2 && RunAt(s, 3) == 3;
    assert RunAt(s, 2) == 4 && RunAt(s, 1) == 5 && RunAt(s, 0) == 6;
    assert RepeatMatches(s) == 1;
    AscendingBelowNone(s, 4);
    assert AsciiLower(s) == s;
    RunMisses();
  }

  lemma RunMisses()
    ensures forall k, i :: 0 <= k < 5 && 0 <= i <= 3 ==> !OccursAt([97, 97, 97, 97, 97, 97], CommonPatterns[k], i)
  {
    var s: Str := [97, 97, 97, 97, 97, 97];
    forall k, i | 0 <= k < 5 && 0 <= i <= 3
      ensures !OccursAt(s, CommonPatterns[k], i)
    {
      assert s[i..i + 3][1] == 97 != CommonPatterns[k][1];
    }
  }

  /** A common pattern adds 5 once however often it occurs: "qweqwe" scores 5. */
  lemma PenaltyOfRepeatedCommon()
    ensures Penalty([113, 119, 101, 113, 119, 101]) == 5
  {
    var s: Str := [113, 119, 101, 113, 119, 101];
    assert RunAt(s, 5) == 1 && RunAt(s, 4) == 1 && RunAt(s, 3) == 1;
    assert RunAt(s, 2) == 1 && RunAt(s, 1) == 1 && RunAt(s, 0) == 1;
    assert RepeatMatches(s) == 0;
    AscendingBelowNone(s, 4);
    assert AsciiLower(s) == s;
    assert OccursAt(s, CommonPatterns[2], 0);
    QweqweMisses();
  }

  lemma QweqweMisses()
    ensures forall k, i :: 0 <= k < 5 && k != 2 && 0 <= i <= 3 ==>
      !OccursAt([113, 119, 101, 113, 119, 101], CommonPatterns[k], i)
  {
    var s: Str := [113, 119, 101, 113, 119, 101];
    forall k, i | 0 <= k < 5 && k != 2 && 0 <= i <= 3
      ensures !OccursAt(s, CommonPatterns[k], i)
    {
      assert s[i..i + 3][0] == s[i];
    }
  }

  /** Descending "cba" scores 0. */
  lemma PenaltyOfDescending()
    ensures Penalty([99, 98, 97]) == 0
  {
    var s: Str := [99, 98, 97];
    assert RunAt(s, 0) == 1 && RunAt(s, 1) == 1 && RunAt(s, 2) == 1;
    assert RepeatMatches(s) == 0;
    assert AscendingBelow(s, 1) == 0;
    assert AsciiLower(s) == s;
    NotIncludedThree(s, CommonPatterns[0]);
    NotIncludedThree(s, CommonPatterns[1]);
    NotIncludedThree(s, CommonPatterns[2]);
    NotIncludedThree(s, CommonPatterns[3]);
    NotIncludedThree(s, CommonPatterns[4]);
  }

  // ---------------------------------------------------------------------------
  // analyzeKeyStrength

  /**
   * `analyzeKeyStrength(key)`, given the Shannon entropy of the key: the
   * rounded sum of a length part, 6.25 per character class, an entropy part
   * and the pattern part.
   */
  function AnalyzeKeyStrength(key: Str, entropy: real): (score: int)
  {
    var lengthScore := MinReal(25.0, (|key| as real / 64.0) * 25.0);
    var diversityScore := ClassCount(key) as real * 6.25;
    var entropyScore := MinReal(25.0, (entropy / 8.0) * 25.0);
    var patternScore := MaxReal(0.0, 25.0 - Penalty(key) as real);
    Round(lengthScore + diversityScore + entropyScore + patternScore)
  }

  /** Each of the four parts lies in [0, 25], so the score lies in [0, 100]. */
  lemma AnalyzeKeyStrengthBounds(key: Str, entropy: real)
    requires entropy >= 0.0
    ensures 0 <= AnalyzeKeyStrength(key, entropy) <= 100
  {
    var total := MinReal(25.0, (|key| as real / 64.0) * 25.0) + ClassCount(key) as real * 6.25
      + MinReal(25.0, (entropy / 8.0) * 25.0) + MaxReal(0.0, 25.0 - Penalty(key) as real);
    assert 0.0 <= total <= 100.0;
    RoundFacts(0.0, total, 0);
    RoundFacts(total, 100.0, 100);
  }

  /** A larger penalty never raises the score. */
  lemma AnalyzeKeyStrengthPenalty(a: Str, b: Str, entropy: real)
    requires |a| == |b| && ClassCount(a) == ClassCount(b) && Penalty(a) >= Penalty(b)
    ensures AnalyzeKeyStrength(a, entropy) <= AnalyzeKeyStrength(b, entropy)
  {
    var common := MinReal(25.0, (|a| as real / 64.0) * 25.0) + ClassCount(a) as real * 6.25 + MinReal(25.0, (entropy / 8.0) * 25.0);
    RoundFacts(common + MaxReal(0.0, 25.0 - Penalty(a) as real), common + MaxReal(0.0, 25.0 - Penalty(b) as real), 0);
  }

  /** The empty key, whose entropy is 0, scores only its 25 pattern points. */
  lemma AnalyzeEmptyKey()
    ensures AnalyzeKeyStrength([], 0.0) == 25
  {
    assert RepeatMatches([]) == 0;
    assert !HasLower([]) && !HasUpper([]) && !HasDigit([]) && !HasSymbol([]);
    forall k | 0 <= k < 5
      ensures !Includes(AsciiLower([]), CommonPatterns[k])
    {
    }
    RoundFacts(25.0, 25.0, 25);
  }

  // ---------------------------------------------------------------------------
  // bytesToHex

  /** `Array.from(bytes, byte => byte.toString(16).padStart(2, '0')).join('')` */
  function BytesToHex(bytes: seq<Byte>): (r: Str)
  {
    Concat(seq(|bytes|, i requires 0 <= i < |bytes| => Hex2(bytes[i])))
  }

  /** The bytes as code units, the text the cipher panel's encoder reads. */
  function AsUnits(bytes: seq<Byte>): (s: Str)
    ensures |s| == |bytes| && forall i :: 0 <= i < |bytes| ==> s[i] == bytes[i]
  {
    seq(|bytes|, i requires 0 <= i < |bytes| => bytes[i] as CodeUnit)
  }

  /** Two lower-case digits per byte, high nibble first. */
  lemma BytesToHexDigits(bytes: seq<Byte>)
    ensures |BytesToHex(bytes)| == 2 * |bytes|
    ensures forall i :: 0 <= i < |bytes| ==>
      BytesToHex(bytes)[2 * i] == HexDigit(bytes[i] / 16) && BytesToHex(bytes)[2 * i + 1] == HexDigit(bytes[i] % 16)
  {
    var s := AsUnits(bytes);
    assert seq(|bytes|, i requires 0 <= i < |bytes| => Hex2(bytes[i])) == CipherEngine.ByteBlocks(s);
    CipherEngine.HexOfBytes(s);
    CipherEngine.HexEncodeBytes(s);
  }

  /** The hex reads back, with the cipher panel's decoder, as the bytes. */
  lemma BytesToHexRoundTrip(bytes: seq<Byte>)
    ensures CipherEngine.HexDecode(BytesToHex(bytes)) == AsUnits(bytes)
  {
    var s := AsUnits(bytes);
    assert seq(|bytes|, i requires 0 <= i < |bytes| => Hex2(bytes[i])) == CipherEngine.ByteBlocks(s);
    CipherEngine.HexOfBytes(s);
    CipherEngine.HexRoundTrip(s);
  }

  /** Every unit of the hex is a lower-case hex digit, so `toLowerCase` leaves it alone. */
  lemma BytesToHexLower(bytes: seq<Byte>)
    ensures AsciiLower(BytesToHex(bytes)) == BytesToHex(bytes)
  {
    BytesToHexDigits(bytes);
    var h := BytesToHex(bytes);
    forall k | 0 <= k < |h|
      ensures !IsAsciiUpper(h[k])
    {
      var i := k / 2;
      if k == 2 * i {
        assert h[k] == HexDigit(bytes[i] / 16);
      } else {
        assert h[k] == HexDigit(bytes[i] % 16);
      }
    }
  }

  // ---------------------------------------------------------------------------
  // generateNeuralKey

  /** What a neuron computes from the bytes of the previous layer: the floating-point activation is left out. */
  type Neuron = (seq<Byte>, nat) -> Byte

  /** The 32 bytes of one layer. */
  function Layer(input: seq<Byte>, neuron: Neuron): (r: seq<Byte>)
    ensures |r| == 32
  {
    seq(32, i requires 0 <= i < 32 => neuron(input, i))
  }

  /** `simulateNeuralLayer(input, neurons)`: fills a fresh 32-byte array, neuron by neuron. */
  method SimulateNeuralLayer(input: array<Byte>, neuron: Neuron) returns (output: array<Byte>)
    ensures fresh(output)
    ensures output[..] == Layer(input[..], neuron)
  {
    output := new Byte[32](_ => 0);
    for i := 0 to 32
      invariant forall k :: 0 <= k < i ==> output[k] == neuron(input[..], k)
    {
      output[i] := neuron(input[..], i);
    }
  }

  /** The seed after `layers` layers. */
  function Propagate(seed: seq<Byte>, neuron: Neuron, layers: nat): seq<Byte>
  {
    if layers == 0 then seed else Layer(Propagate(seed, neuron, layers - 1), neuron)
  }

  /** `s.substring(0, n)` for a non-negative n. */
  function Prefix(s: Str, n: nat): (r: Str)
    ensures |r| == Min(n, |s|) && r == s[..|r|]
  {
    if n <= |s| then s[..n] else s
  }

  /** The key `generateNeuralKey` returns for these random seed bytes. */
  function NeuralKey(length: nat, seed: seq<Byte>, neuron: Neuron): Str
  {
    AsciiLower(Prefix(BytesToHex(Propagate(seed, neuron, 3)), length * 2))
  }

  /** `generateNeuralKey(options)`, with the 32 random seed bytes given. */
  method GenerateNeuralKey(length: nat, randomSeed: seq<Byte>, neuron: Neuron) returns (key: Str)
    requires |randomSeed| == 32
    ensures key == NeuralKey(length, randomSeed, neuron)
  {
    var layers := 3;
    var seed := new Byte[32](_ => 0);
    for k := 0 to 32
      invariant forall m :: 0 <= m < k ==> seed[m] == randomSeed[m]
    {
      seed[k] := randomSeed[k];
    }
    assert seed[..] == randomSeed;
    for layer := 0 to layers
      invariant seed[..] == Propagate(randomSeed, neuron, layer)
    {
      seed := SimulateNeuralLayer(seed, neuron);
    }
    var hexKey := BytesToHex(seed[..]);
    key := AsciiLower(Prefix(hexKey, length * 2));
  }

  /** The neural key has min(2 · length, 64) units, each a lower-case hex digit of the last layer. */
  lemma NeuralKeyShape(length: nat, seed: seq<Byte>, neuron: Neuron)
    ensures |NeuralKey(length, seed, neuron)| == Min(2 * length, 64)
    ensures NeuralKey(length, seed, neuron) <= BytesToHex(Propagate(seed, neuron, 3))
  {
    var last := Propagate(seed, neuron, 3);
    assert |last| == 32;
    BytesToHexDigits(last);
    BytesToHexLower(last);
    var h := BytesToHex(last);
    var p := Prefix(h, length * 2);
    forall k | 0 <= k < |p|
      ensures AsciiLower(p)[k] == p[k]
    {
      assert AsciiLower(h)[k] == h[k];
    }
  }

  // ---------------------------------------------------------------------------
  // generateQuantumSafeKey

  /** The rows of `generateLatticeMatrix(size)`: one per i with i < size / 8. */
  function LatticeRows(size: nat): nat
  {
    (size + 7) / 8
  }

  /** What `Math.abs(Math.round(sum)) % 256` gives for row i over the data it reads: the random matrix is left out. */
  type LatticeRow = (seq<Byte>, nat) -> Byte

  /** The bytes `applyLatticeTransform` returns: row i for the first `size` indices, 0 after. */
  function Transformed(data: seq<Byte>, rows: nat, row: LatticeRow): (r: seq<Byte>)
    ensures |r| == |data|
  {
    var size := Min(rows, |data|);
    seq(|data|, i requires 0 <= i < |data| => if i < size then row(data[..size], i) else 0)
  }

  /** `applyLatticeTransform(data, matrix)` for a matrix of `rows` rows of `rows` entries. */
  method ApplyLatticeTransform(data: array<Byte>, rows: nat, row: LatticeRow) returns (result: array<Byte>)
    ensures fresh(result)
    ensures result[..] == Transformed(data[..], rows, row)
  {
    result := new Byte[data.Length](_ => 0);
    var size := Min(rows, data.Length);
    for i := 0 to size
      invariant forall k :: 0 <= k < i ==> result[k] == row(data[..size], k)
      invariant forall k :: i <= k < data.Length ==> result[k] == 0
    {
      result[i] := row(data[..size], i);
    }
  }

  /** The key `generateQuantumSafeKey` returns for these random bytes. */
  function QuantumSafeKey(length: nat, entropy: nat, random: seq<Byte>, row: LatticeRow): Str
    requires |random| == 2 * length
  {
    BytesToHex(Transformed(random, LatticeRows(entropy), row)[..length])
  }

  /** `generateQuantumSafeKey(options)`, with the 2 · length random bytes given. */
  method GenerateQuantumSafeKey(length: nat, entropy: nat, random: seq<Byte>, row: LatticeRow) returns (key: Str)
    requires |random| == 2 * length
    ensures key == QuantumSafeKey(length, entropy, random, row)
  {
    var bytes := new Byte[2 * length](i requires 0 <= i < 2 * length => random[i]);
    assert bytes[..] == random;
    var transformed := ApplyLatticeTransform(bytes, LatticeRows(entropy), row);
    key := BytesToHex(transformed[..][..length]);
  }

  /**
   * The quantum-safe key has 2 · length units, and every byte from index
   * min(⌈entropy / 8⌉, 2 · length) on is 0, so it renders as "00".
   */
  lemma QuantumSafeKeyShape(length: nat, entropy: nat, random: seq<Byte>, row: LatticeRow)
    requires |random| == 2 * length
    ensures |QuantumSafeKey(length, entropy, random, row)| == 2 * length
    ensures forall i :: Min(LatticeRows(entropy), 2 * length) <= i < length ==>
      QuantumSafeKey(length, entropy, random, row)[2 * i] == '0' as int &&
      QuantumSafeKey(length, entropy, random, row)[2 * i + 1] == '0' as int
  {
    var bytes := Transformed(random, LatticeRows(entropy), row)[..length];
    BytesToHexDigits(bytes);
  }

  /** `Math.ceil`-free reading of the row count: row i exists exactly when 8 · i < size. */
  lemma LatticeRowsCount(size: nat, i: nat)
    ensures i < LatticeRows(size) <==> 8 * i < size
  {
  }
}
