/**
 * The local data of the analysis dashboard (`generateLocalAnalysisData`): the
 * top-ten character frequency table, the entropy of five-unit chunks along
 * the first fifty code units, the security metrics, and the bit
 * distribution; and the pattern resistance the radar chart shows.
 *
 * `Math.log2` is the parameter `log2`; shares and entropies are exact reals.
 */
module AnalysisDashboard {
  import opened Wrappers
  import opened JsText
  import opened JsMath
  import opened Collections
  import opened JsObject
  import opened FrequencyTables
  import opened TextEntropy
  import opened CharStats
  import opened ComponentHelpers
  import SecurityAnalyzer

  // ---------------------------------------------------------------------------
  // The frequency table

  /** The label of a character: a space is shown as "Space". */
  function Label(c: Str): Str
  {
    if c == Lit(" ") then Lit("Space") else c
  }

  /** Labels tell characters apart, and only the space is labelled "Space". */
  lemma LabelFacts()
    ensures LabelsApart(Label)
    ensures forall c: Str :: 1 <= |c| <= 2 ==> (Label(c) == Lit("Space") <==> c == Lit(" "))
  {
    assert |Lit("Space")| == 5;
  }

  /** `frequencyData`: a row per distinct character, percentages to two decimals, by descending count, the first ten. */
  function FrequencyData(text: Str): seq<Row>
  {
    Top(CharRows(text, Label, TwoDecimals), 10)
  }

  /** The row is the labelled count and percentage of a character of the text. */
  ghost predicate IsCharRow(text: Str, r: Row)
    requires text != []
  {
    exists c :: c in Chars(text) && r == Row(Label(c), Count(Chars(text), c), Share(Count(Chars(text), c), |text|, TwoDecimals))
  }

  /**
   * The table has one row per distinct character up to ten, by non-increasing
   * count; each row is the labelled count and percentage of a character of
   * the text.
   */
  lemma FrequencyDataRows(text: Str)
    requires text != []
    ensures |FrequencyData(text)| == Min(10, |CountEntries(Chars(text))|)
    ensures forall i, j :: 0 <= i < j < |FrequencyData(text)| ==> FrequencyData(text)[i].count >= FrequencyData(text)[j].count
    ensures forall i :: 0 <= i < |FrequencyData(text)| ==> IsCharRow(text, FrequencyData(text)[i])
  {
    TopCharRows(text, Label, TwoDecimals, 10);
    forall i | 0 <= i < |FrequencyData(text)|
      ensures IsCharRow(text, FrequencyData(text)[i])
    {
      var c := TopCharRowAt(text, Label, TwoDecimals, 10, i);
      assert FrequencyData(text)[i] == Row(Label(c), Count(Chars(text), c), Share(Count(Chars(text), c), |text|, TwoDecimals));
    }
  }

  /** No two rows of the table have the same label. */
  lemma FrequencyDataLabels(text: Str)
    ensures forall i, j :: 0 <= i < j < |FrequencyData(text)| ==> FrequencyData(text)[i].character != FrequencyData(text)[j].character
  {
    LabelFacts();
    LabelsApartOnText(Label, text);
    TopCharRowsLabels(text, Label, TwoDecimals, 10);
  }

  /** A character occurring more often than a row's character has a row of its own. */
  lemma FrequencyDataComplete(text: Str)
    ensures forall c, i :: c in Chars(text) && 0 <= i < |FrequencyData(text)| && Count(Chars(text), c) > FrequencyData(text)[i].count ==>
      exists k :: 0 <= k < |FrequencyData(text)| && FrequencyData(text)[k].character == Label(c)
  {
    forall c, i | c in Chars(text) && 0 <= i < |FrequencyData(text)| && Count(Chars(text), c) > FrequencyData(text)[i].count
      ensures exists k :: 0 <= k < |FrequencyData(text)| && FrequencyData(text)[k].character == Label(c)
    {
      var k := TopCharRowsComplete(text, Label, TwoDecimals, 10, c, i);
    }
  }

  /** Before the cut to ten, the counts of the rows add up to the number of characters. */
  lemma FrequencyDataSum(text: Str)
    ensures SumRowCounts(CharRows(text, Label, TwoDecimals)) == |Chars(text)|
  {
    CharRowsSum(text, Label, TwoDecimals);
  }

  // ---------------------------------------------------------------------------
  // The entropy chart

  /** A point of the entropy chart. */
  datatype EntropyPoint = EntropyPoint(position: nat, entropy: real)

  /** `text.slice(i, i + 5)` */
  function Chunk(text: Str, i: nat): (chunk: Str)
    requires i < |text|
    ensures 1 <= |chunk| <= 5
  {
    text[i..Min(i + 5, |text|)]
  }

  /** The number of points: one per multiple of 5 below min(n, 50), so at most ten. */
  function PointCount(n: nat): (c: nat)
    ensures c <= 10
    ensures c == 0 <==> n == 0
    ensures 5 * c >= Min(n, 50) && (c > 0 ==> 5 * (c - 1) < Min(n, 50))
  {
    (Min(n, 50) + 4) / 5
  }

  /** The only number of multiples of 5 that reaches min(n, 50) without passing it is the count of points. */
  lemma PointCountOf(n: nat, m: nat)
    requires 5 * m >= Min(n, 50) && (m > 0 ==> 5 * (m - 1) < Min(n, 50))
    ensures PointCount(n) == m
  {
  }

  /** The point for the chunk at 5 · k. */
  function Point(text: Str, log2: real -> real, k: nat): EntropyPoint
    requires 5 * k < |text|
  {
    EntropyPoint(5 * k, Entropy(Chunk(text, 5 * k), log2))
  }

  /** The points of the first m chunks, one per chunk, the k-th at position 5 · k. */
  function PointsUpTo(text: Str, log2: real -> real, m: nat): (points: seq<EntropyPoint>)
    requires m == 0 || 5 * (m - 1) < |text|
    ensures |points| == m
    ensures forall k :: 0 <= k < m ==> 5 * k < |text| && points[k] == Point(text, log2, k)
  {
    if m == 0 then [] else PointsUpTo(text, log2, m - 1) + [Point(text, log2, m - 1)]
  }

  /** `entropyData`: the rounded entropy of the chunk at each of 0, 5, 10, … below min(n, 50). */
  function EntropyPoints(text: Str, log2: real -> real): (points: seq<EntropyPoint>)
    ensures |points| == PointCount(|text|)
    ensures forall k :: 0 <= k < |points| ==> points[k].position == 5 * k < Min(|text|, 50)
  {
    PointsUpTo(text, log2, PointCount(|text|))
  }

  /** The body of the loop: the chunk at i, its entropy counted as `calculateEntropy` counts a text, and its point pushed. */
  method PushPoint(text: Str, log2: real -> real, points: seq<EntropyPoint>, i: nat) returns (next: seq<EntropyPoint>)
    requires i == 5 * |points| && i < |text|
    requires points == PointsUpTo(text, log2, |points|)
    ensures next == PointsUpTo(text, log2, |points| + 1)
  {
    var chunk := Chunk(text, i);
    var entropy := CalculateEntropy(chunk, log2);
    next := points + [EntropyPoint(i, entropy)];
  }

  /** The loop `for (let i = 0; i < Math.min(text.length, 50); i += 5)`. */
  method EntropyData(text: Str, log2: real -> real) returns (entropyData: seq<EntropyPoint>)
    ensures entropyData == EntropyPoints(text, log2)
  {
    entropyData := [];
    var limit := Min(|text|, 50);
    var i := 0;
    while i < limit
      invariant i == 5 * |entropyData| && (i > 0 ==> i - 5 < limit)
      invariant entropyData == PointsUpTo(text, log2, |entropyData|)
      decreases 50 - i
    {
      entropyData := PushPoint(text, log2, entropyData, i);
      i := i + 5;
    }
    PointCountOf(|text|, |entropyData|);
  }

  // ---------------------------------------------------------------------------
  // The security metrics

  /** `calculateOverallSecurity(text, state)` */
  function OverallSecurity(text: Str, key: Str, algorithm: Str, log2: real -> real): int
  {
    Round((Entropy(text, log2) * 10.0 + KeyStrength(key) as real + ExactAlgorithmStrength(algorithm) as real) / 3.0)
  }

  /** `calculateOverallSecurity(text, state)`, from the three helpers. */
  method CalculateOverallSecurity(text: Str, key: Str, algorithm: Str, log2: real -> real) returns (overall: int)
    ensures overall == OverallSecurity(text, key, algorithm, log2)
  {
    var entropy := CalculateEntropy(text, log2);
    var keyStrength := CalculateKeyStrength(key);
    var algStrength := ExactAlgorithmStrength(algorithm);
    overall := Round((entropy * 10.0 + keyStrength as real + algStrength as real) / 3.0);
  }

  /**
   * With a logarithm never positive on (0, 1] the overall score is at least
   * 10 (the weakest algorithm, 30, with an empty key and no entropy), and it
   * never falls when the key is extended or the algorithm table gives more.
   */
  lemma OverallSecurityBounds(text: Str, key: Str, more: Str, algorithm: Str, other: Str, log2: real -> real)
    requires NonPositiveOnShares(log2)
    ensures OverallSecurity(text, key, algorithm, log2) >= 10
    ensures OverallSecurity(text, key, algorithm, log2) <= OverallSecurity(text, key + more, algorithm, log2)
    ensures ExactAlgorithmStrength(algorithm) <= ExactAlgorithmStrength(other) ==>
      OverallSecurity(text, key, algorithm, log2) <= OverallSecurity(text, key, other, log2)
  {
    EntropyNonNegative(text, log2);
    KeyStrengthExtend(key, more);
    var e := Entropy(text, log2) * 10.0;
    var k, a := KeyStrength(key) as real, ExactAlgorithmStrength(algorithm) as real;
    RoundFacts(30.0 / 3.0, (e + k + a) / 3.0, 10);
    RoundFacts((e + k + a) / 3.0, (e + KeyStrength(key + more) as real + a) / 3.0, 0);
    RoundFacts((e + k + a) / 3.0, (e + k + ExactAlgorithmStrength(other) as real) / 3.0, 0);
  }

  /** `detectPatterns(text)`: the texts of the repeated chunks. */
  function PatternTexts(text: Str): (r: seq<Str>)
    ensures |r| == |SecurityAnalyzer.ChunkPatterns(text)|
  {
    Texts(SecurityAnalyzer.ChunkPatterns(text))
  }

  /**
   * `detectPatterns(text)`: count the chunks of `text.match(/.{1,4}/g)` and
   * push each one counted more than once.
   */
  method DetectPatterns(text: Str) returns (patterns: seq<Str>)
    ensures patterns == PatternTexts(text)
  {
    var chunks := DotGroups(text, 4);
    var frequency := Tally(chunks);
    TallyAgrees(frequency, chunks);
    var entries := Entries(frequency);
    patterns := [];
    for i := 0 to |entries|
      invariant patterns == Texts(SecurityAnalyzer.RepeatedEntries(entries[..i]))
    {
      RepeatedTextsStep(entries, i);
      var (pattern, count) := entries[i];
      if count > 1 {
        patterns := patterns + [pattern];
      }
    }
    assert entries[..|entries|] == entries;
  }

  /** One more entry adds its text when it is counted more than once, and nothing otherwise. */
  lemma RepeatedTextsStep(e: seq<(Str, nat)>, i: nat)
    requires i < |e|
    ensures Texts(SecurityAnalyzer.RepeatedEntries(e[..i + 1]))
      == Texts(SecurityAnalyzer.RepeatedEntries(e[..i])) + (if e[i].1 > 1 then [e[i].0] else [])
  {
    assert e[..i + 1][..i] == e[..i];
    var found := if e[i].1 > 1 then [SecurityAnalyzer.ChunkPattern(e[i].0, e[i].1, [])] else [];
    assert SecurityAnalyzer.RepeatedEntries(e[..i + 1]) == SecurityAnalyzer.RepeatedEntries(e[..i]) + found;
    TextsAppend(SecurityAnalyzer.RepeatedEntries(e[..i]), found);
  }

  function Texts(ps: seq<SecurityAnalyzer.ChunkPattern>): (r: seq<Str>)
    ensures |r| == |ps| && forall i :: 0 <= i < |ps| ==> r[i] == ps[i].pattern
  {
    seq(|ps|, i requires 0 <= i < |ps| => ps[i].pattern)
  }

  lemma TextsAppend(a: seq<SecurityAnalyzer.ChunkPattern>, b: seq<SecurityAnalyzer.ChunkPattern>)
    ensures Texts(a + b) == Texts(a) + Texts(b)
  {
  }

  /** The patterns are exactly the chunks of one to four units that occur more than once. */
  lemma PatternTextsExact(text: Str)
    ensures forall c :: c in PatternTexts(text) <==> Count(DotGroups(text, 4), c) >= 2
    ensures forall c :: c in PatternTexts(text) ==> 1 <= |c| <= 4
  {
    var ps := SecurityAnalyzer.ChunkPatterns(text);
    var r := PatternTexts(text);
    SecurityAnalyzer.ChunkPatternsFacts(text);
    forall c
      ensures c in r <==> Count(DotGroups(text, 4), c) >= 2
      ensures c in r ==> 1 <= |c| <= 4
    {
      if c in r {
        var i :| 0 <= i < |r| && r[i] == c;
        assert ps[i].pattern == c;
      }
      if Count(DotGroups(text, 4), c) >= 2 {
        var i :| 0 <= i < |ps| && ps[i].pattern == c;
        assert r[i] == c;
      }
    }
  }

  /** No pattern is reported twice. */
  lemma PatternTextsDistinct(text: Str)
    ensures NoDuplicates(PatternTexts(text))
  {
    SecurityAnalyzer.ChunkPatternsFacts(text);
  }

  /** `Math.max(0, 100 - patterns * 10)`: full resistance without patterns, none from ten on. */
  function PatternResistance(patterns: nat): (r: int)
    ensures 0 <= r <= 100
    ensures r == 100 <==> patterns == 0
    ensures r == 0 <==> patterns >= 10
  {
    Max(0, 100 - patterns * 10)
  }

  /** One more pattern lowers the resistance by ten, down to zero. */
  lemma PatternResistanceStep(patterns: nat)
    ensures PatternResistance(patterns + 1) == Max(0, PatternResistance(patterns) - 10)
  {
  }

  // ---------------------------------------------------------------------------
  // The bit distribution

  /** A row of the bit chart; the percentage is None where the division by an empty text gives NaN. */
  datatype BitRow = BitRow(bit: nat, count: nat, percentage: Option<int>)

  /** `Math.round((count / text.length) * 100)` */
  function BitPercentage(count: nat, n: nat): Option<int>
  {
    if n == 0 then None else Some(Round(count as real / n as real * 100.0))
  }

  /** `bitDistribution`: the eight bit counts with their percentages of `text.length`. */
  function BitDistribution(text: Str): (rows: seq<BitRow>)
    ensures |rows| == 8
    ensures forall i :: 0 <= i < 8 ==> rows[i].bit == i && rows[i].count == BitCount(Chars(text), i) <= |Chars(text)|
  {
    var counts := BitCounts(Chars(text));
    seq(8, i requires 0 <= i < 8 => BitRow(i, counts[i], BitPercentage(counts[i], |text|)))
  }

  /** `generateBitDistribution(text)`: the counting loops, then one row per bit. */
  method GenerateBitDistribution(text: Str) returns (rows: seq<BitRow>)
    ensures rows == BitDistribution(text)
  {
    var distribution := CountBits(text);
    rows := seq(8, i requires 0 <= i < 8 reads distribution => BitRow(i, distribution[i], BitPercentage(distribution[i], |text|)));
  }

  /** Every percentage is between 0 and 100; there are none for the empty text. */
  lemma BitPercentagesBounded(text: Str)
    ensures forall i :: 0 <= i < 8 ==> (BitDistribution(text)[i].percentage.None? <==> text == [])
    ensures forall i :: 0 <= i < 8 && text != [] ==> 0 <= BitDistribution(text)[i].percentage.value <= 100
  {
    var rows := BitDistribution(text);
    forall i | 0 <= i < 8 && text != []
      ensures 0 <= rows[i].percentage.value <= 100
    {
      var x := rows[i].count as real / |text| as real * 100.0;
      ShareBounded(rows[i].count, |text|);
      RoundFacts(0.0, x, 0);
      RoundFacts(x, 100.0, 100);
    }
  }

  // ---------------------------------------------------------------------------
  // generateLocalAnalysisData

  datatype SecurityMetrics = SecurityMetrics(overall: int, entropy: real, keyStrength: int, algorithmStrength: int, patterns: nat)

  datatype LocalAnalysisData = LocalAnalysisData(
    frequencyData: seq<Row>, entropyData: seq<EntropyPoint>, securityMetrics: SecurityMetrics,
    bitDistribution: seq<BitRow>, textLength: nat, uniqueChars: nat)

  /** The data for a text, key and algorithm. */
  function LocalAnalysis(text: Str, key: Str, algorithm: Str, log2: real -> real): LocalAnalysisData
  {
    LocalAnalysisData(
      FrequencyData(text), EntropyPoints(text, log2),
      SecurityMetrics(OverallSecurity(text, key, algorithm, log2), Entropy(text, log2), KeyStrength(key),
        ExactAlgorithmStrength(algorithm), |PatternTexts(text)|),
      BitDistribution(text), |text|, |CountEntries(Chars(text))|)
  }

  /** `generateLocalAnalysisData(text)`: one counting loop for the table, then each part in turn. */
  method GenerateLocalAnalysisData(text: Str, key: Str, algorithm: Str, log2: real -> real) returns (data: LocalAnalysisData)
    ensures data == LocalAnalysis(text, key, algorithm, log2)
  {
    var freq := Tally(Chars(text));
    TallyAgrees(freq, Chars(text));
    var entries := Entries(freq);
    var rows := if text == [] then [] else seq(|entries|, i requires 0 <= i < |entries| => EntryRow(entries[i], |text|, Label, TwoDecimals));
    var frequencyData := Take(SortDescending(rows, RowCount), 10);
    var entropyData := EntropyData(text, log2);
    var overall := CalculateOverallSecurity(text, key, algorithm, log2);
    var entropy := CalculateEntropy(text, log2);
    var keyStrength := CalculateKeyStrength(key);
    var patterns := DetectPatterns(text);
    var bitDistribution := GenerateBitDistribution(text);
    var metrics := SecurityMetrics(overall, entropy, keyStrength, ExactAlgorithmStrength(algorithm), |patterns|);
    data := LocalAnalysisData(frequencyData, entropyData, metrics, bitDistribution, |text|, |entries|);
  }

  /**
   * `uniqueChars`: each character counts at least once, so there are no more
   * distinct characters than characters, and none only for the empty text.
   */
  lemma UniqueCharsBounded(text: Str)
    ensures |CountEntries(Chars(text))| <= |Chars(text)| <= |text|
    ensures |CountEntries(Chars(text))| == 0 <==> text == []
  {
    var chars := Chars(text);
    CountEntriesFacts(chars);
    SumValuesAtLeastLength(CountEntries(chars));
    if text != [] {
      assert chars[0] in chars;
    }
  }

  lemma {:induction false} SumValuesAtLeastLength(e: seq<(Str, nat)>)
    requires forall i :: 0 <= i < |e| ==> e[i].1 >= 1
    ensures SumValues(e) >= |e|
  {
    if e != [] {
      SumValuesAtLeastLength(e[1..]);
    }
  }
}
