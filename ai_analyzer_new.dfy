/**
 * The AI analyzer panel (`AIAnalyzer_new.tsx`): its own frequency table and
 * recommendation list, and the analysis `runAnalysis` assembles from the
 * helpers of `aiAnalysis.ts`.
 *
 * `calculateSecurityScore` returns a `SecurityStrength` record, and the panel
 * hands that record to `generateRecommendations` and to the colour and badge
 * helpers, whose parameter is a number. A record compared with a number
 * converts to NaN, so every such comparison is false: the type `Score` keeps
 * both kinds of argument apart.
 *
 * `Math.log2` is the parameter `log2`; the floating-point estimates of
 * `aiAnalysis.ts` (its text entropy, the frequency deviation and the two
 * pattern statistics) are the fields of the parameter `Estimates`.
 */
module AiAnalyzerNew {
  import opened Wrappers
  import opened JsText
  import opened JsMath
  import opened Collections
  import opened JsObject
  import opened FrequencyTables
  import opened TextEntropy
  import ComponentHelpers
  import AiAnalysis
  import CipherEngine

  // ---------------------------------------------------------------------------
  // calculateFrequencyAnalysis

  /** The panel shows each character as it is. */
  function AsIs(c: Str): Str
  {
    c
  }

  /** The identity tells characters apart. */
  lemma AsIsApart()
    ensures LabelsApart(AsIs)
  {
  }

  /** `calculateFrequencyAnalysis(text)`: a row per distinct character, percentages to two decimals, by descending count, the first ten. */
  function FrequencyAnalysis(text: Str): seq<Row>
  {
    Top(CharRows(text, AsIs, TwoDecimals), 10)
  }

  /** The counting loop over the characters, then the entries mapped, sorted and cut. */
  method CalculateFrequencyAnalysis(text: Str) returns (rows: seq<Row>)
    ensures rows == FrequencyAnalysis(text)
  {
    var freq := Tally(Chars(text));
    TallyAgrees(freq, Chars(text));
    var entries := Entries(freq);
    var mapped := if text == [] then [] else seq(|entries|, i requires 0 <= i < |entries| => EntryRow(entries[i], |text|, AsIs, TwoDecimals));
    rows := Take(SortDescending(mapped, RowCount), 10);
  }

  /** The row is the count and two-decimal percentage of a character of the text, under the character itself. */
  ghost predicate IsCountRow(text: Str, r: Row)
    requires text != []
  {
    exists c :: c in Chars(text) && r == Row(c, Count(Chars(text), c), Share(Count(Chars(text), c), |text|, TwoDecimals))
  }

  /**
   * An empty text has no rows; otherwise there is one row per distinct
   * character up to ten, by non-increasing count, each the count and
   * percentage of a character of the text.
   */
  lemma FrequencyAnalysisRows(text: Str)
    ensures text == [] ==> FrequencyAnalysis(text) == []
    ensures text != [] ==> |FrequencyAnalysis(text)| == Min(10, |CountEntries(Chars(text))|)
    ensures forall i, j :: 0 <= i < j < |FrequencyAnalysis(text)| ==> FrequencyAnalysis(text)[i].count >= FrequencyAnalysis(text)[j].count
    ensures text != [] ==> forall i :: 0 <= i < |FrequencyAnalysis(text)| ==> IsCountRow(text, FrequencyAnalysis(text)[i])
  {
    if text == [] {
      assert CharRows(text, AsIs, TwoDecimals) == [];
      TopFacts([], 10);
    } else {
      TopCharRows(text, AsIs, TwoDecimals, 10);
      forall i | 0 <= i < |FrequencyAnalysis(text)|
        ensures IsCountRow(text, FrequencyAnalysis(text)[i])
      {
        var c := TopCharRowAt(text, AsIs, TwoDecimals, 10, i);
        assert FrequencyAnalysis(text)[i] == Row(c, Count(Chars(text), c), Share(Count(Chars(text), c), |text|, TwoDecimals));
      }
    }
  }

  /** No character has two rows, and before the cut the counts add up to the number of characters. */
  lemma FrequencyAnalysisCounts(text: Str)
    ensures forall i, j :: 0 <= i < j < |FrequencyAnalysis(text)| ==> FrequencyAnalysis(text)[i].character != FrequencyAnalysis(text)[j].character
    ensures SumRowCounts(CharRows(text, AsIs, TwoDecimals)) == |Chars(text)|
  {
    AsIsApart();
    LabelsApartOnText(AsIs, text);
    TopCharRowsLabels(text, AsIs, TwoDecimals, 10);
    CharRowsSum(text, AsIs, TwoDecimals);
  }

  /** A character occurring more often than a row's character has a row of its own. */
  lemma FrequencyAnalysisComplete(text: Str, c: Str, i: nat) returns (k: nat)
    requires c in Chars(text) && i < |FrequencyAnalysis(text)|
    requires Count(Chars(text), c) > FrequencyAnalysis(text)[i].count
    ensures k < |FrequencyAnalysis(text)| && FrequencyAnalysis(text)[k].character == c
    ensures FrequencyAnalysis(text)[k].count == Count(Chars(text), c)
  {
    k := TopCharRowsComplete(text, AsIs, TwoDecimals, 10, c, i);
  }

  // ---------------------------------------------------------------------------
  // The score argument and the comparisons on it

  /** What the panel passes where a score is expected: a number, or the `SecurityStrength` record itself. */
  datatype Score = Number(value: real) | Record(strength: AiAnalysis.SecurityStrength)

  /** `score < bound`: a record converts to NaN, and NaN is below nothing. */
  predicate Below(score: Score, bound: real)
  {
    match score
    case Number(v) => v < bound
    case Record(_) => false
  }

  /** `score >= bound`: a record converts to NaN, and NaN reaches nothing. */
  predicate AtLeast(score: Score, bound: real)
  {
    match score
    case Number(v) => v >= bound
    case Record(_) => false
  }

  // ---------------------------------------------------------------------------
  // generateRecommendations

  datatype Recommendation =
    | StrongerAlgorithm | LongerKey | AdditionalLayers | KeyRotation | AddressHighRisk | QuantumResistantAlgorithms

  function Text(r: Recommendation): string
  {
    match r
    case StrongerAlgorithm => "Consider using a stronger encryption algorithm"
    case LongerKey => "Increase key length for better security"
    case AdditionalLayers => "Add additional layers of encryption"
    case KeyRotation => "Implement key rotation policies"
    case AddressHighRisk => "Address high-risk vulnerabilities immediately"
    case QuantumResistantAlgorithms => "Consider using quantum-resistant algorithms"
  }

  /** `predictions.some(p => p.risk === 'high')` */
  function SomeHighRisk(predictions: seq<AiAnalysis.Prediction>): (b: bool)
    ensures b <==> exists i :: 0 <= i < |predictions| && predictions[i].risk == AiAnalysis.High
  {
    if predictions == [] then false
    else if predictions[0].risk == AiAnalysis.High then true
    else
      var rest := SomeHighRisk(predictions[1..]);
      assert forall i :: 1 <= i < |predictions| ==> predictions[i] == predictions[1..][i - 1];
      rest
  }

  /** The three pairs, each present exactly when its condition holds, in this order. */
  function Recommendations(score: Score, predictions: seq<AiAnalysis.Prediction>): seq<Recommendation>
  {
    (if Below(score, 30.0) then [StrongerAlgorithm, LongerKey] else [])
    + (if Below(score, 60.0) then [AdditionalLayers, KeyRotation] else [])
    + (if SomeHighRisk(predictions) then [AddressHighRisk, QuantumResistantAlgorithms] else [])
  }

  /** `generateRecommendations(score, predictions)`: the pushes, in order. */
  method GenerateRecommendations(score: Score, predictions: seq<AiAnalysis.Prediction>) returns (recommendations: seq<Recommendation>)
    ensures recommendations == Recommendations(score, predictions)
  {
    recommendations := [];
    if Below(score, 30.0) {
      recommendations := recommendations + [StrongerAlgorithm];
      recommendations := recommendations + [LongerKey];
    }
    if Below(score, 60.0) {
      recommendations := recommendations + [AdditionalLayers];
      recommendations := recommendations + [KeyRotation];
    }
    if SomeHighRisk(predictions) {
      recommendations := recommendations + [AddressHighRisk];
      recommendations := recommendations + [QuantumResistantAlgorithms];
    }
  }

  /**
   * Each pair is there exactly when its condition holds, so the list has 0,
   * 2, 4 or 6 entries; a score under 30 is under 60 too, so it always brings
   * the second pair along.
   */
  lemma RecommendationsShape(score: Score, predictions: seq<AiAnalysis.Prediction>)
    ensures var r := Recommendations(score, predictions);
      && (StrongerAlgorithm in r <==> Below(score, 30.0))
      && (LongerKey in r <==> Below(score, 30.0))
      && (AdditionalLayers in r <==> Below(score, 60.0))
      && (KeyRotation in r <==> Below(score, 60.0))
      && (AddressHighRisk in r <==> exists i :: 0 <= i < |predictions| && predictions[i].risk == AiAnalysis.High)
      && (QuantumResistantAlgorithms in r <==> exists i :: 0 <= i < |predictions| && predictions[i].risk == AiAnalysis.High)
      && |r| in {0, 2, 4, 6}
      && (Below(score, 30.0) ==> AdditionalLayers in r && KeyRotation in r)
  {
  }

  // ---------------------------------------------------------------------------
  // Colour, badge and verdict

  /** `getStrengthColor(score)` on what it is given. */
  function ScoreColor(score: Score): ComponentHelpers.Color
  {
    if AtLeast(score, 80.0) then ComponentHelpers.Green
    else if AtLeast(score, 60.0) then ComponentHelpers.Yellow
    else ComponentHelpers.Red
  }

  /** `getStrengthBadgeVariant(score)` on what it is given. */
  function ScoreBadge(score: Score): ComponentHelpers.Badge
  {
    if AtLeast(score, 80.0) then ComponentHelpers.Default
    else if AtLeast(score, 60.0) then ComponentHelpers.Secondary
    else ComponentHelpers.Destructive
  }

  datatype Verdict = StrongScore | ModerateScore | WeakScore

  /** The badge text: 'Strong' from 80, 'Moderate' from 60, 'Weak' below. */
  function ScoreVerdict(score: Score): Verdict
  {
    if AtLeast(score, 80.0) then StrongScore else if AtLeast(score, 60.0) then ModerateScore else WeakScore
  }

  /** On a number the helpers are the 80/60 thresholds of the other panels, and the verdict follows the colour. */
  lemma NumberDisplay(v: real)
    ensures ScoreColor(Number(v)) == ComponentHelpers.StrengthColor(v)
    ensures ScoreBadge(Number(v)) == ComponentHelpers.StrengthBadge(v)
    ensures ScoreVerdict(Number(v)) == (match ComponentHelpers.StrengthColor(v)
      case Green => StrongScore case Yellow => ModerateScore case Red => WeakScore)
  {
  }

  // ---------------------------------------------------------------------------
  // runAnalysis

  /** The floating-point estimates `runAnalysis` takes from `aiAnalysis.ts`. */
  datatype Estimates = Estimates(
    textEntropy: real,            // calculateTextEntropy(text), the entropy predictVulnerabilities tests
    deviation: real,              // analyzeFrequencyDistribution(text).deviation
    keyEntropy: real,             // calculateTextEntropy(key), the entropy bonus of calculateKeyStrength
    randomnessScore: real,        // calculateRandomnessScore(text)
    correlationCoefficient: real) // calculateCorrelation(text)

  /** `PatternAnalysis` as `analyzeText` returns it. */
  datatype PatternAnalysis = PatternAnalysis(repeatingPatterns: seq<AiAnalysis.Pattern>, randomnessScore: real, correlationCoefficient: real)

  /** A `Vulnerability` record. */
  datatype Vulnerability = Vulnerability(id: Str, kind: Str, severity: AiAnalysis.Level, description: Str, mitigation: Str)

  /** The `AnalysisResults` record `runAnalysis` builds. */
  datatype AnalysisResults = AnalysisResults(
    entropy: real, patternAnalysis: PatternAnalysis, frequencyAnalysis: seq<Row>, strength: AiAnalysis.SecurityStrength,
    aiPredictions: seq<AiAnalysis.Prediction>, vulnerabilities: seq<Vulnerability>, recommendations: seq<Recommendation>)

  /** Why `runAnalysis` stops: the toast 'No text to analyze'. */
  datatype Refusal = NoText

  /** `cipherState.outputText || cipherState.inputText` */
  function TextToAnalyze<R>(state: CipherEngine.CipherState<R>): Str
  {
    if state.outputText != [] then state.outputText else state.inputText
  }

  /** The analysis of the state, with the strength record passed as the score. */
  function Analysis<R>(state: CipherEngine.CipherState<R>, est: Estimates, log2: real -> real): Result<AnalysisResults, Refusal>
  {
    if state.outputText == [] && state.inputText == [] then Failure(NoText)
    else
      var text := TextToAnalyze(state);
      var strength := AiAnalysis.SecurityScore(state.key, state.algorithm, est.keyEntropy);
      var predictions := AiAnalysis.Predictions(state.key, est.textEntropy, est.deviation);
      Success(AnalysisResults(
        Entropy(text, log2),
        PatternAnalysis(AiAnalysis.RepeatingPatterns(text), est.randomnessScore, est.correlationCoefficient),
        FrequencyAnalysis(text), strength, predictions, [], Recommendations(Record(strength), predictions)))
  }

  /** `runAnalysis()`: the guard, then each helper in turn and the record. */
  method RunAnalysis<R>(state: CipherEngine.CipherState<R>, est: Estimates, log2: real -> real) returns (outcome: Result<AnalysisResults, Refusal>)
    ensures outcome == Analysis(state, est, log2)
  {
    if state.outputText == [] && state.inputText == [] {
      return Failure(NoText);
    }
    var text := TextToAnalyze(state);
    var entropy := CalculateEntropy(text, log2);
    var patterns := AiAnalysis.FindRepeatingPatterns(text);
    var patternAnalysis := PatternAnalysis(patterns, est.randomnessScore, est.correlationCoefficient);
    var frequencyAnalysis := CalculateFrequencyAnalysis(text);
    var aiPredictions := AiAnalysis.PredictVulnerabilities(state.key, est.textEntropy, est.deviation);
    var securityScore := AiAnalysis.SecurityScore(state.key, state.algorithm, est.keyEntropy);
    var recommendations := GenerateRecommendations(Record(securityScore), aiPredictions);
    outcome := Success(AnalysisResults(entropy, patternAnalysis, frequencyAnalysis, securityScore, aiPredictions, [], recommendations));
  }

  /**
   * The analysis runs exactly when there is an input or an output text, and
   * then reads the output if there is one; the vulnerability list is always
   * empty and the strength is `calculateSecurityScore` of the state.
   */
  lemma AnalysisOutcome<R>(state: CipherEngine.CipherState<R>, est: Estimates, log2: real -> real)
    ensures Analysis(state, est, log2).Failure? <==> state.outputText == [] && state.inputText == []
    ensures Analysis(state, est, log2).Success? ==>
      var r := Analysis(state, est, log2).value;
      && r.vulnerabilities == []
      && r.strength == AiAnalysis.SecurityScore(state.key, state.algorithm, est.keyEntropy)
      && r.frequencyAnalysis == FrequencyAnalysis(if state.outputText != [] then state.outputText else state.inputText)
      && r.entropy == Entropy(if state.outputText != [] then state.outputText else state.inputText, log2)
  {
  }

  /**
   * As called, with the record as the score, neither score pair can appear:
   * the recommendations are the two high-risk strings exactly for keys under
   * 16 units, and none otherwise.
   */
  lemma AsCalledRecommendations<R>(state: CipherEngine.CipherState<R>, est: Estimates, log2: real -> real)
    requires Analysis(state, est, log2).Success?
    ensures Analysis(state, est, log2).value.recommendations
      == if |state.key| < 16 then [AddressHighRisk, QuantumResistantAlgorithms] else []
  {
    AiAnalysis.PredictionsHighRisk(state.key, est.textEntropy, est.deviation);
  }

  /** As called, with the record as the score, the panel always shows red, the destructive badge and 'Weak'. */
  lemma AsCalledDisplay(strength: AiAnalysis.SecurityStrength)
    ensures ScoreColor(Record(strength)) == ComponentHelpers.Red
    ensures ScoreBadge(Record(strength)) == ComponentHelpers.Destructive
    ensures ScoreVerdict(Record(strength)) == WeakScore
  {
  }

  /**
   * Passing the overall score, as the helpers' number parameter intends: the
   * overall score is at least 34 for a non-negative key entropy, so the
   * first pair never appears, the second appears exactly below 60, and the
   * high-risk pair exactly for keys under 16 units.
   */
  lemma IntendedRecommendations(key: Str, algorithm: Str, est: Estimates)
    requires 0.0 <= est.keyEntropy
    ensures var overall := AiAnalysis.SecurityScore(key, algorithm, est.keyEntropy).overall;
      Recommendations(Number(overall as real), AiAnalysis.Predictions(key, est.textEntropy, est.deviation))
        == (if overall < 60 then [AdditionalLayers, KeyRotation] else [])
         + (if |key| < 16 then [AddressHighRisk, QuantumResistantAlgorithms] else [])
  {
    AiAnalysis.SecurityScoreBounds(key, algorithm, est.keyEntropy);
    AiAnalysis.PredictionsHighRisk(key, est.textEntropy, est.deviation);
  }
}
