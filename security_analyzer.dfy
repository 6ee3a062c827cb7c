/**
 * The local analysis of the security analyzer panel: four steps whose result
 * objects are merged by object spread into one object, from which the
 * reported results are read with `||` defaults. The chunk duplicate count,
 * the case-sensitive algorithm table and the fixed assessment numbers are
 * this panel's own.
 */
module SecurityAnalyzer {
  import opened Wrappers
  import opened JsText
  import opened JsMath
  import opened Collections
  import opened JsObject
  import ComponentHelpers

  // ---------------------------------------------------------------------------
  // detectPatterns

  /** A reported pattern: `{ pattern, frequency: count, positions: [] }`. */
  datatype ChunkPattern = ChunkPattern(pattern: Str, frequency: nat, positions: seq<nat>)

  /** The entries whose count is above one, as patterns, in entry order. */
  function RepeatedEntries(e: seq<(Str, nat)>): (r: seq<ChunkPattern>)
    ensures |r| <= |e|
  {
    if e == [] then []
    else
      var last := e[|e| - 1];
      RepeatedEntries(e[..|e| - 1]) + (if last.1 > 1 then [ChunkPattern(last.0, last.1, [])] else [])
  }

  /** The patterns `detectPatterns` reports for a text: the 4-unit chunks seen more than once, in property order. */
  function ChunkPatterns(text: Str): seq<ChunkPattern>
  {
    RepeatedEntries(CountEntries(DotGroups(text, 4)))
  }

  /** The object `detectPatterns` returns. */
  datatype PatternReport = PatternReport(patterns: seq<ChunkPattern>, randomnessScore: int, correlationCoefficient: real)

  /**
   * `detectPatterns(text)`: count the chunks of `text.match(/.{1,4}/g)` in an
   * object, push each entry counted more than once, and score the number of
   * patterns found.
   */
  method DetectPatterns(text: Str) returns (report: PatternReport)
    ensures report.patterns == ChunkPatterns(text)
    ensures report.randomnessScore == Max(0, 100 - 5 * |report.patterns|)
    ensures report.correlationCoefficient == MinReal(1.0, |report.patterns| as real / 10.0)
    ensures 0 <= report.randomnessScore <= 100 && 0.0 <= report.correlationCoefficient <= 1.0
  {
    var chunks := DotGroups(text, 4);
    var frequency := Tally(chunks);
    TallyAgrees(frequency, chunks);
    var patterns := PushRepeated(Entries(frequency));
    report := PatternReport(patterns, Max(0, 100 - |patterns| * 5), MinReal(1.0, |patterns| as real / 10.0));
  }

  /** The loop over `Object.entries(frequency)` that pushes every entry counted more than once. */
  method PushRepeated(entries: seq<(Str, nat)>) returns (patterns: seq<ChunkPattern>)
    ensures patterns == RepeatedEntries(entries)
  {
    patterns := [];
    for i := 0 to |entries|
      invariant patterns == RepeatedEntries(entries[..i])
    {
      assert entries[..i + 1][..i] == entries[..i];
      var (pattern, count) := entries[i];
      if count > 1 {
        patterns := patterns + [ChunkPattern(pattern, count, [])];
      }
    }
    assert entries[..|entries|] == entries;
  }

  /** Every reported pattern comes from an entry counted more than once. */
  lemma {:induction false} RepeatedEntriesSound(e: seq<(Str, nat)>, i: nat) returns (k: nat)
    requires i < |RepeatedEntries(e)|
    ensures k < |e| && e[k].1 > 1
    ensures RepeatedEntries(e)[i] == ChunkPattern(e[k].0, e[k].1, [])
  {
    var init := e[..|e| - 1];
    if i < |RepeatedEntries(init)| {
      k := RepeatedEntriesSound(init, i);
    } else {
      k := |e| - 1;
    }
  }

  /** Every entry counted more than once is reported. */
  lemma {:induction false} RepeatedEntriesComplete(e: seq<(Str, nat)>, k: nat) returns (i: nat)
    requires k < |e| && e[k].1 > 1
    ensures i < |RepeatedEntries(e)| && RepeatedEntries(e)[i] == ChunkPattern(e[k].0, e[k].1, [])
  {
    var init := e[..|e| - 1];
    if k < |e| - 1 {
      i := RepeatedEntriesComplete(init, k);
    } else {
      i := |RepeatedEntries(init)|;
    }
  }

  /** Distinct keys give distinct patterns. */
  lemma {:induction false} RepeatedEntriesDistinct(e: seq<(Str, nat)>)
    requires forall i, j :: 0 <= i < j < |e| ==> e[i].0 != e[j].0
    ensures forall i, j :: 0 <= i < j < |RepeatedEntries(e)| ==> RepeatedEntries(e)[i].pattern != RepeatedEntries(e)[j].pattern
  {
    if e != [] {
      var init := e[..|e| - 1];
      RepeatedEntriesDistinct(init);
      var r := RepeatedEntries(e);
      forall i, j | 0 <= i < j < |r|
        ensures r[i].pattern != r[j].pattern
      {
        if j >= |RepeatedEntries(init)| {
          var a := RepeatedEntriesSound(init, i);
          assert r[i] == RepeatedEntries(init)[i];
        }
      }
    }
  }

  /**
   * The reported patterns are exactly the chunks that occur more than once,
   * each once, with its number of occurrences, and no positions; a chunk has
   * one to four units.
   */
  lemma ChunkPatternsFacts(text: Str)
    ensures forall i :: 0 <= i < |ChunkPatterns(text)| ==>
      var p := ChunkPatterns(text)[i];
      && 1 <= |p.pattern| <= 4
      && p.frequency == Count(DotGroups(text, 4), p.pattern) >= 2
      && p.positions == []
    ensures forall c :: Count(DotGroups(text, 4), c) >= 2 ==>
      exists i :: 0 <= i < |ChunkPatterns(text)| && ChunkPatterns(text)[i].pattern == c
    ensures forall i, j :: 0 <= i < j < |ChunkPatterns(text)| ==> ChunkPatterns(text)[i].pattern != ChunkPatterns(text)[j].pattern
  {
    var chunks := DotGroups(text, 4);
    var e := CountEntries(chunks);
    CountEntriesFacts(chunks);
    var r := ChunkPatterns(text);
    forall i | 0 <= i < |r|
      ensures 1 <= |r[i].pattern| <= 4 && r[i].frequency == Count(chunks, r[i].pattern) >= 2 && r[i].positions == []
    {
      var k := RepeatedEntriesSound(e, i);
      var m :| 0 <= m < |chunks| && chunks[m] == e[k].0;
    }
    forall c | Count(chunks, c) >= 2
      ensures exists i :: 0 <= i < |r| && r[i].pattern == c
    {
      var k :| 0 <= k < |e| && e[k].0 == c;
      var i := RepeatedEntriesComplete(e, k);
    }
    RepeatedEntriesDistinct(e);
  }

  // ---------------------------------------------------------------------------
  // assessSecurity and runAIAnalysis

  /** The object `assessSecurity` returns. */
  datatype Assessment = Assessment(
    keyStrength: nat, algorithmStrength: nat, implementationStrength: nat, quantumResistance: nat, overallStrength: int)

  /**
   * `assessSecurity(text)` for the key and algorithm of the state: the
   * quantum resistance is 85 for exactly "chacha20" and 60 otherwise, but
   * the overall score always averages in 60.
   */
  function AssessSecurity(key: Str, algorithm: Str): (r: Assessment)
    ensures r.keyStrength == ComponentHelpers.KeyStrength(key)
    ensures r.algorithmStrength == ComponentHelpers.ExactAlgorithmStrength(algorithm)
    ensures r.implementationStrength == 77
    ensures r.quantumResistance == if algorithm == Lit("chacha20") then 85 else 60
    ensures var mean := (r.keyStrength + r.algorithmStrength + 77 + 60) as real / 4.0;
      r.overallStrength as real - 0.5 <= mean < r.overallStrength as real + 0.5
  {
    var keyStrength := ComponentHelpers.KeyStrength(key);
    var algorithmStrength := ComponentHelpers.ExactAlgorithmStrength(algorithm);
    Assessment(keyStrength, algorithmStrength, 77, if algorithm == Lit("chacha20") then 85 else 60,
      Round((keyStrength + algorithmStrength + 77 + 60) as real / 4.0))
  }

  /**
   * The overall score lies in [42, 82]; for "chacha20" it is below the
   * average of the four reported parts, because it averages in 60 instead of
   * the reported 85.
   */
  lemma AssessSecurityOverall(key: Str, algorithm: Str)
    ensures 42 <= AssessSecurity(key, algorithm).overallStrength <= 82
    ensures var r := AssessSecurity(key, algorithm);
      algorithm == Lit("chacha20") ==>
        r.overallStrength < Round((r.keyStrength + r.algorithmStrength + r.implementationStrength + r.quantumResistance) as real / 4.0)
  {
    var r := AssessSecurity(key, algorithm);
    var low := (r.keyStrength + r.algorithmStrength + 77 + 60) as real / 4.0;
    RoundFacts(41.75, low, 0);
    RoundFacts(low, 81.75, 0);
    assert Round(41.75) == 42 && Round(81.75) == 82;
  }

  /** The fixed texts of the AI step. */
  datatype Note =
    | PatternAnalysisType | NoSignificantPatterns | KeyBelowMinimum
    | LongerKeys | KeyRotation | MonitorPatterns

  function NoteText(n: Note): string
  {
    match n
    case PatternAnalysisType => "Pattern Analysis"
    case NoSignificantPatterns => "No significant patterns detected in ciphertext"
    case KeyBelowMinimum => "Key length is below recommended minimum"
    case LongerKeys => "Consider using longer keys for enhanced security"
    case KeyRotation => "Regular key rotation is recommended"
    case MonitorPatterns => "Monitor for unusual patterns in encrypted data"
  }

  datatype Impact = Low | Medium | High | Critical

  /** An `AIPrediction` record. */
  datatype AiPrediction = AiPrediction(kind: Note, confidence: real, description: Note, impact: Impact)

  const PatternPrediction := AiPrediction(PatternAnalysisType, 0.8, NoSignificantPatterns, Low)

  /** The object `runAIAnalysis` returns. */
  datatype AiReport = AiReport(aiPredictions: seq<AiPrediction>, vulnerabilities: seq<Note>, recommendations: seq<Note>)

  /**
   * `runAIAnalysis(text)` for the key of the state: one fixed prediction,
   * three fixed recommendations, and the key-length vulnerability exactly
   * when the key has fewer than 16 units.
   */
  function RunAiAnalysis(key: Str): (r: AiReport)
    ensures r.aiPredictions == [PatternPrediction]
    ensures r.recommendations == [LongerKeys, KeyRotation, MonitorPatterns]
    ensures |key| < 16 ==> r.vulnerabilities == [KeyBelowMinimum]
    ensures |key| >= 16 ==> r.vulnerabilities == []
  {
    var vulnerabilities := if |key| < 16 then [KeyBelowMinimum] else [];
    AiReport([PatternPrediction], vulnerabilities, [LongerKeys, KeyRotation, MonitorPatterns])
  }

  // ---------------------------------------------------------------------------
  // runSecurityAnalysis: merging the step results

  /** The properties the step results set. */
  datatype Field =
    | entropy | patterns | randomnessScore | correlationCoefficient
    | keyStrength | algorithmStrength | implementationStrength | quantumResistance | overallStrength
    | aiPredictions | vulnerabilities | recommendations | frequencyAnalysis

  /** A property value: a number or an array. */
  datatype Value =
    | Number(x: real)
    | PatternList(ps: seq<ChunkPattern>)
    | PredictionList(predictions: seq<AiPrediction>)
    | NoteList(notes: seq<Note>)
    | EmptyList

  /** A plain object, by its own properties. */
  type Object = map<Field, Value>

  /** JavaScript truthiness: 0 is falsy, every array is truthy. */
  predicate Truthy(v: Value)
  {
    !(v.Number? && v.x == 0.0)
  }

  /** `{ ...a, ...b }` for each step result in turn: later properties override earlier ones. */
  function Merge(init: Object, steps: seq<Object>): Object
  {
    if steps == [] then init else Merge(init, steps[..|steps| - 1]) + steps[|steps| - 1]
  }

  /** A property takes its value from the last step that sets it. */
  lemma {:induction false} MergeLast(init: Object, steps: seq<Object>, f: Field, i: nat)
    requires i < |steps| && f in steps[i]
    requires forall j :: i < j < |steps| ==> f !in steps[j]
    ensures f in Merge(init, steps) && Merge(init, steps)[f] == steps[i][f]
  {
    if i < |steps| - 1 {
      MergeLast(init, steps[..|steps| - 1], f, i);
    }
  }

  /** A property no step sets keeps its initial value, or stays absent. */
  lemma {:induction false} MergeUntouched(init: Object, steps: seq<Object>, f: Field)
    requires forall j :: 0 <= j < |steps| ==> f !in steps[j]
    ensures f in Merge(init, steps) <==> f in init
    ensures f in init ==> Merge(init, steps)[f] == init[f]
  {
    if steps != [] {
      MergeUntouched(init, steps[..|steps| - 1], f);
    }
  }

  /** The object has property f, with value v. */
  predicate Has(data: Object, f: Field, v: Value)
  {
    f in data && data[f] == v
  }

  /** `object.f || fallback` */
  function Or(data: Object, f: Field, fallback: Value): Value
  {
    if f in data && Truthy(data[f]) then data[f] else fallback
  }

  datatype Strength = Strength(
    overall: Value, keyStrength: Value, algorithmStrength: Value, implementationStrength: Value, quantumResistance: Value)

  datatype PatternAnalysis = PatternAnalysis(repeatingPatterns: Value, randomnessScore: Value, correlationCoefficient: Value)

  /** The `AnalysisResults` record the panel reports. */
  datatype AnalysisResults = AnalysisResults(
    entropy: Value, patternAnalysis: PatternAnalysis, frequencyAnalysis: Value, strength: Strength,
    aiPredictions: Value, vulnerabilities: Value, recommendations: Value)

  /** The results read from the merged object, each falsy or missing property replaced by its default. */
  function Results(data: Object): AnalysisResults
  {
    AnalysisResults(
      Or(data, entropy, Number(4.2)),
      PatternAnalysis(Or(data, patterns, EmptyList), Or(data, randomnessScore, Number(85.0)),
        Or(data, correlationCoefficient, Number(0.15))),
      Or(data, frequencyAnalysis, EmptyList),
      Strength(Or(data, overallStrength, Number(78.0)), Or(data, keyStrength, Number(82.0)),
        Or(data, algorithmStrength, Number(75.0)), Or(data, implementationStrength, Number(77.0)),
        Or(data, quantumResistance, Number(65.0))),
      Or(data, aiPredictions, EmptyList), Or(data, vulnerabilities, EmptyList), Or(data, recommendations, EmptyList))
  }

  /** The object the merge starts from. */
  const Initial: Object :=
    map[entropy := Number(0.0), patterns := PatternList([]), vulnerabilities := NoteList([]), aiPredictions := PredictionList([])]

  /** The result of the pattern step as an object. */
  function PatternObject(r: PatternReport): Object
  {
    map[patterns := PatternList(r.patterns), randomnessScore := Number(r.randomnessScore as real),
      correlationCoefficient := Number(r.correlationCoefficient)]
  }

  /** The result of the assessment step as an object. */
  function AssessmentObject(a: Assessment): Object
  {
    map[keyStrength := Number(a.keyStrength as real), algorithmStrength := Number(a.algorithmStrength as real),
      implementationStrength := Number(a.implementationStrength as real),
      quantumResistance := Number(a.quantumResistance as real), overallStrength := Number(a.overallStrength as real)]
  }

  /** The result of the AI step as an object. */
  function AiObject(r: AiReport): Object
  {
    map[aiPredictions := PredictionList(r.aiPredictions), vulnerabilities := NoteList(r.vulnerabilities),
      recommendations := NoteList(r.recommendations)]
  }

  /**
   * The five step results for a text, given the entropy the entropy step
   * reports for it; the last step resolves to `undefined`, whose spread adds
   * nothing.
   */
  function Steps(textEntropy: real, report: PatternReport, assessment: Assessment, ai: AiReport): seq<Object>
  {
    [map[entropy := Number(textEntropy)], PatternObject(report), AssessmentObject(assessment), AiObject(ai), map[]]
  }

  /** The report `detectPatterns` gives for a text. */
  function PatternsOf(text: Str): PatternReport
  {
    var n := |ChunkPatterns(text)|;
    PatternReport(ChunkPatterns(text), Max(0, 100 - 5 * n), MinReal(1.0, n as real / 10.0))
  }

  /** The results for a panel state, or None when both texts are empty and nothing is analysed. */
  function SecurityAnalysis(inputText: Str, outputText: Str, key: Str, algorithm: Str, textEntropy: real): Option<AnalysisResults>
  {
    if outputText == [] && inputText == [] then None
    else
      var text := if outputText != [] then outputText else inputText;
      Some(Results(Merge(Initial, Steps(textEntropy, PatternsOf(text), AssessSecurity(key, algorithm), RunAiAnalysis(key)))))
  }

  /**
   * `runSecurityAnalysis()`, with the entropy the entropy step obtains given:
   * run the steps in order and spread each result over the data gathered so
   * far, then read the results.
   */
  method RunSecurityAnalysis(inputText: Str, outputText: Str, key: Str, algorithm: Str, textEntropy: real)
    returns (results: Option<AnalysisResults>)
    ensures results == SecurityAnalysis(inputText, outputText, key, algorithm, textEntropy)
  {
    if outputText == [] && inputText == [] {
      return None;
    }
    var text := if outputText != [] then outputText else inputText;
    var report := DetectPatterns(text);
    assert report == PatternsOf(text);
    var steps := Steps(textEntropy, report, AssessSecurity(key, algorithm), RunAiAnalysis(key));
    var analysisData := Initial;
    for s := 0 to |steps|
      invariant analysisData == Merge(Initial, steps[..s])
    {
      assert steps[..s + 1][..s] == steps[..s];
      analysisData := analysisData + steps[s];
    }
    assert steps[..|steps|] == steps;
    results := Some(Results(analysisData));
  }

  /** The entropy comes from the first step, and no step sets the frequency analysis. */
  lemma MergedEntropy(textEntropy: real, report: PatternReport, assessment: Assessment, ai: AiReport)
    ensures var data := Merge(Initial, Steps(textEntropy, report, assessment, ai));
      && Has(data, entropy, Number(textEntropy))
      && frequencyAnalysis !in data
  {
    var steps := Steps(textEntropy, report, assessment, ai);
    MergeLast(Initial, steps, entropy, 0);
    MergeUntouched(Initial, steps, frequencyAnalysis);
  }

  /** The pattern properties come from the pattern step, overriding the initial empty list. */
  lemma MergedPatterns(textEntropy: real, report: PatternReport, assessment: Assessment, ai: AiReport)
    ensures var data := Merge(Initial, Steps(textEntropy, report, assessment, ai));
      && Has(data, patterns, PatternList(report.patterns))
      && Has(data, randomnessScore, Number(report.randomnessScore as real))
      && Has(data, correlationCoefficient, Number(report.correlationCoefficient))
  {
    var steps := Steps(textEntropy, report, assessment, ai);
    MergeLast(Initial, steps, patterns, 1);
    MergeLast(Initial, steps, randomnessScore, 1);
    MergeLast(Initial, steps, correlationCoefficient, 1);
  }

  /** The strength properties come from the assessment step. */
  lemma MergedAssessment(textEntropy: real, report: PatternReport, assessment: Assessment, ai: AiReport)
    ensures var data := Merge(Initial, Steps(textEntropy, report, assessment, ai));
      && Has(data, keyStrength, Number(assessment.keyStrength as real))
      && Has(data, algorithmStrength, Number(assessment.algorithmStrength as real))
      && Has(data, implementationStrength, Number(assessment.implementationStrength as real))
      && Has(data, quantumResistance, Number(assessment.quantumResistance as real))
      && Has(data, overallStrength, Number(assessment.overallStrength as real))
  {
    var steps := Steps(textEntropy, report, assessment, ai);
    MergeLast(Initial, steps, keyStrength, 2);
    MergeLast(Initial, steps, algorithmStrength, 2);
    MergeLast(Initial, steps, implementationStrength, 2);
    MergeLast(Initial, steps, quantumResistance, 2);
    MergeLast(Initial, steps, overallStrength, 2);
  }

  /** The AI properties come from the AI step, overriding the initial empty lists. */
  lemma MergedAi(textEntropy: real, report: PatternReport, assessment: Assessment, ai: AiReport)
    ensures var data := Merge(Initial, Steps(textEntropy, report, assessment, ai));
      && Has(data, aiPredictions, PredictionList(ai.aiPredictions))
      && Has(data, vulnerabilities, NoteList(ai.vulnerabilities))
      && Has(data, recommendations, NoteList(ai.recommendations))
  {
    var steps := Steps(textEntropy, report, assessment, ai);
    MergeLast(Initial, steps, aiPredictions, 3);
    MergeLast(Initial, steps, vulnerabilities, 3);
    MergeLast(Initial, steps, recommendations, 3);
  }

  /**
   * What the panel reports for a non-empty text: every computed value, except
   * that a zero entropy becomes 4.2, an empty key's strength 0 becomes 82, a
   * randomness score of 0 (twenty patterns or more) becomes 85, a zero
   * correlation (no pattern) becomes 0.15, and the frequency analysis no step
   * sets is empty.
   */
  lemma SecurityAnalysisReport(text: Str, key: Str, algorithm: Str, textEntropy: real)
    requires text != []
    ensures var r := SecurityAnalysis([], text, key, algorithm, textEntropy).value;
      var n := |ChunkPatterns(text)|;
      var a := AssessSecurity(key, algorithm);
      && r.entropy == Number(if textEntropy == 0.0 then 4.2 else textEntropy)
      && r.patternAnalysis.repeatingPatterns == PatternList(ChunkPatterns(text))
      && r.patternAnalysis.randomnessScore == Number(if n >= 20 then 85.0 else (100 - 5 * n) as real)
      && r.patternAnalysis.correlationCoefficient == Number(if n == 0 then 0.15 else MinReal(1.0, n as real / 10.0))
      && r.frequencyAnalysis == EmptyList
      && r.strength.overall == Number(a.overallStrength as real)
      && r.strength.keyStrength == Number(if key == [] then 82.0 else ComponentHelpers.KeyStrength(key) as real)
      && r.strength.algorithmStrength == Number(ComponentHelpers.ExactAlgorithmStrength(algorithm) as real)
      && r.strength.implementationStrength == Number(77.0)
      && r.strength.quantumResistance == Number(if algorithm == Lit("chacha20") then 85.0 else 60.0)
      && r.aiPredictions == PredictionList([PatternPrediction])
      && r.vulnerabilities == NoteList(if |key| < 16 then [KeyBelowMinimum] else [])
      && r.recommendations == NoteList([LongerKeys, KeyRotation, MonitorPatterns])
  {
    var report, assessment, ai := PatternsOf(text), AssessSecurity(key, algorithm), RunAiAnalysis(key);
    MergedEntropy(textEntropy, report, assessment, ai);
    MergedPatterns(textEntropy, report, assessment, ai);
    MergedAssessment(textEntropy, report, assessment, ai);
    MergedAi(textEntropy, report, assessment, ai);
    AssessSecurityOverall(key, algorithm);
  }

  /** Nothing is analysed exactly when both texts are empty; the output text is preferred. */
  lemma SecurityAnalysisText(inputText: Str, outputText: Str, key: Str, algorithm: Str, textEntropy: real)
    ensures SecurityAnalysis(inputText, outputText, key, algorithm, textEntropy).None? <==> inputText == [] && outputText == []
    ensures outputText != [] ==>
      SecurityAnalysis(inputText, outputText, key, algorithm, textEntropy) == SecurityAnalysis([], outputText, key, algorithm, textEntropy)
  {
  }
}
