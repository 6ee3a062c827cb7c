/**
 * The analysis helpers of `src/utils/aiAnalysis.ts`: the repeating-substring
 * finder, the rule list of vulnerability predictions, the weighted security
 * score and its key, algorithm and quantum-resistance parts.
 *
 * Shannon entropy and the standard deviation of character frequencies are
 * floating-point computations; the functions that consume them take their
 * values as parameters.
 */
module AiAnalysis {
  import opened JsText
  import opened JsMath
  import opened Collections

  // ---------------------------------------------------------------------------
  // findRepeatingPatterns

  /** A `Pattern` record: a substring, how often it occurs, and where. */
  datatype Pattern = Pattern(pattern: Str, frequency: nat, positions: seq<nat>)

  /** The sort key of the result. */
  function Frequency(p: Pattern): nat
  {
    p.frequency
  }

  /** `Math.min(10, Math.floor(text.length / 2))` */
  function MaxPatternLength(n: nat): (m: nat)
    ensures m <= 10 && m <= n / 2 && (m == 10 || m == n / 2)
  {
    if n / 2 < 10 then n / 2 else 10
  }

  /** `text.substring(i, i + len)` */
  function Window(text: Str, len: nat, i: nat): (w: Str)
    requires i + len <= |text|
    ensures |w| == len
  {
    text[i..i + len]
  }

  /** The windows of length len starting at 0, 1, …, upTo - 1. */
  function Windows(text: Str, len: nat, upTo: nat): (r: seq<Str>)
    requires upTo + len <= |text| + 1
    ensures |r| == upTo
    ensures forall k :: 0 <= k < upTo ==> |r[k]| == len
  {
    if upTo == 0 then [] else Windows(text, len, upTo - 1) + [Window(text, len, upTo - 1)]
  }

  lemma {:induction false} WindowsAt(text: Str, len: nat, upTo: nat, k: nat)
    requires upTo + len <= |text| + 1
    requires k < upTo
    ensures Windows(text, len, upTo)[k] == Window(text, len, k)
  {
    if k < upTo - 1 {
      WindowsAt(text, len, upTo - 1, k);
    }
  }

  /** The number of windows of length len in text. */
  function Starts(text: Str, len: nat): (n: nat)
    requires len <= |text|
    ensures n + len == |text| + 1
  {
    |text| - len + 1
  }

  /** The starts below upTo of the windows of length len equal to p, ascending. */
  function Occurrences(text: Str, p: Str, len: nat, upTo: nat): (r: seq<nat>)
    requires upTo + len <= |text| + 1
  {
    if upTo == 0 then []
    else Occurrences(text, p, len, upTo - 1) + (if Window(text, len, upTo - 1) == p then [upTo - 1] else [])
  }

  lemma WindowsSnoc(text: Str, len: nat, i: nat)
    requires i + len <= |text|
    ensures Windows(text, len, i + 1) == Windows(text, len, i) + [text[i..i + len]]
  {
  }

  lemma OccurrencesSnoc(text: Str, p: Str, len: nat, i: nat)
    requires i + len <= |text|
    ensures Occurrences(text, p, len, i + 1) ==
      Occurrences(text, p, len, i) + (if text[i..i + len] == p then [i] else [])
  {
  }

  /** The list holds starts below upTo of windows equal to p, ascending. */
  lemma {:induction false} OccurrencesSound(text: Str, p: Str, len: nat, upTo: nat)
    requires upTo + len <= |text| + 1
    ensures forall k :: 0 <= k < |Occurrences(text, p, len, upTo)| ==>
      Occurrences(text, p, len, upTo)[k] < upTo && Window(text, len, Occurrences(text, p, len, upTo)[k]) == p
    ensures forall k, l :: 0 <= k < l < |Occurrences(text, p, len, upTo)| ==>
      Occurrences(text, p, len, upTo)[k] < Occurrences(text, p, len, upTo)[l]
  {
    if upTo > 0 {
      OccurrencesSound(text, p, len, upTo - 1);
    }
  }

  /** Every start below upTo of a window equal to p is in the list. */
  lemma {:induction false} OccurrencesComplete(text: Str, p: Str, len: nat, upTo: nat, i: nat)
    requires upTo + len <= |text| + 1
    requires i < upTo && Window(text, len, i) == p
    ensures i in Occurrences(text, p, len, upTo)
  {
    if i < upTo - 1 {
      OccurrencesComplete(text, p, len, upTo - 1, i);
    }
  }

  /** Two starts of windows equal to p give a list of more than one. */
  lemma {:induction false} OccurrencesTwo(text: Str, p: Str, len: nat, upTo: nat, i: nat, j: nat)
    requires upTo + len <= |text| + 1
    requires i < j < upTo && Window(text, len, i) == p && Window(text, len, j) == p
    ensures |Occurrences(text, p, len, upTo)| > 1
  {
    if j == upTo - 1 {
      OccurrencesComplete(text, p, len, upTo - 1, i);
    } else {
      OccurrencesTwo(text, p, len, upTo - 1, i, j);
    }
  }

  /** A window occurs somewhere before upTo exactly when it has a start there. */
  lemma OccurrencesEmpty(text: Str, p: Str, len: nat, upTo: nat)
    requires upTo + len <= |text| + 1
    ensures Occurrences(text, p, len, upTo) == [] <==> p !in Windows(text, len, upTo)
  {
    var r := Occurrences(text, p, len, upTo);
    var w := Windows(text, len, upTo);
    if p in w {
      var k :| 0 <= k < |w| && w[k] == p;
      WindowsAt(text, len, upTo, k);
      OccurrencesComplete(text, p, len, upTo, k);
    }
    if r != [] {
      OccurrencesSound(text, p, len, upTo);
      WindowsAt(text, len, upTo, r[0]);
      assert w[r[0]] == p;
    }
  }

  /**
   * The entries the filter loop pushes for one length: the keys in Map order
   * whose position list has more than one element.
   */
  function Repeated(text: Str, len: nat, upTo: nat, keys: seq<Str>): (r: seq<Pattern>)
    requires upTo + len <= |text| + 1
  {
    if keys == [] then []
    else
      var p := keys[|keys| - 1];
      var positions := Occurrences(text, p, len, upTo);
      Repeated(text, len, upTo, keys[..|keys| - 1])
        + (if |positions| > 1 then [Pattern(p, |positions|, positions)] else [])
  }

  /** Repeated over one more key adds that key's entry, if it has one. */
  lemma RepeatedSnoc(text: Str, len: nat, upTo: nat, keys: seq<Str>, p: Str)
    requires upTo + len <= |text| + 1
    ensures Repeated(text, len, upTo, keys + [p]) == Repeated(text, len, upTo, keys) +
      (if |Occurrences(text, p, len, upTo)| > 1
       then [Pattern(p, |Occurrences(text, p, len, upTo)|, Occurrences(text, p, len, upTo))] else [])
  {
    assert (keys + [p])[..|keys + [p]| - 1] == keys;
  }

  /** The entries for one pattern length, keyed in order of first occurrence as the Map is. */
  function PatternsOfLength(text: Str, len: nat): seq<Pattern>
    requires 1 <= len <= |text|
  {
    var n := Starts(text, len);
    Repeated(text, len, n, Distinct(Windows(text, len, n)))
  }

  /** The unsorted list after the loops over lengths 2, 3, …, m. */
  function Generated(text: Str, m: nat): seq<Pattern>
    requires m <= 1 || m <= MaxPatternLength(|text|)
  {
    if m < 2 then [] else Generated(text, m - 1) + PatternsOfLength(text, m)
  }

  /** What `findRepeatingPatterns(text)` returns. */
  function RepeatingPatterns(text: Str): seq<Pattern>
  {
    Take(SortDescending(Generated(text, MaxPatternLength(|text|)), Frequency), 10)
  }

  /** The Map of position lists after the windows starting before upTo, and its key order. */
  ghost predicate Indexed(text: Str, len: nat, upTo: nat, positionsOf: map<Str, seq<nat>>, order: seq<Str>)
    requires upTo + len <= |text| + 1
  {
    && order == Distinct(Windows(text, len, upTo))
    && (forall p :: p in positionsOf <==> p in order)
    && (forall p :: p in positionsOf ==> positionsOf[p] == Occurrences(text, p, len, upTo))
  }

  /** Recording the window at i keeps the Map and its key order up to date. */
  lemma IndexedStep(text: Str, len: nat, i: nat, positionsOf: map<Str, seq<nat>>, order: seq<Str>)
    requires i + len <= |text|
    requires Indexed(text, len, i, positionsOf, order)
    ensures var p := text[i..i + len];
      Indexed(text, len, i + 1,
        positionsOf[p := (if p in positionsOf then positionsOf[p] else []) + [i]],
        if p in positionsOf then order else order + [p])
  {
    var p := text[i..i + len];
    IndexedNext(text, len, i, p, positionsOf, order,
      positionsOf[p := (if p in positionsOf then positionsOf[p] else []) + [i]],
      if p in positionsOf then order else order + [p]);
  }

  // `IndexedStep` with the new Map and key order named.
  lemma IndexedNext(text: Str, len: nat, i: nat, p: Str, positionsOf: map<Str, seq<nat>>, order: seq<Str>,
                    next: map<Str, seq<nat>>, nextOrder: seq<Str>)
    requires i + len <= |text| && p == text[i..i + len]
    requires Indexed(text, len, i, positionsOf, order)
    requires next == positionsOf[p := (if p in positionsOf then positionsOf[p] else []) + [i]]
    requires nextOrder == if p in positionsOf then order else order + [p]
    ensures Indexed(text, len, i + 1, next, nextOrder)
  {
    IndexedKeys(text, len, i, p, positionsOf, order, next, nextOrder);
    IndexedPositions(text, len, i, p, positionsOf, order, next);
  }

  /** The key order gains the window exactly when the window is new, and stays the Map's key set. */
  lemma IndexedKeys(text: Str, len: nat, i: nat, p: Str, positionsOf: map<Str, seq<nat>>, order: seq<Str>,
                    next: map<Str, seq<nat>>, nextOrder: seq<Str>)
    requires i + len <= |text| && p == text[i..i + len]
    requires Indexed(text, len, i, positionsOf, order)
    requires next == positionsOf[p := (if p in positionsOf then positionsOf[p] else []) + [i]]
    requires nextOrder == if p in positionsOf then order else order + [p]
    ensures nextOrder == Distinct(Windows(text, len, i + 1))
    ensures forall q :: q in next <==> q in nextOrder
  {
    var w := Windows(text, len, i);
    WindowsSnoc(text, len, i);
    DistinctSnoc(w, p);
    DistinctProperties(w);
  }

  /** Appending i to the window's list keeps every list equal to the window's occurrences. */
  lemma IndexedPositions(text: Str, len: nat, i: nat, p: Str, positionsOf: map<Str, seq<nat>>, order: seq<Str>,
                         next: map<Str, seq<nat>>)
    requires i + len <= |text| && p == text[i..i + len]
    requires Indexed(text, len, i, positionsOf, order)
    requires next == positionsOf[p := (if p in positionsOf then positionsOf[p] else []) + [i]]
    ensures forall q :: q in next ==> next[q] == Occurrences(text, q, len, i + 1)
  {
    if p !in positionsOf {
      DistinctProperties(Windows(text, len, i));
      OccurrencesEmpty(text, p, len, i);
    }
    forall q | q in next
      ensures next[q] == Occurrences(text, q, len, i + 1)
    {
      OccurrencesSnoc(text, q, len, i);
    }
  }

  /** The first inner loop: every window of length len recorded in the Map under its substring. */
  method IndexWindows(text: Str, len: nat) returns (positionsOf: map<Str, seq<nat>>, order: seq<Str>)
    requires 1 <= len <= |text|
    ensures Indexed(text, len, Starts(text, len), positionsOf, order)
  {
    positionsOf, order := map[], [];
    var i := 0;
    while i <= |text| - len
      invariant i <= Starts(text, len)
      invariant Indexed(text, len, i, positionsOf, order)
    {
      var pattern := text[i..i + len];
      IndexedStep(text, len, i, positionsOf, order);
      if pattern !in positionsOf {
        positionsOf := positionsOf[pattern := []];
        order := order + [pattern];
      }
      positionsOf := positionsOf[pattern := positionsOf[pattern] + [i]];
      i := i + 1;
    }
  }

  /** One pass of the outer loop: the Map for one length, then the filter over its entries. */
  method CollectPatterns(text: Str, len: nat) returns (found: seq<Pattern>)
    requires 1 <= len <= |text|
    ensures found == PatternsOfLength(text, len)
  {
    var positionsOf, order := IndexWindows(text, len);
    found := FilterRepeated(text, len, positionsOf, order);
  }

  /** The second inner loop: the entries of the Map whose position list has more than one element. */
  method FilterRepeated(text: Str, len: nat, positionsOf: map<Str, seq<nat>>, order: seq<Str>)
    returns (found: seq<Pattern>)
    requires 1 <= len <= |text|
    requires forall q :: q in order ==> q in positionsOf && positionsOf[q] == Occurrences(text, q, len, Starts(text, len))
    ensures found == Repeated(text, len, Starts(text, len), order)
  {
    ghost var n := Starts(text, len);
    found := [];
    for k := 0 to |order|
      invariant found == Repeated(text, len, n, order[..k])
    {
      var p := order[k];
      assert order[..k + 1] == order[..k] + [p];
      RepeatedSnoc(text, len, n, order[..k], p);
      var positions := positionsOf[p];
      if |positions| > 1 {
        found := found + [Pattern(p, |positions|, positions)];
      }
    }
    assert order[..|order|] == order;
  }

  /**
   * `findRepeatingPatterns`: for each length from 2 to min(10, ⌊n/2⌋), every
   * substring of that length starting more than once, then sorted by
   * frequency (stably) and cut to ten entries.
   */
  method FindRepeatingPatterns(text: Str) returns (result: seq<Pattern>)
    ensures result == RepeatingPatterns(text)
  {
    var patterns: seq<Pattern> := [];
    var maxLen := MaxPatternLength(|text|);
    var len := 2;
    while len <= maxLen
      invariant 2 <= len <= maxLen + 1 || (len == 2 && maxLen < 2)
      invariant patterns == Generated(text, len - 1)
    {
      var found := CollectPatterns(text, len);
      patterns := patterns + found;
      len := len + 1;
    }
    result := Take(SortDescending(patterns, Frequency), 10);
  }

  /**
   * A reported entry: a substring of length 2 to min(10, ⌊n/2⌋) whose
   * positions are all its starts in the text, ascending, at least two of them,
   * and whose frequency is their number.
   */
  ghost predicate Repeats(text: Str, p: Pattern)
  {
    && 2 <= |p.pattern| <= MaxPatternLength(|text|)
    && p.frequency == |p.positions| >= 2
    && (forall k, l :: 0 <= k < l < |p.positions| ==> p.positions[k] < p.positions[l])
    && (forall k :: 0 <= k < |p.positions| ==> OccursAt(text, p.pattern, p.positions[k]))
    && (forall i :: OccursAt(text, p.pattern, i) ==> i in p.positions)
  }

  /** Every entry of ps is a reported entry for text. */
  ghost predicate AllRepeat(text: Str, ps: seq<Pattern>)
  {
    forall k :: 0 <= k < |ps| ==> Repeats(text, ps[k])
  }

  lemma {:induction false} RepeatedRepeats(text: Str, len: nat, keys: seq<Str>)
    requires 2 <= len <= MaxPatternLength(|text|)
    requires forall k :: 0 <= k < |keys| ==> |keys[k]| == len
    ensures AllRepeat(text, Repeated(text, len, Starts(text, len), keys))
  {
    var n := Starts(text, len);
    if keys != [] {
      var init := keys[..|keys| - 1];
      RepeatedRepeats(text, len, init);
      var p := keys[|keys| - 1];
      var positions := Occurrences(text, p, len, n);
      if |positions| > 1 {
        var e := Pattern(p, |positions|, positions);
        OccurrencesSound(text, p, len, n);
        forall i | OccursAt(text, p, i)
          ensures i in positions
        {
          OccurrencesComplete(text, p, len, n, i);
        }
        assert Repeats(text, e);
      }
    }
  }

  lemma {:induction false} GeneratedRepeats(text: Str, m: nat)
    requires m <= 1 || m <= MaxPatternLength(|text|)
    ensures AllRepeat(text, Generated(text, m))
  {
    if m >= 2 {
      GeneratedRepeats(text, m - 1);
      var n := Starts(text, m);
      var keys := Distinct(Windows(text, m, n));
      DistinctProperties(Windows(text, m, n));
      forall k | 0 <= k < |keys|
        ensures |keys[k]| == m
      {
        assert keys[k] in Windows(text, m, n);
      }
      RepeatedRepeats(text, m, keys);
      assert Generated(text, m) == Generated(text, m - 1) + Repeated(text, m, n, keys);
      AllRepeatConcat(text, Generated(text, m - 1), Repeated(text, m, n, keys));
    }
  }

  /** Reported entries stay reported when two lists of them are joined. */
  lemma AllRepeatConcat(text: Str, a: seq<Pattern>, b: seq<Pattern>)
    requires AllRepeat(text, a) && AllRepeat(text, b)
    ensures AllRepeat(text, a + b)
  {
    forall k | 0 <= k < |a + b|
      ensures Repeats(text, (a + b)[k])
    {
      if k < |a| {
        assert (a + b)[k] == a[k];
      } else {
        assert (a + b)[k] == b[k - |a|];
      }
    }
  }

  /** An entry for p is pushed when p is a key and starts more than once. */
  lemma {:induction false} RepeatedHas(text: Str, len: nat, upTo: nat, keys: seq<Str>, p: Str) returns (k: nat)
    requires upTo + len <= |text| + 1
    requires p in keys && |Occurrences(text, p, len, upTo)| > 1
    ensures k < |Repeated(text, len, upTo, keys)| && Repeated(text, len, upTo, keys)[k].pattern == p
  {
    var r := Repeated(text, len, upTo, keys);
    var init := keys[..|keys| - 1];
    if p == keys[|keys| - 1] {
      k := |r| - 1;
    } else {
      assert p in init;
      k := RepeatedHas(text, len, upTo, init, p);
      assert r[k] == Repeated(text, len, upTo, init)[k];
    }
  }

  /** A substring of length len found at two starts is among the patterns of that length. */
  lemma PatternsOfLengthHas(text: Str, len: nat, p: Str, i: nat, j: nat) returns (k: nat)
    requires 1 <= len <= |text| && |p| == len
    requires i < j && OccursAt(text, p, i) && OccursAt(text, p, j)
    ensures k < |PatternsOfLength(text, len)| && PatternsOfLength(text, len)[k].pattern == p
  {
    var n := Starts(text, len);
    var w := Windows(text, len, n);
    var keys := Distinct(w);
    assert |Occurrences(text, p, len, n)| > 1 by {
      OccurrencesTwo(text, p, len, n, i, j);
    }
    assert p in keys by {
      WindowsAt(text, len, n, i);
      assert w[i] == p;
      DistinctProperties(w);
    }
    k := RepeatedHas(text, len, n, keys, p);
  }

  /** A substring of length 2 to m found at two starts is among the patterns up to length m. */
  lemma {:induction false} GeneratedHas(text: Str, m: nat, p: Str, i: nat, j: nat) returns (k: nat)
    requires m <= 1 || m <= MaxPatternLength(|text|)
    requires 2 <= |p| <= m
    requires i < j && OccursAt(text, p, i) && OccursAt(text, p, j)
    ensures k < |Generated(text, m)| && Generated(text, m)[k].pattern == p
  {
    var g := Generated(text, m);
    var prev := Generated(text, m - 1);
    var here := PatternsOfLength(text, m);
    assert g == prev + here;
    if |p| == m {
      var l := PatternsOfLengthHas(text, m, p, i, j);
      k := |prev| + l;
      assert g[k] == here[l];
    } else {
      k := GeneratedHas(text, m - 1, p, i, j);
      assert g[k] == prev[k];
    }
  }

  lemma RepeatingPatternsComplete(text: Str, p: Str, i: nat, j: nat)
    requires 2 <= |p| <= MaxPatternLength(|text|)
    requires i < j && OccursAt(text, p, i) && OccursAt(text, p, j)
    ensures exists k :: 0 <= k < |Generated(text, MaxPatternLength(|text|))| && Generated(text, MaxPatternLength(|text|))[k].pattern == p
    ensures |Generated(text, MaxPatternLength(|text|))| <= 10 ==>
      exists k :: 0 <= k < |RepeatingPatterns(text)| && RepeatingPatterns(text)[k].pattern == p
  {
    var g := Generated(text, MaxPatternLength(|text|));
    var k := GeneratedHas(text, MaxPatternLength(|text|), p, i, j);
    if |g| <= 10 {
      SortDescendingCorrect(g, Frequency);
      var r := RepeatingPatterns(text);
      assert g[k] in multiset(SortDescending(g, Frequency));
      assert r == SortDescending(g, Frequency);
      var l :| 0 <= l < |r| && r[l] == g[k];
    }
  }

  /** Texts shorter than four code units have no pattern length to try. */
  lemma ShortTextHasNoPatterns(text: Str)
    requires |text| < 4
    ensures RepeatingPatterns(text) == []
  {
  }

  /** A single entry found is the whole result. */
  lemma RepeatingPatternsSingle(text: Str, x: Pattern)
    requires Generated(text, MaxPatternLength(|text|)) == [x]
    ensures RepeatingPatterns(text) == [x]
  {
    SortDescendingSingle(x, Frequency);
  }

  /** Overlapping starts count: in "aaaa", "aa" starts at 0, 1 and 2. */
  lemma OverlappingOccurrences()
    ensures Occurrences([97, 97, 97, 97], [97, 97], 2, 3) == [0, 1, 2]
  {
    var a: Str := [97, 97, 97, 97];
    assert Window(a, 2, 0) == [97, 97] && Window(a, 2, 1) == [97, 97] && Window(a, 2, 2) == [97, 97];
  }

  /** "aaaa" reports "aa" with frequency 3. */
  lemma RepeatingPatternsOverlap()
    ensures RepeatingPatterns([97, 97, 97, 97]) == [Pattern([97, 97], 3, [0, 1, 2])]
  {
    var a: Str := [97, 97, 97, 97];
    var aa: Str := [97, 97];
    assert Window(a, 2, 0) == aa && Window(a, 2, 1) == aa && Window(a, 2, 2) == aa;
    assert Windows(a, 2, 3) == [aa, aa, aa];
    DistinctSnoc([], aa);
    DistinctSnoc([aa], aa);
    DistinctSnoc([aa, aa], aa);
    assert Distinct(Windows(a, 2, 3)) == [aa];
    OverlappingOccurrences();
    assert [aa][..0] == [];
    assert Repeated(a, 2, 3, [aa]) == [Pattern(aa, 3, [0, 1, 2])];
    assert PatternsOfLength(a, 2) == [Pattern(aa, 3, [0, 1, 2])];
    RepeatingPatternsSingle(a, Pattern(aa, 3, [0, 1, 2]));
  }

  // ---------------------------------------------------------------------------
  // predictVulnerabilities

  datatype PredictionType = Weakness | Strength | Optimization | Threat

  datatype Level = Low | Medium | High | Critical

  /** The description of each rule, by name; `Text` gives its wording. */
  datatype Message =
    | ShortKeyMessage | LowEntropyMessage | UnevenDistributionMessage
    | HighEntropyMessage | ChaChaMessage | QuantumMessage

  function Text(m: Message): string
  {
    match m
    case ShortKeyMessage => "Short key length detected. Vulnerable to brute force attacks."
    case LowEntropyMessage => "Low entropy detected. Text may have predictable patterns."
    case UnevenDistributionMessage => "Uneven character distribution suggests weak encryption."
    case HighEntropyMessage => "High entropy indicates good randomness properties."
    case ChaChaMessage => "Consider using ChaCha20 for better performance and security."
    case QuantumMessage => "Current algorithm may be vulnerable to future quantum attacks."
  }

  /** An `AIPrediction` with the `risk` field the rules add to it. */
  datatype Prediction = Prediction(kind: PredictionType, confidence: real, description: Message, impact: Level, risk: Level)

  const ShortKeyWeakness := Prediction(Weakness, 0.85, ShortKeyMessage, High, High)
  const LowEntropyWeakness := Prediction(Weakness, 0.72, LowEntropyMessage, Medium, Medium)
  const UnevenDistributionWeakness := Prediction(Weakness, 0.68, UnevenDistributionMessage, Medium, Medium)
  const HighEntropyStrength := Prediction(Strength, 0.91, HighEntropyMessage, Low, Low)
  const ChaChaOptimization := Prediction(Optimization, 0.76, ChaChaMessage, Low, Low)
  const QuantumThreat := Prediction(Threat, 0.45, QuantumMessage, High, Medium)

  /** The six rules in the order they run. */
  const Rules: seq<Prediction> :=
    [ShortKeyWeakness, LowEntropyWeakness, UnevenDistributionWeakness, HighEntropyStrength, ChaChaOptimization, QuantumThreat]

  /** The condition of rule k: the last two rules always fire. */
  predicate Fires(k: nat, key: Str, entropy: real, deviation: real)
  {
    if k == 0 then |key| < 16
    else if k == 1 then entropy < 3.5
    else if k == 2 then deviation > 0.3
    else if k == 3 then entropy > 7.0
    else true
  }

  /** The records of the rules from k on whose condition holds, in rule order. */
  function FiredFrom(k: nat, key: Str, entropy: real, deviation: real): seq<Prediction>
    decreases 6 - k
  {
    if k >= 6 then [] else (if Fires(k, key, entropy, deviation) then [Rules[k]] else []) + FiredFrom(k + 1, key, entropy, deviation)
  }

  /** The rule table read declaratively: every rule whose condition holds, in order. */
  function Predictions(key: Str, entropy: real, deviation: real): seq<Prediction>
  {
    FiredFrom(0, key, entropy, deviation)
  }

  /**
   * `predictVulnerabilities(text, key)`, given the Shannon entropy of the text
   * and the deviation of its character frequencies: it pushes the record of
   * each rule whose condition holds.
   */
  method PredictVulnerabilities(key: Str, entropy: real, deviation: real) returns (predictions: seq<Prediction>)
    ensures predictions == Predictions(key, entropy, deviation)
  {
    predictions := [];
    if |key| < 16 {
      predictions := predictions + [ShortKeyWeakness];
    }
    if entropy < 3.5 {
      predictions := predictions + [LowEntropyWeakness];
    }
    if deviation > 0.3 {
      predictions := predictions + [UnevenDistributionWeakness];
    }
    if entropy > 7.0 {
      predictions := predictions + [HighEntropyStrength];
    }
    predictions := predictions + [ChaChaOptimization];
    predictions := predictions + [QuantumThreat];
    PredictionsUnfold(key, entropy, deviation);
  }

  /** The list the rules build, written out. */
  lemma PredictionsUnfold(key: Str, entropy: real, deviation: real)
    ensures Predictions(key, entropy, deviation)
      == (if |key| < 16 then [ShortKeyWeakness] else []) + ((if entropy < 3.5 then [LowEntropyWeakness] else [])
       + ((if deviation > 0.3 then [UnevenDistributionWeakness] else []) + ((if entropy > 7.0 then [HighEntropyStrength] else [])
       + [ChaChaOptimization, QuantumThreat])))
  {
    var tail := [ChaChaOptimization, QuantumThreat];
    assert FiredFrom(4, key, entropy, deviation) == tail;
    var r3 := (if entropy > 7.0 then [HighEntropyStrength] else []) + tail;
    assert FiredFrom(3, key, entropy, deviation) == r3;
    var r2 := (if deviation > 0.3 then [UnevenDistributionWeakness] else []) + r3;
    assert FiredFrom(2, key, entropy, deviation) == r2;
    var r1 := (if entropy < 3.5 then [LowEntropyWeakness] else []) + r2;
    assert FiredFrom(1, key, entropy, deviation) == r1;
    assert FiredFrom(0, key, entropy, deviation) == (if |key| < 16 then [ShortKeyWeakness] else []) + r1;
  }

  /** Each warning appears exactly when its condition holds. */
  lemma PredictionsRules(key: Str, entropy: real, deviation: real)
    ensures ShortKeyWeakness in Predictions(key, entropy, deviation) <==> |key| < 16
    ensures LowEntropyWeakness in Predictions(key, entropy, deviation) <==> entropy < 3.5
    ensures UnevenDistributionWeakness in Predictions(key, entropy, deviation) <==> deviation > 0.3
    ensures HighEntropyStrength in Predictions(key, entropy, deviation) <==> entropy > 7.0
  {
    PredictionsUnfold(key, entropy, deviation);
  }

  /**
   * The ChaCha20 hint and the quantum threat always close the list; as
   * entropy cannot be both below 3.5 and above 7.0, the list has 2 to 5
   * entries.
   */
  lemma PredictionsShape(key: Str, entropy: real, deviation: real)
    ensures var r := Predictions(key, entropy, deviation);
      && 2 <= |r| <= 5
      && r[|r| - 2] == ChaChaOptimization && r[|r| - 1] == QuantumThreat
  {
    PredictionsUnfold(key, entropy, deviation);
  }

  /** Among the rules from k on, only the first rule has risk high. */
  lemma {:induction false} FiredFromHighRisk(k: nat, key: Str, entropy: real, deviation: real)
    decreases 6 - k
    ensures forall i :: 0 <= i < |FiredFrom(k, key, entropy, deviation)| && FiredFrom(k, key, entropy, deviation)[i].risk == High ==>
      k == 0 && i == 0 && FiredFrom(k, key, entropy, deviation)[i] == ShortKeyWeakness
  {
    if k < 6 {
      FiredFromHighRisk(k + 1, key, entropy, deviation);
      var head := if Fires(k, key, entropy, deviation) then [Rules[k]] else [];
      var tail := FiredFrom(k + 1, key, entropy, deviation);
      var r := FiredFrom(k, key, entropy, deviation);
      assert r == head + tail;
      forall i | |head| <= i < |r|
        ensures r[i] == tail[i - |head|]
      {
      }
    }
  }

  /** The short-key warning is the only rule with risk high, so a high risk is reported exactly for keys under 16 units. */
  lemma PredictionsHighRisk(key: Str, entropy: real, deviation: real)
    ensures forall i :: 0 <= i < |Predictions(key, entropy, deviation)| && Predictions(key, entropy, deviation)[i].risk == High ==>
      Predictions(key, entropy, deviation)[i] == ShortKeyWeakness
    ensures (exists i :: 0 <= i < |Predictions(key, entropy, deviation)| && Predictions(key, entropy, deviation)[i].risk == High)
      <==> |key| < 16
  {
    FiredFromHighRisk(0, key, entropy, deviation);
    var r := Predictions(key, entropy, deviation);
    if |key| < 16 {
      assert r[0] == ShortKeyWeakness;
    } else {
      assert r == FiredFrom(1, key, entropy, deviation);
      FiredFromHighRisk(1, key, entropy, deviation);
    }
  }

  // ---------------------------------------------------------------------------
  // calculateSecurityScore and its parts

  /**
   * `calculateKeyStrength(key)`, given the Shannon entropy of the key: a
   * length bonus of up to 30, 15 per character class and an entropy bonus of
   * up to 10, so the cap of 100 never binds; an empty key scores 0 and any
   * other at least 17.
   */
  function KeyStrength(key: Str, keyEntropy: real): (s: real)
    ensures key == [] ==> s == 0.0
    ensures key != [] ==> s == MinReal(30.0, 2.0 * |key| as real) + 15.0 * ClassCount(key) as real + MinReal(10.0, 2.0 * keyEntropy)
    ensures 0.0 <= keyEntropy ==> 0.0 <= s <= 100.0
    ensures key != [] && 0.0 <= keyEntropy ==> 17.0 <= s
  {
    if key == [] then 0.0
    else
      var score := MinReal(30.0, 2.0 * |key| as real)
        + (if HasLower(key) then 15.0 else 0.0) + (if HasUpper(key) then 15.0 else 0.0)
        + (if HasDigit(key) then 15.0 else 0.0) + (if HasSymbol(key) then 15.0 else 0.0)
        + MinReal(10.0, 2.0 * keyEntropy);
      MinReal(100.0, score)
  }

  /** The lower-cased name as the tables would see it; `toLowerCase` does not change it again. */
  lemma AsciiLowerIdempotent(s: Str)
    ensures AsciiLower(AsciiLower(s)) == AsciiLower(s)
  {
  }

  /** The `strengths` table, keyed by lower-case name. */
  const AlgorithmStrengths: map<Str, nat> :=
    map[Lit("rc4") := 60, Lit("chacha20") := 95, Lit("aes") := 90, Lit("salsa20") := 85]

  /** The `resistance` table. */
  const QuantumResistances: map<Str, nat> :=
    map[Lit("rc4") := 10, Lit("chacha20") := 25, Lit("aes") := 20, Lit("salsa20") := 20]

  /** `strengths[algorithm.toLowerCase()] || 50` */
  function AlgorithmStrength(algorithm: Str): (s: nat)
    ensures 50 <= s <= 95
    ensures s == 50 <==> AsciiLower(algorithm) !in AlgorithmStrengths
  {
    var name := AsciiLower(algorithm);
    if name in AlgorithmStrengths then AlgorithmStrengths[name] else 50
  }

  /** `resistance[algorithm.toLowerCase()] || 15` */
  function QuantumResistance(algorithm: Str): (q: nat)
    ensures 10 <= q <= 25
    ensures q == 15 <==> AsciiLower(algorithm) !in QuantumResistances
  {
    var name := AsciiLower(algorithm);
    if name in QuantumResistances then QuantumResistances[name] else 15
  }

  /**
   * Both lookups ignore case, give the tabled values for the four names, and
   * the defaults 50 and 15 for other names, such as "des".
   */
  lemma LookupFacts(algorithm: Str)
    ensures AlgorithmStrength(AsciiLower(algorithm)) == AlgorithmStrength(algorithm)
    ensures QuantumResistance(AsciiLower(algorithm)) == QuantumResistance(algorithm)
    ensures AlgorithmStrength(Lit("ChaCha20")) == 95 && QuantumResistance(Lit("ChaCha20")) == 25
    ensures AlgorithmStrength(Lit("RC4")) == 60 && QuantumResistance(Lit("RC4")) == 10
    ensures AlgorithmStrength(Lit("AES")) == 90 && QuantumResistance(Lit("AES")) == 20
    ensures AlgorithmStrength(Lit("Salsa20")) == 85 && QuantumResistance(Lit("Salsa20")) == 20
    ensures AlgorithmStrength(Lit("des")) == 50 && QuantumResistance(Lit("des")) == 15
  {
    AsciiLowerIdempotent(algorithm);
    assert AsciiLower(Lit("ChaCha20")) == Lit("chacha20");
    assert AsciiLower(Lit("RC4")) == Lit("rc4");
    assert AsciiLower(Lit("AES")) == Lit("aes");
    assert AsciiLower(Lit("Salsa20")) == Lit("salsa20");
    assert AsciiLower(Lit("des")) == Lit("des");
    assert Lit("rc4")[0] != Lit("aes")[0] && Lit("des")[0] != Lit("aes")[0] && Lit("des")[0] != Lit("rc4")[0];
  }

  /** A `SecurityStrength` record. */
  datatype SecurityStrength = SecurityStrength(
    overall: int, keyStrength: real, algorithmStrength: nat, implementationStrength: nat, quantumResistance: nat)

  /** The weighted sum `calculateSecurityScore` rounds. */
  function WeightedScore(keyStrength: real, algorithmStrength: nat, implementationStrength: nat, quantumResistance: nat): real
  {
    keyStrength * 0.3 + algorithmStrength as real * 0.25 + implementationStrength as real * 0.25 + quantumResistance as real * 0.2
  }

  /**
   * `calculateSecurityScore(cipherState)`, which reads the key and the
   * algorithm of the state, given the entropy of the key. The implementation
   * part is the constant 75, the other parts are those of the helpers, and
   * overall is the weighted sum rounded to the nearest integer; with the
   * helpers' ranges it lies in [34, 78].
   */
  function SecurityScore(key: Str, algorithm: Str, keyEntropy: real): (r: SecurityStrength)
    ensures r.implementationStrength == 75
    ensures r.keyStrength == KeyStrength(key, keyEntropy)
    ensures r.algorithmStrength == AlgorithmStrength(algorithm)
    ensures r.quantumResistance == QuantumResistance(algorithm)
    ensures var w := WeightedScore(r.keyStrength, r.algorithmStrength, r.implementationStrength, r.quantumResistance);
      r.overall as real - 0.5 <= w < r.overall as real + 0.5
  {
    var keyStrength := KeyStrength(key, keyEntropy);
    var algorithmStrength := AlgorithmStrength(algorithm);
    var implementationStrength := 75;
    var quantumResistance := QuantumResistance(algorithm);
    SecurityStrength(
      Round(WeightedScore(keyStrength, algorithmStrength, implementationStrength, quantumResistance)),
      keyStrength, algorithmStrength, implementationStrength, quantumResistance)
  }

  /** With a non-negative key entropy the overall score lies in [34, 78], inside [0, 100]. */
  lemma SecurityScoreBounds(key: Str, algorithm: Str, keyEntropy: real)
    requires 0.0 <= keyEntropy
    ensures 34 <= SecurityScore(key, algorithm, keyEntropy).overall <= 78
  {
    var r := SecurityScore(key, algorithm, keyEntropy);
    var name := AsciiLower(algorithm);
    var a, q := r.algorithmStrength, r.quantumResistance;
    assert a as real * 0.25 + q as real * 0.2 >= 15.5 by {
      if name in AlgorithmStrengths {
        assert name == Lit("rc4") || name == Lit("chacha20") || name == Lit("aes") || name == Lit("salsa20");
      }
    }
    assert a as real * 0.25 + q as real * 0.2 <= 28.75 by {
      if name in AlgorithmStrengths {
        assert name == Lit("rc4") || name == Lit("chacha20") || name == Lit("aes") || name == Lit("salsa20");
      }
    }
  }
}
