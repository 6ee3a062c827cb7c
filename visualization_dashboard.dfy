/**
 * The charts of the visualization dashboard (`VisualizationDashboard.tsx`):
 * the top-twenty character frequencies, the entropy of consecutive windows,
 * the bit distribution, and the fixed algorithm comparison table.
 *
 * `Math.log2` is the parameter `log2`; percentages are exact reals.
 */
module VisualizationDashboard {
  import opened JsText
  import opened JsMath
  import opened Collections
  import opened JsObject
  import opened FrequencyTables
  import opened TextEntropy
  import opened CharStats

  // ---------------------------------------------------------------------------
  // generateFrequencyData

  /**
   * The label of a character: itself when it is one code unit below 128,
   * otherwise `char.charCodeAt(0).toString(16)`, the hex of its first code
   * unit (the high surrogate for a character beyond the BMP).
   */
  function HexLabel(c: Str): Str
  {
    if c != [] && !(|c| == 1 && c[0] < 128) then ToHex(c[0]) else c
  }

  /** `generateFrequencyData(text)`: no rows for an empty text, else the top twenty by count, with exact percentages. */
  function FrequencyChart(text: Str): seq<Row>
  {
    if text == [] then [] else Top(CharRows(text, HexLabel, Exact), 20)
  }

  /** The guard, the counting loop, then the entries mapped, sorted and cut. */
  method GenerateFrequencyData(text: Str) returns (rows: seq<Row>)
    ensures rows == FrequencyChart(text)
  {
    if text == [] {
      return [];
    }
    var freq := Tally(Chars(text));
    TallyAgrees(freq, Chars(text));
    var entries := Entries(freq);
    var mapped := seq(|entries|, i requires 0 <= i < |entries| => EntryRow(entries[i], |text|, HexLabel, Exact));
    rows := Take(SortDescending(mapped, RowCount), 20);
  }

  /** The row is the labelled count and exact percentage of a character of the text. */
  ghost predicate IsHexRow(text: Str, r: Row)
    requires text != []
  {
    exists c :: c in Chars(text) && r == Row(HexLabel(c), Count(Chars(text), c), Count(Chars(text), c) as real / |text| as real * 100.0)
  }

  /**
   * One row per distinct character up to twenty, by non-increasing count,
   * each the labelled count and percentage of a character of the text.
   */
  lemma FrequencyChartRows(text: Str)
    requires text != []
    ensures |FrequencyChart(text)| == Min(20, |CountEntries(Chars(text))|)
    ensures forall i, j :: 0 <= i < j < |FrequencyChart(text)| ==> FrequencyChart(text)[i].count >= FrequencyChart(text)[j].count
    ensures forall i :: 0 <= i < |FrequencyChart(text)| ==> IsHexRow(text, FrequencyChart(text)[i])
  {
    TopCharRows(text, HexLabel, Exact, 20);
    forall i | 0 <= i < |FrequencyChart(text)|
      ensures IsHexRow(text, FrequencyChart(text)[i])
    {
      FrequencyChartRowAt(text, i);
    }
  }

  /** Row i of the chart is the labelled count and percentage of a character of the text. */
  lemma FrequencyChartRowAt(text: Str, i: nat)
    requires text != [] && i < |FrequencyChart(text)|
    ensures IsHexRow(text, FrequencyChart(text)[i])
  {
    var c := TopCharRowAt(text, HexLabel, Exact, 20, i);
    assert FrequencyChart(text)[i] == Row(HexLabel(c), Count(Chars(text), c), Count(Chars(text), c) as real / |text| as real * 100.0);
  }

  /** Before the cut the counts add up to the number of characters; a more frequent character is never cut for a rarer one. */
  lemma FrequencyChartCounts(text: Str, c: Str, i: nat) returns (k: nat)
    requires c in Chars(text) && i < |FrequencyChart(text)|
    requires Count(Chars(text), c) > FrequencyChart(text)[i].count
    ensures SumRowCounts(CharRows(text, HexLabel, Exact)) == |Chars(text)|
    ensures k < |FrequencyChart(text)| && FrequencyChart(text)[k].character == HexLabel(c)
    ensures FrequencyChart(text)[k].count == Count(Chars(text), c)
  {
    CharRowsSum(text, HexLabel, Exact);
    k := TopCharRowsComplete(text, HexLabel, Exact, 20, c, i);
  }

  /** Characters of one code unit get distinct labels: the ASCII ones are one unit long, the others at least two hex digits. */
  lemma UnitLabelsApart(c: Str, d: Str)
    requires |c| == 1 && |d| == 1
    ensures HexLabel(c) == HexLabel(d) ==> c == d
  {
    ToHexInjective(c[0], d[0]);
    ToHexInjective(d[0], c[0]);
  }

  /** In a text without high surrogates every character is one code unit, so no two rows share a label. */
  lemma FrequencyChartLabels(text: Str)
    requires forall i :: 0 <= i < |text| ==> !IsHighSurrogate(text[i])
    ensures forall i, j :: 0 <= i < j < |FrequencyChart(text)| ==> FrequencyChart(text)[i].character != FrequencyChart(text)[j].character
  {
    var chars := Chars(text);
    CharsOfBmp(text);
    forall c, d | c in chars && d in chars && HexLabel(c) == HexLabel(d)
      ensures c == d
    {
      var i :| 0 <= i < |chars| && chars[i] == c;
      var j :| 0 <= j < |chars| && chars[j] == d;
      UnitLabelsApart(c, d);
    }
    if text != [] {
      TopCharRowsLabels(text, HexLabel, Exact, 20);
    }
  }

  /** Two characters beyond the BMP with the same high surrogate, such as U+1F600 and U+1F601, share the label "d83d". */
  lemma SurrogatePairLabelsCollide()
    ensures HexLabel([0xD83D, 0xDE00]) == HexLabel([0xD83D, 0xDE01]) == Lit("d83d")
  {
    assert ToHex(0xD83D) == ToHex(0xD83) + [HexDigit(0xD)];
    assert ToHex(0xD83) == ToHex(0xD8) + [HexDigit(3)];
    assert ToHex(0xD8) == ToHex(0xD) + [HexDigit(8)];
  }

  // ---------------------------------------------------------------------------
  // generateEntropyData

  /** A point of the entropy chart; the two entropies are the same number. */
  datatype WindowPoint = WindowPoint(position: nat, entropy: real, localEntropy: real)

  /** `Math.max(1, Math.floor(text.length / 50))` */
  function WindowSize(n: nat): (w: nat)
    ensures 1 <= w && (n >= 1 ==> w <= n)
  {
    Max(1, n / 50)
  }

  /** `text.substring(i, i + w)` for a window inside the text. */
  function Window(text: Str, i: nat, w: nat): (window: Str)
    requires i + w <= |text|
    ensures |window| == w
  {
    text[i..i + w]
  }

  /** The point of the k-th window, at k · w, carrying `calculateWindowEntropy` of the window twice. */
  function WindowPointAt(text: Str, log2: real -> real, w: nat, k: nat): WindowPoint
    requires 1 <= w && k * w + w <= |text|
  {
    var e := Entropy(Window(text, k * w, w), log2);
    WindowPoint(k * w, e, e)
  }

  /** The points of the first m windows of width w. */
  function WindowsUpTo(text: Str, log2: real -> real, w: nat, m: nat): (points: seq<WindowPoint>)
    requires 1 <= w && m * w <= |text|
    ensures |points| == m
  {
    if m == 0 then []
    else
      assert (m - 1) * w + w == m * w;
      WindowsUpTo(text, log2, w, m - 1) + [WindowPointAt(text, log2, w, m - 1)]
  }

  /** The k-th of the first m points is that of the k-th window. */
  lemma {:induction false} WindowsUpToAt(text: Str, log2: real -> real, w: nat, m: nat, k: nat)
    requires 1 <= w && m * w <= |text| && k < m
    ensures k * w + w <= |text| && WindowsUpTo(text, log2, w, m)[k] == WindowPointAt(text, log2, w, k)
  {
    assert (m - 1) * w + w == m * w;
    if k < m - 1 {
      WindowsUpToAt(text, log2, w, m - 1, k);
    }
  }

  /** The number of multiples of w strictly below n − w. */
  function WindowCount(n: nat, w: nat): (c: nat)
    requires 1 <= w
    ensures c * w < n || c == 0
    ensures n >= 1 ==> c * w + w >= n
  {
    if n == 0 then 0
    else
      var c := (n - 1) / w;
      assert c * w <= n - 1 < c * w + w;
      c
  }

  /** The only m whose multiples of w reach n − w without passing it is the count. */
  lemma WindowCountOf(n: nat, w: nat, m: nat, i: nat)
    requires 1 <= w <= n && i == m * w
    requires i + w >= n && (i > 0 ==> i < n)
    ensures WindowCount(n, w) == m
  {
    var c := WindowCount(n, w);
    assert c * w <= n - 1 < c * w + w;
    if m > 0 {
      assert (m - 1) * w + w == m * w;
    }
    assert (c + 1) * w == c * w + w && (m + 1) * w == m * w + w;
    if c < m {
      MulLe(c + 1, m, w);
      assert false;
    } else if c > m {
      MulLe(m + 1, c, w);
      assert false;
    }
  }

  lemma MulLe(a: nat, b: nat, w: nat)
    requires a <= b
    ensures a * w <= b * w
  {
  }

  /** `generateEntropyData(text)`: no points for an empty text, else one per window at 0, w, 2w, … below n − w. */
  function EntropyWindows(text: Str, log2: real -> real): seq<WindowPoint>
  {
    if text == [] then []
    else
      var w := WindowSize(|text|);
      WindowsUpTo(text, log2, w, WindowCount(|text|, w))
  }

  /** The body of the loop: the window at i, its entropy as `calculateWindowEntropy` counts it, and its point pushed. */
  method PushWindow(text: Str, log2: real -> real, w: nat, data: seq<WindowPoint>) returns (next: seq<WindowPoint>)
    requires 1 <= w && |data| * w + w <= |text|
    ensures next == data + [WindowPointAt(text, log2, w, |data|)]
  {
    var i := |data| * w;
    var window := Window(text, i, w);
    var entropy := CalculateEntropy(window, log2);
    next := data + [WindowPoint(i, entropy, entropy)];
  }

  /** The first m + 1 points are the first m, then that of window m. */
  lemma WindowsUpToSnoc(text: Str, log2: real -> real, w: nat, m: nat)
    requires 1 <= w && m * w + w <= |text|
    ensures (m + 1) * w == m * w + w
    ensures WindowsUpTo(text, log2, w, m + 1) == WindowsUpTo(text, log2, w, m) + [WindowPointAt(text, log2, w, m)]
  {
    assert (m + 1) * w == m * w + w;
  }

  /** The loop `for (let i = 0; i < text.length - windowSize; i += windowSize)`. */
  method GenerateEntropyData(text: Str, log2: real -> real) returns (data: seq<WindowPoint>)
    ensures data == EntropyWindows(text, log2)
  {
    if text == [] {
      return [];
    }
    var windowSize := WindowSize(|text|);
    data := [];
    var i: nat := 0;
    while i < |text| - windowSize
      invariant i == |data| * windowSize && (i > 0 ==> i < |text|)
      invariant data == WindowsUpTo(text, log2, windowSize, |data|)
      decreases |text| - i
    {
      WindowsUpToSnoc(text, log2, windowSize, |data|);
      data := PushWindow(text, log2, windowSize, data);
      i := i + windowSize;
    }
    WindowCountOf(|text|, windowSize, |data|, i);
  }

  /**
   * With w = max(1, ⌊n/50⌋), there is a point at each multiple of w strictly
   * below n − w, and none further; each window [i, i + w) lies inside the
   * text and never covers its last character, and both entropies of a point
   * are the entropy of its window.
   */
  lemma EntropyWindowsFacts(text: Str, log2: real -> real)
    ensures var p := EntropyWindows(text, log2);
      var w := WindowSize(|text|);
      && (text != [] ==> |p| * w + w >= |text|)
      && forall k :: 0 <= k < |p| ==>
        p[k].position == k * w && p[k].position < |text| - w
        && p[k].entropy == p[k].localEntropy == Entropy(Window(text, p[k].position, w), log2)
  {
    forall k | 0 <= k < |EntropyWindows(text, log2)|
      ensures var p := EntropyWindows(text, log2);
        var w := WindowSize(|text|);
        p[k].position == k * w && p[k].position < |text| - w
        && p[k].entropy == p[k].localEntropy == Entropy(Window(text, p[k].position, w), log2)
    {
      EntropyWindowAt(text, log2, k);
    }
  }

  /** The k-th point sits at k · w, below n − w, and carries the entropy of its window. */
  lemma EntropyWindowAt(text: Str, log2: real -> real, k: nat)
    requires k < |EntropyWindows(text, log2)|
    ensures var p := EntropyWindows(text, log2);
      var w := WindowSize(|text|);
      p[k].position == k * w && p[k].position < |text| - w
      && p[k].entropy == p[k].localEntropy == Entropy(Window(text, p[k].position, w), log2)
  {
    var w := WindowSize(|text|);
    var c := WindowCount(|text|, w);
    WindowsUpToAt(text, log2, w, c, k);
    assert k * w + w <= c * w by { MulLe(k + 1, c, w); assert (k + 1) * w == k * w + w; }
  }

  /** A text of at most one code unit has no points. */
  lemma ShortTextHasNoWindows(text: Str, log2: real -> real)
    requires |text| <= 1
    ensures EntropyWindows(text, log2) == []
  {
  }

  // ---------------------------------------------------------------------------
  // generateBitDistribution

  /** A slice of the bit chart: `Bit i`, the count and its exact percentage of `text.length`. */
  datatype BitSlice = BitSlice(bit: nat, value: nat, percentage: real)

  /** `generateBitDistribution(text)`: no slices for an empty text, else one per bit. */
  function BitChart(text: Str): (slices: seq<BitSlice>)
  {
    if text == [] then []
    else
      var counts := BitCounts(Chars(text));
      seq(8, i requires 0 <= i < 8 => BitSlice(i, counts[i], counts[i] as real / |text| as real * 100.0))
  }

  /** The guard, the counting loops, then the map over the eight counts. */
  method GenerateBitDistribution(text: Str) returns (slices: seq<BitSlice>)
    ensures slices == BitChart(text)
  {
    if text == [] {
      return [];
    }
    var bitCounts := CountBits(text);
    slices := seq(8, i requires 0 <= i < 8 reads bitCounts => BitSlice(i, bitCounts[i], bitCounts[i] as real / |text| as real * 100.0));
  }

  /**
   * An empty text has no slices; any other has eight, where slice i counts
   * the characters whose first code unit has bit i set, which is at most the
   * number of characters and so at most the text length, and the percentage
   * lies in [0, 100].
   */
  lemma BitChartFacts(text: Str)
    ensures text == [] <==> BitChart(text) == []
    ensures text != [] ==> |BitChart(text)| == 8 && forall i :: 0 <= i < 8 ==> IsBitSlice(text, i, BitChart(text)[i])
  {
    if text != [] {
      forall i | 0 <= i < 8
        ensures IsBitSlice(text, i, BitChart(text)[i])
      {
        BitSliceAt(text, i);
      }
    }
  }

  /** Slice i of the chart of a non-empty text. */
  ghost predicate IsBitSlice(text: Str, i: nat, s: BitSlice)
  {
    && s.bit == i
    && s.value == BitCount(Chars(text), i) <= |Chars(text)| <= |text|
    && 0.0 <= s.percentage <= 100.0
  }

  /** Slice i counts the characters with bit i set, and its percentage lies in [0, 100]. */
  lemma BitSliceAt(text: Str, i: nat)
    requires text != [] && i < 8
    ensures IsBitSlice(text, i, BitChart(text)[i])
  {
    var s := BitChart(text)[i];
    assert s.value == BitCount(Chars(text), i);
    ShareBounded(s.value, |text|);
  }

  // ---------------------------------------------------------------------------
  // algorithmComparisonData

  datatype AlgorithmRow = AlgorithmRow(name: Str, security: nat, performance: nat, quantumResistance: nat)

  /** The fixed table; the fourth name is spelt as the source file has it, "VigenÃ¨re". */
  const AlgorithmComparison: seq<AlgorithmRow> := [
    AlgorithmRow(Lit("AES"), 95, 90, 30),
    AlgorithmRow(Lit("RC4"), 60, 95, 20),
    AlgorithmRow(Lit("XOR"), 40, 100, 15),
    AlgorithmRow(Lit("Vigen\U{00C3}\U{00A8}re"), 50, 85, 25)
  ]

  /**
   * AES rates most secure and most quantum-resistant, XOR fastest, and every
   * score is at most 100; the fourth row keeps the source's spelling, with
   * U+00C3 U+00A8 where "Vigenère" has U+00E8.
   */
  lemma AlgorithmComparisonFacts()
    ensures |AlgorithmComparison| == 4
    ensures AlgorithmComparison[1] == AlgorithmRow(Lit("RC4"), 60, 95, 20)
    ensures AlgorithmComparison[3] == AlgorithmRow(Lit("Vigen\U{00C3}\U{00A8}re"), 50, 85, 25)
    ensures |AlgorithmComparison[3].name| == 9 && AlgorithmComparison[3].name[5] == 0xC3 && AlgorithmComparison[3].name[6] == 0xA8
    ensures forall i :: 0 <= i < 4 ==> AlgorithmComparison[i].security <= AlgorithmComparison[0].security
    ensures forall i :: 0 <= i < 4 ==> AlgorithmComparison[i].quantumResistance <= AlgorithmComparison[0].quantumResistance
    ensures forall i :: 0 <= i < 4 ==> AlgorithmComparison[i].performance <= AlgorithmComparison[2].performance <= 100
  {
  }
}
