/**
 * The Shannon entropy the components compute for a text: count the
 * characters the string iterator yields, then subtract p · log2(p) for each
 * count, where p is the count divided by `text.length` (code units, so a
 * text with surrogate pairs has shares that add up to less than one), and
 * round to two decimals.
 *
 * `Math.log2` is a floating-point function; it is a parameter here, and the
 * sums are over exact reals.
 */
module TextEntropy {
  import opened JsText
  import opened JsMath
  import opened Collections
  import opened JsObject

  /** What one count takes off the entropy: p · log2(p) with p = count / n. */
  function Term(count: nat, n: nat, log2: real -> real): real
    requires n > 0
  {
    var p := count as real / n as real;
    p * log2(p)
  }

  /** The entropy after the loop has visited the given counts. */
  function EntropySum(counts: seq<(Str, nat)>, n: nat, log2: real -> real): real
    requires n > 0
  {
    if counts == [] then 0.0
    else EntropySum(counts[..|counts| - 1], n, log2) - Term(counts[|counts| - 1].1, n, log2)
  }

  /** `calculateEntropy(text)`: 0 for the empty text, otherwise the rounded sum over its character counts. */
  function Entropy(text: Str, log2: real -> real): real
  {
    if text == [] then 0.0 else Round2(EntropySum(CountEntries(Chars(text)), |text|, log2))
  }

  /** `calculateEntropy(text)`: the counting loop, then the loop over `Object.values(freq)`. */
  method CalculateEntropy(text: Str, log2: real -> real) returns (entropy: real)
    ensures entropy == Entropy(text, log2)
  {
    if text == [] {
      return 0.0;
    }
    var freq := Tally(Chars(text));
    TallyAgrees(freq, Chars(text));
    var counts := Entries(freq);
    entropy := 0.0;
    for k := 0 to |counts|
      invariant entropy == EntropySum(counts[..k], |text|, log2)
    {
      assert counts[..k + 1][..k] == counts[..k];
      entropy := entropy - Term(counts[k].1, |text|, log2);
    }
    assert counts[..|counts|] == counts;
    entropy := Round2(entropy);
  }

  /** A logarithm that is never positive on shares, as log2 is on (0, 1]. */
  ghost predicate NonPositiveOnShares(log2: real -> real)
  {
    forall p: real :: 0.0 < p <= 1.0 ==> log2(p) <= 0.0
  }

  /** A count of at most n takes off nothing negative. */
  lemma TermNonPositive(count: nat, n: nat, log2: real -> real)
    requires 0 < count <= n && NonPositiveOnShares(log2)
    ensures Term(count, n, log2) <= 0.0
  {
    var p := count as real / n as real;
    assert 0.0 < p <= 1.0;
    var l := log2(p);
    assert l <= 0.0;
    assert p * l <= 0.0;
  }

  lemma {:induction false} EntropySumNonNegative(counts: seq<(Str, nat)>, n: nat, log2: real -> real)
    requires n > 0 && NonPositiveOnShares(log2)
    requires forall i :: 0 <= i < |counts| ==> 0 < counts[i].1 <= n
    ensures EntropySum(counts, n, log2) >= 0.0
  {
    if counts != [] {
      EntropySumNonNegative(counts[..|counts| - 1], n, log2);
      TermNonPositive(counts[|counts| - 1].1, n, log2);
    }
  }

  /** With a logarithm that is never positive on (0, 1], the entropy is never negative. */
  lemma EntropyNonNegative(text: Str, log2: real -> real)
    requires NonPositiveOnShares(log2)
    ensures Entropy(text, log2) >= 0.0
  {
    if text != [] {
      var chars := Chars(text);
      var e := CountEntries(chars);
      CountEntriesFacts(chars);
      forall i | 0 <= i < |e|
        ensures 0 < e[i].1 <= |text|
      {
      }
      EntropySumNonNegative(e, |text|, log2);
      var x := EntropySum(e, |text|, log2);
      assert Round(x * 100.0) >= 0;
    }
  }

  /** A count that is the whole text contributes log2(1). */
  lemma TermOfWhole(n: nat, log2: real -> real)
    requires n > 0
    ensures Term(n, n, log2) == log2(1.0)
  {
    var p := n as real / n as real;
    assert p == 1.0;
  }

  /** Entries whose keys are all c, and whose first two keys differ, number at most one. */
  lemma OneKey(e: seq<(Str, nat)>, c: Str)
    requires forall i :: 0 <= i < |e| ==> e[i].0 == c
    requires |e| >= 2 ==> e[0].0 != e[1].0
    ensures |e| <= 1
  {
    if |e| >= 2 {
      assert false;
    }
  }

  /** Items that are all the same give one entry, counting them all. */
  lemma SingleEntry(items: seq<Str>, c: Str)
    requires items != []
    requires forall i :: 0 <= i < |items| ==> items[i] == c
    ensures CountEntries(items) == [(c, |items|)]
  {
    var e := CountEntries(items);
    CountEntriesFacts(items);
    assert items[0] == c;
    forall i | 0 <= i < |e|
      ensures e[i].0 == c
    {
      var x := e[i].0;
      assert x in items;
    }
    OneKey(e, c);
    assert e == [e[0]];
    assert SumValues(e) == e[0].1 + SumValues(e[1..]);
  }

  /** A text that repeats one character has entropy 0, when log2(1) is 0. */
  lemma EntropyOfRepetition(text: Str, log2: real -> real)
    requires text != [] && !IsHighSurrogate(text[0])
    requires forall i :: 0 <= i < |text| ==> text[i] == text[0]
    requires log2(1.0) == 0.0
    ensures Entropy(text, log2) == 0.0
  {
    CharsOfBmp(text);
    var chars := Chars(text);
    var c := [text[0]];
    forall i | 0 <= i < |chars|
      ensures chars[i] == c
    {
    }
    SingleEntry(chars, c);
    var e := CountEntries(chars);
    TermOfWhole(|text|, log2);
    assert e[..0] == [];
    assert EntropySum(e, |text|, log2) == 0.0;
  }
}
