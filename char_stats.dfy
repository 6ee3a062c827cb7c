/**
 * The bit histogram two dashboards draw: for each of the bits 0 to 7, how
 * many characters of the text have that bit set in the code unit
 * `char.charCodeAt(0)` returns.
 */
module CharStats {
  import opened JsText
  import opened Bits

  /** `code & (1 << b)` is non-zero. */
  predicate BitSet(code: nat, b: nat)
  {
    (code / Pow2(b)) % 2 == 1
  }

  /** The number of characters whose first code unit has bit b set. */
  function BitCount(chars: seq<Str>, b: nat): (n: nat)
    requires forall k :: 0 <= k < |chars| ==> |chars[k]| >= 1
    ensures n <= |chars|
  {
    if chars == [] then 0
    else BitCount(chars[..|chars| - 1], b) + (if BitSet(chars[|chars| - 1][0], b) then 1 else 0)
  }

  /** The eight counts, bit 0 first. */
  function BitCounts(chars: seq<Str>): (r: seq<nat>)
    requires forall k :: 0 <= k < |chars| ==> |chars[k]| >= 1
    ensures |r| == 8
  {
    seq(8, b requires 0 <= b < 8 => BitCount(chars, b))
  }

  /**
   * The loop of `generateBitDistribution`: an array of eight zeros, and for
   * each character of the text, one more in every position whose bit its
   * code unit has set.
   */
  method CountBits(text: Str) returns (distribution: array<nat>)
    ensures fresh(distribution)
    ensures distribution[..] == BitCounts(Chars(text))
  {
    var chars := Chars(text);
    distribution := new nat[8](_ => 0);
    for k := 0 to |chars|
      invariant distribution.Length == 8
      invariant forall b :: 0 <= b < 8 ==> distribution[b] == BitCount(chars[..k], b)
    {
      CountStep(chars, k);
      AddBits(distribution, chars[k][0]);
    }
    assert chars[..|chars|] == chars;
  }

  /** The inner loop: one more in every position of the eight whose bit `charCode` has set. */
  method AddBits(distribution: array<nat>, charCode: nat)
    requires distribution.Length == 8
    modifies distribution
    ensures forall b :: 0 <= b < 8 ==> distribution[b] == old(distribution[b]) + (if BitSet(charCode, b) then 1 else 0)
  {
    for i := 0 to 8
      invariant forall b :: 0 <= b < i ==> distribution[b] == old(distribution[b]) + (if BitSet(charCode, b) then 1 else 0)
      invariant forall b :: i <= b < 8 ==> distribution[b] == old(distribution[b])
    {
      if BitSet(charCode, i) {
        distribution[i] := distribution[i] + 1;
      }
    }
  }

  /** One more character adds one to the positions of its set bits. */
  lemma CountStep(chars: seq<Str>, k: nat)
    requires k < |chars|
    requires forall j :: 0 <= j < |chars| ==> |chars[j]| >= 1
    ensures forall b :: BitCount(chars[..k + 1], b) == BitCount(chars[..k], b) + (if BitSet(chars[k][0], b) then 1 else 0)
  {
    assert chars[..k + 1][..k] == chars[..k];
  }

  /** Counting the characters of two texts one after the other adds the counts. */
  lemma {:induction false} BitCountAppend(a: seq<Str>, c: seq<Str>, b: nat)
    requires forall k :: 0 <= k < |a| ==> |a[k]| >= 1
    requires forall k :: 0 <= k < |c| ==> |c[k]| >= 1
    ensures BitCount(a + c, b) == BitCount(a, b) + BitCount(c, b)
    decreases |c|
  {
    if c == [] {
      assert a + c == a;
    } else {
      var init := c[..|c| - 1];
      assert (a + c)[..|a + c| - 1] == a + init;
      BitCountAppend(a, init, b);
    }
  }

  /** In a text of ASCII characters no character has bit 7 set. */
  lemma {:induction false} AsciiHasNoBit7(chars: seq<Str>)
    requires forall k :: 0 <= k < |chars| ==> |chars[k]| >= 1 && chars[k][0] < 128
    ensures BitCount(chars, 7) == 0
  {
    if chars != [] {
      AsciiHasNoBit7(chars[..|chars| - 1]);
      assert Pow2(7) == 128 by {
        assert Pow2(4) == 16;
      }
    }
  }
}
