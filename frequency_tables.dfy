/**
 * The character-frequency charts three components draw: one row per
 * distinct character of the text, in the order `Object.entries` lists the
 * counting object's keys, then `.sort((a, b) => b.count - a.count)` (stable)
 * and `.slice(0, n)`. Each component labels and scales its rows in its own
 * way; what they share is the table of rows and its top n.
 */
module FrequencyTables {
  import opened JsText
  import opened JsMath
  import opened Collections
  import opened JsObject

  /** A chart row: the label shown, the count, and the count as a share of the text. */
  datatype Row = Row(character: Str, count: nat, share: real)

  /** The sort key. */
  function RowCount(r: Row): nat
  {
    r.count
  }

  /** The sum of the counts of the rows. */
  function SumRowCounts(rows: seq<Row>): nat
  {
    if rows == [] then 0 else rows[0].count + SumRowCounts(rows[1..])
  }

  /** `rows.sort((a, b) => b.count - a.count).slice(0, n)` */
  function Top(rows: seq<Row>, n: nat): (r: seq<Row>)
    ensures |r| <= n
  {
    Take(SortDescending(rows, RowCount), n)
  }

  /**
   * The top n rows are rows of the table, by non-increasing count (rows with
   * equal counts in table order), and a row left out never has a larger
   * count than a row kept.
   */
  lemma TopFacts(rows: seq<Row>, n: nat)
    ensures |Top(rows, n)| == Min(n, |rows|)
    ensures forall i :: 0 <= i < |Top(rows, n)| ==> Top(rows, n)[i] in rows
    ensures forall i, j :: 0 <= i < j < |Top(rows, n)| ==> Top(rows, n)[i].count >= Top(rows, n)[j].count
    ensures forall c :: KeyEq(Top(rows, n), RowCount, c) <= KeyEq(rows, RowCount, c)
    ensures forall x, i :: x in rows && x !in Top(rows, n) && 0 <= i < |Top(rows, n)| ==> x.count <= Top(rows, n)[i].count
  {
    var sorted := SortDescending(rows, RowCount);
    var top := Top(rows, n);
    TopByKey(rows, RowCount, n);
    SortDescendingCorrect(rows, RowCount);
    assert |sorted| == |multiset(sorted)| == |rows|;
    forall x, i | x in rows && x !in top && 0 <= i < |top|
      ensures x.count <= top[i].count
    {
      assert x in multiset(sorted);
      var j :| 0 <= j < |sorted| && sorted[j] == x;
      if j < |top| {
        assert false;
      }
      assert top[i] == sorted[i];
      assert RowCount(sorted[i]) >= RowCount(sorted[j]);
    }
  }

  /** Rows with distinct labels keep them distinct in the top n. */
  lemma TopDistinct(rows: seq<Row>, n: nat)
    requires forall a, b :: 0 <= a < b < |rows| ==> rows[a].character != rows[b].character
    ensures forall i, j :: 0 <= i < j < |Top(rows, n)| ==> Top(rows, n)[i].character != Top(rows, n)[j].character
  {
    var sorted := SortDescending(rows, RowCount);
    var top := Top(rows, n);
    SortDescendingCorrect(rows, RowCount);
    assert |sorted| == |multiset(sorted)| == |rows|;
    forall i, j | 0 <= i < j < |top|
      ensures top[i].character != top[j].character
    {
      assert top[i] == sorted[i] && top[j] == sorted[j];
      if top[i].character == top[j].character {
        assert sorted[i] in multiset(rows) && sorted[j] in multiset(rows);
        var a :| 0 <= a < |rows| && rows[a] == sorted[i];
        var b :| 0 <= b < |rows| && rows[b] == sorted[j];
        assert a == b;
        PairCount(sorted, i, j);
        DistinctOnce(rows, sorted[i]);
      }
    }
  }

  /** Rows made one per entry, with the entry's count, add up to the entries' values. */
  lemma {:induction false} SumRowCountsOfEntries(rows: seq<Row>, e: seq<(Str, nat)>)
    requires |rows| == |e|
    requires forall i :: 0 <= i < |rows| ==> rows[i].count == e[i].1
    ensures SumRowCounts(rows) == SumValues(e)
  {
    if rows != [] {
      SumRowCountsOfEntries(rows[1..], e[1..]);
    }
  }

  // ---------------------------------------------------------------------------
  // Rows of the characters of a text

  /** How a component scales a count to its percentage. */
  datatype Scale = TwoDecimals | Exact

  /** `(count / text.length) * 100`, and `Math.round(… * 100) / 100` of it for two decimals. */
  function Share(count: nat, n: nat, scale: Scale): real
    requires n > 0
  {
    var percentage := count as real / n as real * 100.0;
    if scale == TwoDecimals then Round2(percentage) else percentage
  }

  /** A count out of n, as a percentage, lies in [0, 100]. */
  lemma ShareBounded(count: nat, n: nat)
    requires 0 < n && count <= n
    ensures 0.0 <= count as real / n as real * 100.0 <= 100.0
  {
    var q := count as real / n as real;
    assert q * n as real == count as real;
  }

  /** The row of one entry `[char, count]` of the counting object. */
  function EntryRow(entry: (Str, nat), n: nat, labelOf: Str -> Str, scale: Scale): Row
    requires n > 0
  {
    Row(labelOf(entry.0), entry.1, Share(entry.1, n, scale))
  }

  /**
   * One row per distinct character of the text, in property order; an empty
   * text has no characters and so no rows.
   */
  function CharRows(text: Str, labelOf: Str -> Str, scale: Scale): seq<Row>
  {
    if text == [] then []
    else
      var e := CountEntries(Chars(text));
      seq(|e|, i requires 0 <= i < |e| => EntryRow(e[i], |text|, labelOf, scale))
  }

  /** A labelling that tells characters apart. */
  ghost predicate LabelsApart(labelOf: Str -> Str)
  {
    forall c: Str, d: Str :: 1 <= |c| <= 2 && 1 <= |d| <= 2 && labelOf(c) == labelOf(d) ==> c == d
  }

  /** A labelling that tells the given characters apart. */
  ghost predicate LabelsApartOn(labelOf: Str -> Str, chars: seq<Str>)
  {
    forall c, d :: c in chars && d in chars && labelOf(c) == labelOf(d) ==> c == d
  }

  /** A labelling that tells all characters apart tells those of any text apart. */
  lemma LabelsApartOnText(labelOf: Str -> Str, text: Str)
    requires LabelsApart(labelOf)
    ensures LabelsApartOn(labelOf, Chars(text))
  {
    var chars := Chars(text);
    forall c, d | c in chars && d in chars && labelOf(c) == labelOf(d)
      ensures c == d
    {
      var i :| 0 <= i < |chars| && chars[i] == c;
      var j :| 0 <= j < |chars| && chars[j] == d;
    }
  }

  /** The row of each entry stands for a character of the text and its number of occurrences. */
  lemma CharRowsAt(text: Str, labelOf: Str -> Str, scale: Scale, j: nat)
    requires text != [] && j < |CharRows(text, labelOf, scale)|
    ensures |CharRows(text, labelOf, scale)| == |CountEntries(Chars(text))|
    ensures var c := CountEntries(Chars(text))[j].0;
      && c in Chars(text)
      && CharRows(text, labelOf, scale)[j] == EntryRow((c, Count(Chars(text), c)), |text|, labelOf, scale)
  {
    CountEntriesFacts(Chars(text));
  }

  /**
   * The top n rows: one per distinct character up to n, by non-increasing
   * count, each the row of a character of the text with its number of
   * occurrences.
   */
  lemma TopCharRows(text: Str, labelOf: Str -> Str, scale: Scale, n: nat)
    requires text != []
    ensures |Top(CharRows(text, labelOf, scale), n)| == Min(n, |CountEntries(Chars(text))|)
    ensures forall i, j :: 0 <= i < j < |Top(CharRows(text, labelOf, scale), n)| ==>
      Top(CharRows(text, labelOf, scale), n)[i].count >= Top(CharRows(text, labelOf, scale), n)[j].count
    ensures forall i :: 0 <= i < |Top(CharRows(text, labelOf, scale), n)| ==>
      exists c :: c in Chars(text) && Top(CharRows(text, labelOf, scale), n)[i] == EntryRow((c, Count(Chars(text), c)), |text|, labelOf, scale)
  {
    var rows := CharRows(text, labelOf, scale);
    var top := Top(rows, n);
    TopFacts(rows, n);
    assert |rows| == |CountEntries(Chars(text))|;
    forall i | 0 <= i < |top|
      ensures exists c :: c in Chars(text) && top[i] == EntryRow((c, Count(Chars(text), c)), |text|, labelOf, scale)
    {
      var c := TopCharRowAt(text, labelOf, scale, n, i);
    }
  }

  /** The i-th row of the top n is the row of the character c of the text. */
  lemma TopCharRowAt(text: Str, labelOf: Str -> Str, scale: Scale, n: nat, i: nat) returns (c: Str)
    requires text != [] && i < |Top(CharRows(text, labelOf, scale), n)|
    ensures c in Chars(text)
    ensures Top(CharRows(text, labelOf, scale), n)[i] == EntryRow((c, Count(Chars(text), c)), |text|, labelOf, scale)
  {
    var rows := CharRows(text, labelOf, scale);
    var top := Top(rows, n);
    TopFacts(rows, n);
    var j :| 0 <= j < |rows| && rows[j] == top[i];
    CharRowsAt(text, labelOf, scale, j);
    c := CountEntries(Chars(text))[j].0;
  }

  /** With a labelling that tells the characters of the text apart, no two rows of the top n have the same label. */
  lemma TopCharRowsLabels(text: Str, labelOf: Str -> Str, scale: Scale, n: nat)
    requires LabelsApartOn(labelOf, Chars(text))
    ensures forall i, j :: 0 <= i < j < |Top(CharRows(text, labelOf, scale), n)| ==>
      Top(CharRows(text, labelOf, scale), n)[i].character != Top(CharRows(text, labelOf, scale), n)[j].character
  {
    var rows := CharRows(text, labelOf, scale);
    if text != [] {
      var e := CountEntries(Chars(text));
      CountEntriesFacts(Chars(text));
      forall a, b | 0 <= a < b < |rows|
        ensures rows[a].character != rows[b].character
      {
        assert e[a].0 in Chars(text) && e[b].0 in Chars(text);
      }
    }
    TopDistinct(rows, n);
  }

  /** A character occurring more often than some row of the top n has a row there: the k-th. */
  lemma TopCharRowsComplete(text: Str, labelOf: Str -> Str, scale: Scale, n: nat, c: Str, i: nat) returns (k: nat)
    requires c in Chars(text) && i < |Top(CharRows(text, labelOf, scale), n)|
    requires Count(Chars(text), c) > Top(CharRows(text, labelOf, scale), n)[i].count
    ensures k < |Top(CharRows(text, labelOf, scale), n)|
    ensures Top(CharRows(text, labelOf, scale), n)[k].character == labelOf(c)
    ensures Top(CharRows(text, labelOf, scale), n)[k].count == Count(Chars(text), c)
  {
    var e := CountEntries(Chars(text));
    var rows := CharRows(text, labelOf, scale);
    var top := Top(rows, n);
    assert text != [];
    assert exists j :: 0 <= j < |e| && e[j].0 == c by {
      CountEntriesFacts(Chars(text));
    }
    var j :| 0 <= j < |e| && e[j].0 == c;
    CharRowsAt(text, labelOf, scale, j);
    var x := rows[j];
    TopFacts(rows, n);
    assert x in top by {
      assert x in rows;
    }
    k :| 0 <= k < |top| && top[k] == x;
  }

  /** Before the cut, the counts of the rows add up to the number of characters. */
  lemma CharRowsSum(text: Str, labelOf: Str -> Str, scale: Scale)
    ensures SumRowCounts(CharRows(text, labelOf, scale)) == |Chars(text)|
  {
    CountEntriesFacts(Chars(text));
    if text != [] {
      SumRowCountsOfEntries(CharRows(text, labelOf, scale), CountEntries(Chars(text)));
    }
  }
}
