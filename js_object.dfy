/**
 * Plain JavaScript objects used as counters (`freq[char] = (freq[char] || 0) + 1`)
 * and the order in which `Object.entries` lists their properties: first the
 * keys that are array indices, by ascending numeric value, then the other
 * string keys in the order they were first added.
 */
module JsObject {
  import opened JsText
  import opened Collections

  predicate AllDigits(k: Str)
  {
    forall i :: 0 <= i < |k| ==> IsAsciiDigit(k[i])
  }

  /** The number a string of decimal digits denotes. */
  function DecimalValue(k: Str): nat
    requires AllDigits(k)
  {
    if k == [] then 0 else DecimalValue(k[..|k| - 1]) * 10 + (k[|k| - 1] - '0' as int)
  }

  /**
   * An array index: the canonical decimal form of an integer below 2^32 - 1,
   * so no sign and no leading zero.
   */
  predicate IsArrayIndex(k: Str)
  {
    1 <= |k| && AllDigits(k) && (k[0] == '0' as int ==> |k| == 1) && DecimalValue(k) < 0xFFFF_FFFF
  }

  /** The numeric value `Object.entries` orders array-index keys by. */
  function IndexValue(k: Str): nat
  {
    if IsArrayIndex(k) then DecimalValue(k) else 0
  }

  /** The array-index keys of keys, in their order there. */
  function IndexKeys(keys: seq<Str>): (r: seq<Str>)
    ensures forall i :: 0 <= i < |r| ==> IsArrayIndex(r[i])
  {
    if keys == [] then [] else (if IsArrayIndex(keys[0]) then [keys[0]] else []) + IndexKeys(keys[1..])
  }

  /** The other keys, in their order there. */
  function OtherKeys(keys: seq<Str>): (r: seq<Str>)
    ensures forall i :: 0 <= i < |r| ==> !IsArrayIndex(r[i])
  {
    if keys == [] then [] else (if IsArrayIndex(keys[0]) then [] else [keys[0]]) + OtherKeys(keys[1..])
  }

  lemma {:induction false} SplitKeys(keys: seq<Str>)
    ensures multiset(IndexKeys(keys)) + multiset(OtherKeys(keys)) == multiset(keys)
  {
    if keys != [] {
      SplitKeys(keys[1..]);
      assert keys == [keys[0]] + keys[1..];
    }
  }

  /** The property order of an object whose keys were first added in the order `keys`. */
  function OwnKeys(keys: seq<Str>): (r: seq<Str>)
  {
    SortAscending(IndexKeys(keys), IndexValue) + OtherKeys(keys)
  }

  /**
   * The property order lists every key once and nothing else; the array-index
   * keys come first, by ascending value, and the others follow in insertion
   * order.
   */
  lemma OwnKeysOrder(keys: seq<Str>)
    ensures multiset(OwnKeys(keys)) == multiset(keys)
    ensures var r, n := OwnKeys(keys), |IndexKeys(keys)|;
      && n <= |r|
      && (forall i :: 0 <= i < |r| ==> (IsArrayIndex(r[i]) <==> i < n))
      && (forall i, j :: 0 <= i < j < n ==> DecimalValue(r[i]) <= DecimalValue(r[j]))
      && r[n..] == OtherKeys(keys)
  {
    var idx := IndexKeys(keys);
    SortAscendingCorrect(idx, IndexValue);
    SplitKeys(keys);
    var sorted := SortAscending(idx, IndexValue);
    assert |sorted| == |idx| by {
      assert |multiset(sorted)| == |multiset(idx)|;
    }
    var r := OwnKeys(keys);
    forall i | 0 <= i < |sorted|
      ensures IsArrayIndex(r[i])
    {
      assert r[i] == sorted[i];
      assert sorted[i] in multiset(idx);
      var j :| 0 <= j < |idx| && idx[j] == sorted[i];
    }
  }

  /** An object whose values are counts, and the order its keys were first added in. */
  datatype Counter = Counter(values: map<Str, nat>, order: seq<Str>)

  /** The counter holds, for each distinct item in order of first occurrence, its number of occurrences. */
  ghost predicate Tallies(c: Counter, items: seq<Str>)
  {
    && c.order == Distinct(items)
    && (forall k :: k in c.values <==> k in items)
    && (forall k :: k in c.values ==> c.values[k] == Count(items, k))
  }

  /** `for (const x of items) counter[x] = (counter[x] || 0) + 1`, from an empty object. */
  method Tally(items: seq<Str>) returns (c: Counter)
    ensures Tallies(c, items)
  {
    c := Counter(map[], []);
    for i := 0 to |items|
      invariant Tallies(c, items[..i])
    {
      var x := items[i];
      assert items[..i + 1] == items[..i] + [x];
      DistinctSnoc(items[..i], x);
      DistinctProperties(items[..i]);
      var current := if x in c.values then c.values[x] else 0;
      var order := if x in c.values then c.order else c.order + [x];
      c := Counter(c.values[x := current + 1], order);
    }
    assert items[..|items|] == items;
  }

  /** The count of a key, or 0 when the object lacks it. */
  function ValueOf(c: Counter, k: Str): nat
  {
    if k in c.values then c.values[k] else 0
  }

  /** `Object.entries(counter)` */
  function Entries(c: Counter): (r: seq<(Str, nat)>)
  {
    var keys := OwnKeys(c.order);
    seq(|keys|, i requires 0 <= i < |keys| => (keys[i], ValueOf(c, keys[i])))
  }

  /** Without duplicates in the insertion order, the property order lists exactly the same keys, each once. */
  lemma OwnKeysSameKeys(keys: seq<Str>)
    requires NoDuplicates(keys)
    ensures NoDuplicates(OwnKeys(keys))
    ensures forall k :: k in OwnKeys(keys) <==> k in keys
  {
    OwnKeysOrder(keys);
    var r := OwnKeys(keys);
    forall k
      ensures k in r <==> k in keys
    {
      assert k in r <==> k in multiset(r);
      assert k in keys <==> k in multiset(keys);
    }
    forall i, j | 0 <= i < j < |r|
      ensures r[i] != r[j]
    {
      if r[i] == r[j] {
        PairCount(r, i, j);
        DistinctOnce(keys, r[i]);
      }
    }
  }

  /** The pairs (key, number of occurrences of key in items), for the given keys in order. */
  function KeyCounts(items: seq<Str>, keys: seq<Str>): (r: seq<(Str, nat)>)
    ensures |r| == |keys|
  {
    if keys == [] then [] else [(keys[0], Count(items, keys[0]))] + KeyCounts(items, keys[1..])
  }

  lemma {:induction false} KeyCountsAt(items: seq<Str>, keys: seq<Str>, i: nat)
    requires i < |keys|
    ensures KeyCounts(items, keys)[i] == (keys[i], Count(items, keys[i]))
  {
    if i > 0 {
      KeyCountsAt(items, keys[1..], i - 1);
    }
  }

  /** The sum of the values of a list of entries. */
  function SumValues(e: seq<(Str, nat)>): nat
  {
    if e == [] then 0 else e[0].1 + SumValues(e[1..])
  }

  lemma {:induction false} SumKeyCounts(items: seq<Str>, keys: seq<Str>)
    ensures SumValues(KeyCounts(items, keys)) == SumCounts(items, keys)
  {
    if keys != [] {
      SumKeyCounts(items, keys[1..]);
      assert KeyCounts(items, keys)[1..] == KeyCounts(items, keys[1..]);
    }
  }

  /** `Object.entries` of the object a counting loop over items leaves: each distinct item with its count, in property order. */
  function CountEntries(items: seq<Str>): seq<(Str, nat)>
  {
    KeyCounts(items, OwnKeys(Distinct(items)))
  }

  /** The entries of the counter `Tally` builds are those of the specification. */
  lemma TallyAgrees(c: Counter, items: seq<Str>)
    requires Tallies(c, items)
    ensures Entries(c) == CountEntries(items)
  {
    DistinctProperties(items);
    OwnKeysSameKeys(c.order);
    var keys := OwnKeys(c.order);
    forall i | 0 <= i < |keys|
      ensures Entries(c)[i] == CountEntries(items)[i]
    {
      KeyCountsAt(items, keys, i);
      assert keys[i] in c.order;
    }
  }

  /**
   * The entries list the distinct items, each once, paired with its number of
   * occurrences, which is at least one; the counts add up to the number of
   * items.
   */
  lemma CountEntriesFacts(items: seq<Str>)
    ensures forall i :: 0 <= i < |CountEntries(items)| ==>
      CountEntries(items)[i].0 in items && CountEntries(items)[i].1 == Count(items, CountEntries(items)[i].0) >= 1
    ensures forall k :: k in items ==> exists i :: 0 <= i < |CountEntries(items)| && CountEntries(items)[i].0 == k
    ensures forall i, j :: 0 <= i < j < |CountEntries(items)| ==> CountEntries(items)[i].0 != CountEntries(items)[j].0
    ensures SumValues(CountEntries(items)) == |items|
  {
    var d := Distinct(items);
    DistinctProperties(items);
    OwnKeysSameKeys(d);
    var keys := OwnKeys(d);
    var e := CountEntries(items);
    forall i | 0 <= i < |e|
      ensures e[i].0 in items && e[i].1 == Count(items, e[i].0) >= 1
    {
      KeyCountsAt(items, keys, i);
    }
    forall k | k in items
      ensures exists i :: 0 <= i < |e| && e[i].0 == k
    {
      var i :| 0 <= i < |keys| && keys[i] == k;
      KeyCountsAt(items, keys, i);
    }
    forall i, j | 0 <= i < j < |e|
      ensures e[i].0 != e[j].0
    {
      KeyCountsAt(items, keys, i);
      KeyCountsAt(items, keys, j);
    }
    SumKeyCounts(items, keys);
    OwnKeysOrder(d);
    SumCountsPermutation(items, keys, d);
    CountsSum(items);
  }
}
