/**
 * The RC4-style cipher of `RC4Cipher`: a key schedule that swaps a 256-entry
 * table in place, and a generator that XORs every UTF-16 code unit of the text
 * with one keystream byte. The key is the word array of CryptoJS (32-bit
 * words, not bytes), so this is not byte-keyed RC4.
 */
module Rc4 {
  import opened JsText
  import Bits

  /** The table 0, 1, …, 255 the key schedule starts from. */
  function Identity(): (s: seq<int>)
    ensures |s| == 256 && forall k :: 0 <= k < 256 ==> s[k] == k
  {
    seq(256, k => k)
  }

  /** `s` is a permutation of 0..255: 256 bytes, no two of them equal. */
  predicate IsPermutation(s: seq<int>)
  {
    && |s| == 256
    && (forall k :: 0 <= k < 256 ==> 0 <= s[k] < 256)
    && (forall a, b :: 0 <= a < b < 256 ==> s[a] != s[b])
  }

  /** `[S[i], S[j]] = [S[j], S[i]]` */
  function Swap(s: seq<int>, i: int, j: int): (r: seq<int>)
    requires 0 <= i < |s| && 0 <= j < |s|
    ensures |r| == |s|
  {
    s[i := s[j]][j := s[i]]
  }

  /** Swapping two entries keeps a permutation a permutation. */
  lemma SwapPermutes(s: seq<int>, i: int, j: int)
    requires IsPermutation(s) && 0 <= i < 256 && 0 <= j < 256
    ensures IsPermutation(Swap(s, i, j))
  {
    var r := Swap(s, i, j);
    forall a, b | 0 <= a < b < 256
      ensures r[a] != r[b]
    {
      var a' := if a == i then j else if a == j then i else a;
      var b' := if b == i then j else if b == j then i else b;
      assert r[a] == s[a'] && r[b] == s[b'] && a' != b';
    }
  }

  /** All key words are non-negative, so JavaScript's `%` agrees with Dafny's. */
  predicate NonNegative(words: seq<int>)
  {
    forall k :: 0 <= k < |words| ==> words[k] >= 0
  }

  /** `keyArray[i % keyArray.length] || 0`: an empty array yields `undefined`, hence 0. */
  function KeyTerm(words: seq<int>, i: nat): int
  {
    if |words| == 0 then 0 else words[i % |words|]
  }

  datatype KsaState = KsaState(s: seq<int>, j: int)

  /** The table and `j` after the first n iterations of the key schedule. */
  function KsaAfter(words: seq<int>, n: nat): (st: KsaState)
    requires n <= 256
    ensures |st.s| == 256 && 0 <= st.j < 256
  {
    if n == 0 then KsaState(Identity(), 0)
    else
      var prev := KsaAfter(words, n - 1);
      var j := (prev.j + prev.s[n - 1] + KeyTerm(words, n - 1)) % 256;
      KsaState(Swap(prev.s, n - 1, j), j)
  }

  /** The table `initializeKey` returns. */
  function Ksa(words: seq<int>): (s: seq<int>)
    ensures |s| == 256
  {
    KsaAfter(words, 256).s
  }

  lemma {:induction false} KsaAfterPermutes(words: seq<int>, n: nat)
    requires n <= 256
    ensures IsPermutation(KsaAfter(words, n).s)
  {
    if n > 0 {
      KsaAfterPermutes(words, n - 1);
      var prev := KsaAfter(words, n - 1);
      SwapPermutes(prev.s, n - 1, KsaAfter(words, n).j);
    } else {
      assert KsaAfter(words, 0).s == Identity();
    }
  }

  /** The key schedule leaves a permutation of 0..255, whatever the key. */
  lemma KsaPermutes(words: seq<int>)
    ensures IsPermutation(Ksa(words))
  {
    KsaAfterPermutes(words, 256);
  }

  lemma {:induction false} KsaAfterSameTerms(a: seq<int>, b: seq<int>, n: nat)
    requires n <= 256
    requires forall i :: 0 <= i < 256 ==> KeyTerm(a, i) == KeyTerm(b, i)
    ensures KsaAfter(a, n) == KsaAfter(b, n)
  {
    if n > 0 {
      KsaAfterSameTerms(a, b, n - 1);
    }
  }

  /** An empty key is not rejected: it schedules exactly like an all-zero key. */
  lemma EmptyKeyIsZeroKey(m: nat)
    ensures Ksa([]) == Ksa(seq(m, _ => 0))
  {
    KsaAfterSameTerms([], seq(m, _ => 0), 256);
  }

  datatype PrgaState = PrgaState(s: seq<int>, i: int, j: int)

  /** One generator step: `i = (i + 1) % 256; j = (j + S[i]) % 256`, then swap. */
  function PrgaStep(p: PrgaState): (st: PrgaState)
    requires |p.s| == 256 && 0 <= p.i < 256
    ensures |st.s| == 256 && 0 <= st.i < 256 && 0 <= st.j < 256
  {
    var i := (p.i + 1) % 256;
    var j := (p.j + p.s[i]) % 256;
    PrgaState(Swap(p.s, i, j), i, j)
  }

  /** The table, `i` and `j` after n steps of the generator started on `s0` with i = j = 0. */
  function PrgaAfter(s0: seq<int>, n: nat): (st: PrgaState)
    requires |s0| == 256
    ensures |st.s| == 256 && 0 <= st.i < 256 && 0 <= st.j < 256
  {
    if n == 0 then PrgaState(s0, 0, 0) else PrgaStep(PrgaAfter(s0, n - 1))
  }

  /** The generator keeps the table a permutation. */
  lemma {:induction false} PrgaAfterPermutes(s0: seq<int>, n: nat)
    requires IsPermutation(s0)
    ensures IsPermutation(PrgaAfter(s0, n).s)
  {
    if n > 0 {
      var prev := PrgaAfter(s0, n - 1);
      PrgaAfterPermutes(s0, n - 1);
      PrgaStepPermutes(prev);
    }
  }

  lemma PrgaStepPermutes(p: PrgaState)
    requires IsPermutation(p.s) && 0 <= p.i < 256
    ensures IsPermutation(PrgaStep(p).s)
  {
    var st := PrgaStep(p);
    SwapPermutes(p.s, st.i, st.j);
  }

  /** `S[(S[i] + S[j]) % 256]` */
  function OutputByte(st: PrgaState): int
    requires |st.s| == 256 && 0 <= st.i < 256 && 0 <= st.j < 256
  {
    st.s[(st.s[st.i] + st.s[st.j]) % 256]
  }

  /** The first n keystream bytes the generator produces from the scheduled table `s0`. */
  function Keystream(s0: seq<int>, n: nat): (ks: seq<int>)
    requires |s0| == 256
    ensures |ks| == n
  {
    if n == 0 then [] else Keystream(s0, n - 1) + [OutputByte(PrgaAfter(s0, n))]
  }

  /** Every keystream value is a byte when the table is a permutation. */
  lemma {:induction false} KeystreamBytes(s0: seq<int>, n: nat)
    requires IsPermutation(s0)
    ensures |s0| == 256
    ensures forall k :: 0 <= k < n ==> 0 <= Keystream(s0, n)[k] < 256
  {
    if n > 0 {
      KeystreamBytes(s0, n - 1);
      PrgaAfterPermutes(s0, n);
      var st := PrgaAfter(s0, n);
      assert 0 <= OutputByte(st) < 256;
    }
  }

  /** A shorter keystream is a prefix of a longer one from the same table. */
  lemma {:induction false} KeystreamPrefix(s0: seq<int>, m: nat, n: nat)
    requires |s0| == 256 && m <= n
    ensures Keystream(s0, m) == Keystream(s0, n)[..m]
  {
    if m < n {
      KeystreamPrefix(s0, m, n - 1);
      assert Keystream(s0, n)[..n - 1] == Keystream(s0, n - 1);
    }
  }

  /** `char ^ keystreamByte` on a UTF-16 code unit. */
  function Xor16(a: CodeUnit, b: CodeUnit): CodeUnit
  {
    Bits.Pow2Values();
    Bits.XorBelow(a, b, 16);
    Bits.Xor(a, b)
  }

  lemma XorTwice(a: CodeUnit, b: CodeUnit)
    ensures Xor16(Xor16(a, b), b) == a
  {
    Bits.XorTwice(a, b);
  }

  lemma XorBytes(a: CodeUnit, b: CodeUnit)
    requires a < 256 && b < 256
    ensures Xor16(a, b) < 256
  {
    Bits.Pow2Values();
    Bits.XorBelow(a, b, 8);
  }

  /** Code unit k of the text XORed with keystream byte k. */
  function XorWith(text: Str, ks: seq<int>): (r: Str)
    requires |ks| == |text|
    requires forall k :: 0 <= k < |ks| ==> 0 <= ks[k] < 256
    ensures |r| == |text|
  {
    seq(|text|, k requires 0 <= k < |text| => Xor16(text[k], ks[k]))
  }

  lemma XorWithAppend(text: Str, ks: seq<int>, c: CodeUnit, b: int)
    requires |ks| == |text|
    requires forall k :: 0 <= k < |ks| ==> 0 <= ks[k] < 256
    requires 0 <= b < 256
    ensures XorWith(text + [c], ks + [b]) == XorWith(text, ks) + [Xor16(c, b)]
  {
  }

  /** What `process(text)` returns for the scheduled table `s0`. */
  function ProcessSpec(s0: seq<int>, text: Str): (r: Str)
    requires IsPermutation(s0)
    ensures |r| == |text|
  {
    KeystreamBytes(s0, |text|);
    XorWith(text, Keystream(s0, |text|))
  }

  /** The first k code units `process(text)` builds, one loop pass at a time. */
  function ProcessPrefix(s0: seq<int>, text: Str, k: nat): (r: Str)
    requires IsPermutation(s0) && k <= |text|
    ensures |r| == k
  {
    if k == 0 then []
    else
      PrgaAfterPermutes(s0, k);
      ProcessPrefix(s0, text, k - 1) + [Xor16(text[k - 1], OutputByte(PrgaAfter(s0, k)))]
  }

  /** The loop builds code unit k from keystream byte k. */
  lemma {:induction false} ProcessPrefixIsXor(s0: seq<int>, text: Str, k: nat)
    requires IsPermutation(s0) && k <= |text|
    ensures forall m :: 0 <= m < k ==> 0 <= Keystream(s0, k)[m] < 256
    ensures ProcessPrefix(s0, text, k) == XorWith(text[..k], Keystream(s0, k))
  {
    KeystreamBytes(s0, k);
    if k > 0 {
      ProcessPrefixIsXor(s0, text, k - 1);
      KeystreamBytes(s0, k - 1);
      PrgaAfterPermutes(s0, k);
      var b := OutputByte(PrgaAfter(s0, k));
      XorWithAppend(text[..k - 1], Keystream(s0, k - 1), text[k - 1], b);
      assert text[..k] == text[..k - 1] + [text[k - 1]];
    }
  }

  lemma ProcessPrefixAll(s0: seq<int>, text: Str)
    requires IsPermutation(s0)
    ensures ProcessPrefix(s0, text, |text|) == ProcessSpec(s0, text)
  {
    ProcessPrefixIsXor(s0, text, |text|);
    assert text[..|text|] == text;
  }

  /** Processing is its own inverse: `decrypt(encrypt(t)) == t` for every string. */
  lemma ProcessTwice(s0: seq<int>, text: Str)
    requires IsPermutation(s0)
    ensures ProcessSpec(s0, ProcessSpec(s0, text)) == text
  {
    KeystreamBytes(s0, |text|);
    var once := ProcessSpec(s0, text);
    var ks := Keystream(s0, |text|);
    forall k | 0 <= k < |text|
      ensures ProcessSpec(s0, once)[k] == text[k]
    {
      XorTwice(text[k], ks[k]);
    }
  }

  /** Text of code units below 256 stays below 256. */
  lemma ProcessKeepsBytes(s0: seq<int>, text: Str)
    requires IsPermutation(s0)
    requires forall k :: 0 <= k < |text| ==> text[k] < 256
    ensures forall k :: 0 <= k < |text| ==> ProcessSpec(s0, text)[k] < 256
  {
    KeystreamBytes(s0, |text|);
    var ks := Keystream(s0, |text|);
    forall k | 0 <= k < |text|
      ensures ProcessSpec(s0, text)[k] < 256
    {
      XorBytes(text[k], ks[k]);
    }
  }

  class RC4Cipher {
    /** The scheduled table (`this.key`); no method changes it after construction. */
    var key: array<int>

    ghost predicate Valid()
      reads this, key
    {
      key.Length == 256 && IsPermutation(key[..])
    }

    constructor (words: seq<int>)
      requires NonNegative(words)
      ensures Valid() && fresh(key)
      ensures key[..] == Ksa(words)
    {
      var table := InitializeKey(words);
      key := table;
      KsaPermutes(words);
    }

    /** The key schedule over a fresh 256-entry array. */
    static method InitializeKey(words: seq<int>) returns (s: array<int>)
      requires NonNegative(words)
      ensures fresh(s) && s[..] == Ksa(words)
    {
      s := new int[256](k => k);
      assert s[..] == Identity();
      var j := 0;
      for i := 0 to 256
        invariant s.Length == 256
        invariant KsaState(s[..], j) == KsaAfter(words, i)
      {
        j := KsaStep(s, words, i, j);
      }
    }

    /** One pass of the loop in `initializeKey`. */
    static method KsaStep(s: array<int>, words: seq<int>, i: nat, j0: int) returns (j: int)
      requires s.Length == 256 && i < 256 && KsaState(s[..], j0) == KsaAfter(words, i)
      modifies s
      ensures KsaState(s[..], j) == KsaAfter(words, i + 1)
    {
      j := (j0 + s[i] + KeyTerm(words, i)) % 256;
      SwapEntries(s, i, j);
    }

    /** A working copy of the table, so that `this.key` stays as it is. */
    method CopyState() returns (s: array<int>)
      requires Valid()
      ensures fresh(s) && s[..] == key[..]
    {
      var snapshot := key[..];
      s := new int[256](k requires 0 <= k < 256 => snapshot[k]);
      assert s[..] == snapshot;
    }

    /** `[S[i], S[j]] = [S[j], S[i]]` on the working table. */
    static method SwapEntries(s: array<int>, i: int, j: int)
      requires 0 <= i < s.Length && 0 <= j < s.Length
      modifies s
      ensures s[..] == Swap(old(s[..]), i, j)
    {
      s[i], s[j] := s[j], s[i];
    }

    /** One step of the generator on the working table. */
    static method Step(s: array<int>, i0: int, j0: int) returns (i: int, j: int)
      requires s.Length == 256 && 0 <= i0 < 256
      modifies s
      ensures PrgaState(s[..], i, j) == PrgaStep(PrgaState(old(s[..]), i0, j0))
    {
      i := (i0 + 1) % 256;
      j := (j0 + s[i]) % 256;
      SwapEntries(s, i, j);
    }

    /** `process(text)`: restarts the generator on a copy of the table. */
    method Process(text: Str) returns (result: Str)
      requires Valid()
      ensures result == ProcessSpec(key[..], text)
    {
      var s := CopyState();
      result := XorKeystream(s, text);
    }

    /** One step of the generator followed by its output byte. */
    static method NextByte(s: array<int>, i0: int, j0: int, ghost s0: seq<int>, ghost n: nat) returns (i: int, j: int, b: int)
      requires IsPermutation(s0) && PrgaState(s[..], i0, j0) == PrgaAfter(s0, n)
      modifies s
      ensures PrgaState(s[..], i, j) == PrgaAfter(s0, n + 1)
      ensures b == OutputByte(PrgaAfter(s0, n + 1)) && 0 <= b < 256
    {
      i, j := Step(s, i0, j0);
      PrgaAfterPermutes(s0, n + 1);
      b := s[(s[i] + s[j]) % 256];
    }

    /** The loop of `process`: XOR each code unit with the next keystream byte. */
    static method XorKeystream(s: array<int>, text: Str) returns (result: Str)
      requires IsPermutation(s[..])
      modifies s
      ensures result == ProcessSpec(old(s[..]), text)
    {
      ghost var s0 := s[..];
      var i, j := 0, 0;
      result := [];
      for k := 0 to |text|
        invariant PrgaState(s[..], i, j) == PrgaAfter(s0, k)
        invariant result == ProcessPrefix(s0, text, k)
      {
        var keystreamByte;
        i, j, keystreamByte := NextByte(s, i, j, s0, k);
        result := result + [Xor16(text[k], keystreamByte)];
      }
      ProcessPrefixAll(s0, text);
    }

    method Encrypt(plaintext: Str) returns (ciphertext: Str)
      requires Valid()
      ensures ciphertext == ProcessSpec(key[..], plaintext)
    {
      ciphertext := Process(plaintext);
    }

    method Decrypt(ciphertext: Str) returns (plaintext: Str)
      requires Valid()
      ensures plaintext == ProcessSpec(key[..], ciphertext)
    {
      plaintext := Process(ciphertext);
    }

    /** `generateKeystream(length)` */
    method GenerateKeystream(length: nat) returns (keystream: seq<int>)
      requires Valid()
      ensures keystream == Keystream(key[..], length)
      ensures forall k :: 0 <= k < length ==> 0 <= keystream[k] < 256
    {
      var s := CopyState();
      ghost var s0 := key[..];
      var i, j := 0, 0;
      keystream := [];
      for k := 0 to length
        invariant PrgaState(s[..], i, j) == PrgaAfter(s0, k)
        invariant keystream == Keystream(s0, k)
      {
        var b;
        i, j, b := NextByte(s, i, j, s0, k);
        keystream := keystream + [b];
      }
      KeystreamBytes(s0, length);
    }
  }
}
