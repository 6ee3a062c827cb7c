/**
 * The simplified ChaCha20 of `ChaCha20Cipher`: the block function of RFC 8439
 * (section 2.3) with a 32-bit block counter that starts at 0, a key and a
 * nonce taken from the UTF-8 bytes of strings, and XOR of the UTF-8 bytes of
 * the text with the keystream.  Words are the entries of a `Uint32Array`, so
 * every addition wraps modulo 2^32.
 */
module ChaCha20 {
  import opened Wrappers
  import opened JsText
  import opened Utf8

  type Word = bv32

  /** `(a + b) >>> 0` */
  function AddW(a: Word, b: Word): Word
  {
    a + b
  }

  /** `rotateLeft(value, bits)`: JavaScript takes shift counts modulo 32. */
  function RotateLeft(value: Word, bits: Word): Word
  {
    (value << (bits & 31)) | (value >> ((32 - bits) & 31))
  }

  /** `rotateLeft(x ^ y, bits)` */
  function XorRot(x: Word, y: Word, bits: Word): Word
  {
    RotateLeft(x ^ y, bits)
  }


  /** For every distance from 1 to 31, `rotateLeft` is the 32-bit left rotation. */
  lemma RotateLeftRotates(value: Word, n: nat)
    requires 0 < n < 32
    ensures RotateLeft(value, n as Word) == value.RotateLeft(n)
  {
    if n <= 8 {
      RotateLeftFrom1(value, n);
    } else if n <= 16 {
      RotateLeftFrom9(value, n);
    } else if n <= 24 {
      RotateLeftFrom17(value, n);
    } else {
      RotateLeftFrom25(value, n);
    }
  }

  // The distances in four ranges, each proved one distance at a time.

  lemma RotateLeftFrom1(value: Word, n: nat)
    requires 1 <= n <= 8
    ensures RotateLeft(value, n as Word) == value.RotateLeft(n)
  {
    if n == 1 {
      assert n as Word == 1 && value.RotateLeft(n) == value.RotateLeft(1);
    } else if n == 2 {
      assert n as Word == 2 && value.RotateLeft(n) == value.RotateLeft(2);
    } else if n == 3 {
      assert n as Word == 3 && value.RotateLeft(n) == value.RotateLeft(3);
    } else if n == 4 {
      assert n as Word == 4 && value.RotateLeft(n) == value.RotateLeft(4);
    } else if n == 5 {
      assert n as Word == 5 && value.RotateLeft(n) == value.RotateLeft(5);
    } else if n == 6 {
      assert n as Word == 6 && value.RotateLeft(n) == value.RotateLeft(6);
    } else if n == 7 {
      assert n as Word == 7 && value.RotateLeft(n) == value.RotateLeft(7);
    } else if n == 8 {
      assert n as Word == 8 && value.RotateLeft(n) == value.RotateLeft(8);
    }
  }

  lemma RotateLeftFrom9(value: Word, n: nat)
    requires 9 <= n <= 16
    ensures RotateLeft(value, n as Word) == value.RotateLeft(n)
  {
    if n == 9 {
      assert n as Word == 9 && value.RotateLeft(n) == value.RotateLeft(9);
    } else if n == 10 {
      assert n as Word == 10 && value.RotateLeft(n) == value.RotateLeft(10);
    } else if n == 11 {
      assert n as Word == 11 && value.RotateLeft(n) == value.RotateLeft(11);
    } else if n == 12 {
      assert n as Word == 12 && value.RotateLeft(n) == value.RotateLeft(12);
    } else if n == 13 {
      assert n as Word == 13 && value.RotateLeft(n) == value.RotateLeft(13);
    } else if n == 14 {
      assert n as Word == 14 && value.RotateLeft(n) == value.RotateLeft(14);
    } else if n == 15 {
      assert n as Word == 15 && value.RotateLeft(n) == value.RotateLeft(15);
    } else if n == 16 {
      assert n as Word == 16 && value.RotateLeft(n) == value.RotateLeft(16);
    }
  }

  lemma RotateLeftFrom17(value: Word, n: nat)
    requires 17 <= n <= 24
    ensures RotateLeft(value, n as Word) == value.RotateLeft(n)
  {
    if n == 17 {
      assert n as Word == 17 && value.RotateLeft(n) == value.RotateLeft(17);
    } else if n == 18 {
      assert n as Word == 18 && value.RotateLeft(n) == value.RotateLeft(18);
    } else if n == 19 {
      assert n as Word == 19 && value.RotateLeft(n) == value.RotateLeft(19);
    } else if n == 20 {
      assert n as Word == 20 && value.RotateLeft(n) == value.RotateLeft(20);
    } else if n == 21 {
      assert n as Word == 21 && value.RotateLeft(n) == value.RotateLeft(21);
    } else if n == 22 {
      assert n as Word == 22 && value.RotateLeft(n) == value.RotateLeft(22);
    } else if n == 23 {
      assert n as Word == 23 && value.RotateLeft(n) == value.RotateLeft(23);
    } else if n == 24 {
      assert n as Word == 24 && value.RotateLeft(n) == value.RotateLeft(24);
    }
  }

  lemma RotateLeftFrom25(value: Word, n: nat)
    requires 25 <= n <= 31
    ensures RotateLeft(value, n as Word) == value.RotateLeft(n)
  {
    if n == 25 {
      assert n as Word == 25 && value.RotateLeft(n) == value.RotateLeft(25);
    } else if n == 26 {
      assert n as Word == 26 && value.RotateLeft(n) == value.RotateLeft(26);
    } else if n == 27 {
      assert n as Word == 27 && value.RotateLeft(n) == value.RotateLeft(27);
    } else if n == 28 {
      assert n as Word == 28 && value.RotateLeft(n) == value.RotateLeft(28);
    } else if n == 29 {
      assert n as Word == 29 && value.RotateLeft(n) == value.RotateLeft(29);
    } else if n == 30 {
      assert n as Word == 30 && value.RotateLeft(n) == value.RotateLeft(30);
    } else if n == 31 {
      assert n as Word == 31 && value.RotateLeft(n) == value.RotateLeft(31);
    }
  }

  /** The state after `quarterRound(state, a, b, c, d)`. */
  function QuarterRoundOn(s: seq<Word>, a: nat, b: nat, c: nat, d: nat): (r: seq<Word>)
    requires |s| == 16 && a < 16 && b < 16 && c < 16 && d < 16
    ensures |r| == 16
  {
    var s1 := s[a := AddW(s[a], s[b])];
    var s2 := s1[d := XorRot(s1[d], s1[a], 16)];
    var s3 := s2[c := AddW(s2[c], s2[d])];
    var s4 := s3[b := XorRot(s3[b], s3[c], 12)];
    var s5 := s4[a := AddW(s4[a], s4[b])];
    var s6 := s5[d := XorRot(s5[d], s5[a], 8)];
    var s7 := s6[c := AddW(s6[c], s6[d])];
    s7[b := XorRot(s7[b], s7[c], 7)]
  }

  /** A quarter round touches only its four words. */
  lemma QuarterRoundFrame(s: seq<Word>, a: nat, b: nat, c: nat, d: nat, k: nat)
    requires |s| == 16 && a < 16 && b < 16 && c < 16 && d < 16 && k < 16
    requires k != a && k != b && k != c && k != d
    ensures QuarterRoundOn(s, a, b, c, d)[k] == s[k]
  {
    var s1 := s[a := AddW(s[a], s[b])];
    var s2 := s1[d := XorRot(s1[d], s1[a], 16)];
    var s3 := s2[c := AddW(s2[c], s2[d])];
    var s4 := s3[b := XorRot(s3[b], s3[c], 12)];
    var s5 := s4[a := AddW(s4[a], s4[b])];
    var s6 := s5[d := XorRot(s5[d], s5[a], 8)];
    var s7 := s6[c := AddW(s6[c], s6[d])];
    assert s7[k] == s[k];
  }

  datatype Quad = Quad(a: Word, b: Word, c: Word, d: Word)

  /** The four words `quarterRound` computes, with the rotation of `rotateLeft`. */
  function QuarterRoundWords(q: Quad): Quad
  {
    var a1 := AddW(q.a, q.b);
    var d1 := XorRot(q.d, a1, 16);
    var c1 := AddW(q.c, d1);
    var b1 := XorRot(q.b, c1, 12);
    var a2 := AddW(a1, b1);
    var d2 := XorRot(d1, a2, 8);
    var c2 := AddW(c1, d2);
    var b2 := XorRot(b1, c2, 7);
    Quad(a2, b2, c2, d2)
  }

  /** On four distinct positions the quarter round reads and writes exactly those four words. */
  lemma QuarterRoundWordsAt(s: seq<Word>, a: nat, b: nat, c: nat, d: nat)
    requires |s| == 16 && a < 16 && b < 16 && c < 16 && d < 16
    requires a != b && a != c && a != d && b != c && b != d && c != d
    ensures var r := QuarterRoundOn(s, a, b, c, d);
      Quad(r[a], r[b], r[c], r[d]) == QuarterRoundWords(Quad(s[a], s[b], s[c], s[d]))
  {
  }

  /** The quarter-round test vector of section 2.1.1 of RFC 8439. */
  lemma QuarterRoundVector()
    ensures QuarterRoundWords(Quad(0x11111111, 0x01020304, 0x9b8d6f43, 0x01234567))
         == Quad(0xea2a92f4, 0xcb1cf8ce, 0x4581472e, 0x5881c4bb)
  {
  }

  /** The quarter round on a ChaCha state, section 2.2.1 of RFC 8439: words 2, 7, 8 and 13 change. */
  lemma QuarterRoundStateVector(s: seq<Word>)
    requires s == [0x879531e0, 0xc5ecf37d, 0x516461b1, 0xc9a62f8a,
                   0x44c20ef3, 0x3390af7f, 0xd9fc690b, 0x2a5f714c,
                   0x53372767, 0xb00a5631, 0x974c541a, 0x359e9963,
                   0x5c971061, 0x3d631689, 0x2098d9d6, 0x91dbd320]
    ensures QuarterRoundOn(s, 2, 7, 8, 13)
         == [0x879531e0, 0xc5ecf37d, 0xbdb886dc, 0xc9a62f8a,
             0x44c20ef3, 0x3390af7f, 0xd9fc690b, 0xcfacafd2,
             0xe46bea80, 0xb00a5631, 0x974c541a, 0x359e9963,
             0x5c971061, 0xccc07c79, 0x2098d9d6, 0x91dbd320]
  {
    var r := QuarterRoundOn(s, 2, 7, 8, 13);
    QuarterRoundWordsAt(s, 2, 7, 8, 13);
    assert QuarterRoundWords(Quad(0x516461b1, 0x2a5f714c, 0x53372767, 0x3d631689))
        == Quad(0xbdb886dc, 0xcfacafd2, 0xe46bea80, 0xccc07c79);
    forall k | 0 <= k < 16 && k != 2 && k != 7 && k != 8 && k != 13
      ensures r[k] == s[k]
    {
      QuarterRoundFrame(s, 2, 7, 8, 13, k);
    }
  }

  /** A position in the state. */
  type Index = i: nat | i < 16

  /** The four positions one `quarterRound` call works on. */
  datatype Lanes = Lanes(a: Index, b: Index, c: Index, d: Index)

  /** The quarter rounds of one pass of the loop: the four columns, then the four diagonals. */
  const DoubleRoundLanes: seq<Lanes> :=
    [Lanes(0, 4, 8, 12), Lanes(1, 5, 9, 13), Lanes(2, 6, 10, 14), Lanes(3, 7, 11, 15),
     Lanes(0, 5, 10, 15), Lanes(1, 6, 11, 12), Lanes(2, 7, 8, 13), Lanes(3, 4, 9, 14)]

  /** The quarter rounds of n passes of the loop. */
  function Schedule(n: nat): (r: seq<Lanes>)
    ensures |r| == 8 * n
  {
    if n == 0 then [] else Schedule(n - 1) + DoubleRoundLanes
  }

  /** The quarter rounds on the given lanes, first to last. */
  function QuarterRounds(s: seq<Word>, lanes: seq<Lanes>): (r: seq<Word>)
    requires |s| == 16
    ensures |r| == 16
    decreases |lanes|
  {
    if |lanes| == 0 then s
    else
      var l := lanes[|lanes| - 1];
      QuarterRoundOn(QuarterRounds(s, lanes[..|lanes| - 1]), l.a, l.b, l.c, l.d)
  }

  /** One pass of the loop over `round`, which advances it by two. */
  function DoubleRound(s: seq<Word>): (r: seq<Word>)
    requires |s| == 16
    ensures |r| == 16
  {
    QuarterRounds(s, DoubleRoundLanes)
  }

  /** n passes of the loop. */
  function Rounds(s: seq<Word>, n: nat): (r: seq<Word>)
    requires |s| == 16
    ensures |r| == 16
  {
    QuarterRounds(s, Schedule(n))
  }

  /** Running two lists of quarter rounds is running their concatenation. */
  lemma {:induction false} QuarterRoundsAppend(s: seq<Word>, first: seq<Lanes>, second: seq<Lanes>)
    requires |s| == 16
    ensures QuarterRounds(s, first + second) == QuarterRounds(QuarterRounds(s, first), second)
    decreases |second|
  {
    if |second| == 0 {
      assert first + second == first;
    } else {
      assert (first + second)[..|first + second| - 1] == first + second[..|second| - 1];
      QuarterRoundsAppend(s, first, second[..|second| - 1]);
    }
  }

  /** Each further pass is one more double round. */
  lemma RoundsStep(s: seq<Word>, n: nat)
    requires |s| == 16
    ensures Rounds(s, n + 1) == QuarterRounds(Rounds(s, n), DoubleRoundLanes[..8])
  {
    assert DoubleRoundLanes[..8] == DoubleRoundLanes;
    QuarterRoundsAppend(s, Schedule(n), DoubleRoundLanes);
  }

  /** One more quarter round. */
  lemma QuarterRoundsNext(s: seq<Word>, lanes: seq<Lanes>, k: nat)
    requires |s| == 16 && k < |lanes|
    ensures QuarterRounds(s, lanes[..k + 1])
         == QuarterRoundOn(QuarterRounds(s, lanes[..k]), lanes[k].a, lanes[k].b, lanes[k].c, lanes[k].d)
  {
    assert lanes[..k + 1][..k] == lanes[..k];
  }

  /** `workingState[i] = (workingState[i] + state[i]) >>> 0` for every i. */
  function AddStates(w: seq<Word>, s: seq<Word>): (r: seq<Word>)
    requires |w| == 16 && |s| == 16
    ensures |r| == 16
  {
    seq(16, i requires 0 <= i < 16 => AddW(w[i], s[i]))
  }

  /** "expand 32-byte k" */
  const Sigma: seq<Word> := [0x61707865, 0x3320646e, 0x79622d32, 0x6b206574]

  /** The state `chachaBlock` builds: constants, key, counter, nonce. */
  function InitialState(key: seq<Word>, nonce: seq<Word>, counter: Word): (s: seq<Word>)
    requires |key| == 8 && |nonce| == 3
    ensures |s| == 16
  {
    Sigma + key + [counter] + nonce
  }

  /** A state that agrees with the input state position by position is the input state. */
  lemma InitialStateAt(key: seq<Word>, nonce: seq<Word>, counter: Word, s: seq<Word>)
    requires |key| == 8 && |nonce| == 3 && |s| == 16
    requires forall m :: 0 <= m < 4 ==> s[m] == Sigma[m]
    requires forall m :: 0 <= m < 8 ==> s[4 + m] == key[m]
    requires s[12] == counter
    requires forall m :: 0 <= m < 3 ==> s[13 + m] == nonce[m]
    ensures s == InitialState(key, nonce, counter)
  {
    var init := InitialState(key, nonce, counter);
    forall m | 0 <= m < 16
      ensures s[m] == init[m]
    {
      if m < 4 {
      } else if m < 12 {
        assert s[4 + (m - 4)] == key[m - 4];
      } else if m == 12 {
      } else {
        assert s[13 + (m - 13)] == nonce[m - 13];
      }
    }
  }

  /** `state[12] = counter` stores the counter modulo 2^32: counting up in a wrapping word. */
  function CounterWord(counter: nat): Word
  {
    if counter == 0 then 0 else CounterWord(counter - 1) + 1
  }

  /** Twenty rounds: the loop over `round` makes ten passes of two. */
  const DoubleRoundCount: nat := 10

  /** The block function: twenty rounds, then the input state added word by word. */
  function Block(key: seq<Word>, nonce: seq<Word>, counter: Word): (r: seq<Word>)
    requires |key| == 8 && |nonce| == 3
    ensures |r| == 16
  {
    var init := InitialState(key, nonce, counter);
    AddStates(Rounds(init, DoubleRoundCount), init)
  }

  /** Byte k (0 = least significant) of a word. */
  function WordByte(w: Word, k: nat): bv8
    requires k < 4
  {
    var shifted := if k == 0 then w else if k == 1 then w >> 8 else if k == 2 then w >> 16 else w >> 24;
    (shifted & 0xFF) as bv8
  }

  /** `new Uint8Array(block.buffer)` on a little-endian platform. */
  function BlockBytes(block: seq<Word>): (r: seq<bv8>)
    requires |block| == 16
    ensures |r| == 64
  {
    seq(64, i requires 0 <= i < 64 => WordByte(block[i / 4], i % 4))
  }

  /** `b0 | (b1 << 8) | (b2 << 16) | (b3 << 24)`, as stored in a `Uint32Array`. */
  function PackLE(b0: bv8, b1: bv8, b2: bv8, b3: bv8): Word
  {
    (b0 as Word) | ((b1 as Word) << 8) | ((b2 as Word) << 16) | ((b3 as Word) << 24)
  }

  /** Packing and reading the bytes back are inverse. */
  lemma PackLEBytes(b0: bv8, b1: bv8, b2: bv8, b3: bv8)
    ensures WordByte(PackLE(b0, b1, b2, b3), 0) == b0 && WordByte(PackLE(b0, b1, b2, b3), 1) == b1
    ensures WordByte(PackLE(b0, b1, b2, b3), 2) == b2 && WordByte(PackLE(b0, b1, b2, b3), 3) == b3
  {
  }

  lemma BytesPackLE(w: Word)
    ensures PackLE(WordByte(w, 0), WordByte(w, 1), WordByte(w, 2), WordByte(w, 3)) == w
  {
  }

  /** A byte as the bit pattern a `Uint8Array` entry holds. */
  function ByteBits(b: Byte): bv8
  {
    if b == 0 then 0 else ByteBits(b - 1) + 1
  }

  /** The entries of a `Uint8Array` made from the encoder's bytes. */
  function ToBv8(bytes: seq<Byte>): (r: seq<bv8>)
    ensures |r| == |bytes|
  {
    seq(|bytes|, i requires 0 <= i < |bytes| => ByteBits(bytes[i]))
  }

  /** The first `count` little-endian words of `bytes`. */
  function PackWords(bytes: seq<bv8>, count: nat): (r: seq<Word>)
    requires |bytes| >= 4 * count
    ensures |r| == count
  {
    seq(count, i requires 0 <= i < count => PackLE(bytes[i * 4], bytes[i * 4 + 1], bytes[i * 4 + 2], bytes[i * 4 + 3]))
  }

  /** `s.padEnd(len, '0').substring(0, len)` */
  function Fit(s: Str, len: nat): (r: Str)
    ensures |r| == len
  {
    PadEnd(s, len, '0' as int)[..len]
  }

  /** `new TextEncoder().encode(key.padEnd(32, '0').substring(0, 32))` */
  function KeyBytes(key: Str): (r: seq<bv8>)
    ensures |r| >= 32
  {
    ToBv8(TextEncode(Fit(key, 32)))
  }

  /** The words `parseKey(key)` returns. */
  function KeyWords(key: Str): (r: seq<Word>)
    ensures |r| == 8
  {
    PackWords(KeyBytes(key), 8)
  }

  /** The bytes `parseNonce(nonce)` reads. */
  function NonceBytes(nonce: Str): (r: seq<bv8>)
    ensures |r| >= 12
  {
    ToBv8(TextEncode(Fit(nonce, 12)))
  }

  /** `nonce ? parseNonce(nonce) : new Uint32Array(3)`: a missing or empty nonce is all zeros. */
  function NonceWords(nonce: Option<Str>): (r: seq<Word>)
    ensures |r| == 3
    ensures nonce == None || nonce == Some([]) ==> r == [0, 0, 0]
  {
    if nonce == None || nonce == Some([]) then [0, 0, 0] else PackWords(NonceBytes(nonce.value), 3)
  }

  /** Only the first 32 code units of a key count. */
  lemma KeyPrefixOnly(key: Str)
    requires |key| >= 32
    ensures KeyWords(key) == KeyWords(key[..32])
  {
    assert Fit(key, 32) == Fit(key[..32], 32);
  }

  /** A short key and the same key followed by '0' are the same key. */
  lemma KeyZeroPadding(key: Str)
    requires |key| < 32
    ensures KeyWords(key + ['0' as int]) == KeyWords(key)
  {
    var padded := Fit(key, 32);
    var longer := Fit(key + ['0' as int], 32);
    assert |padded| == |longer|;
    forall i | 0 <= i < 32
      ensures padded[i] == longer[i]
    {
      if i < |key| {
        assert padded[i] == PadEnd(key, 32, '0' as int)[..|key|][i];
        assert longer[i] == PadEnd(key + ['0' as int], 32, '0' as int)[..|key| + 1][i];
      }
    }
    assert padded == longer;
  }

  /** An ASCII key lands in the key words byte for byte, padded with '0'. */
  lemma KeyWordsAscii(key: Str, i: nat, k: nat)
    requires forall m :: 0 <= m < |key| ==> key[m] < 0x80
    requires i < 8 && k < 4
    ensures WordByte(KeyWords(key)[i], k) == ByteBits(Fit(key, 32)[i * 4 + k])
  {
    FitAscii(key, 32);
    PackWordsByte(KeyBytes(key), 8, i, k);
  }

  /** Fitting ASCII text keeps it ASCII, so the text encoder copies it unchanged. */
  lemma FitAscii(s: Str, len: nat)
    requires forall m :: 0 <= m < |s| ==> s[m] < 0x80
    ensures TextEncode(Fit(s, len)) == Fit(s, len)
  {
    var padded := Fit(s, len);
    forall m | 0 <= m < len
      ensures padded[m] < 0x80
    {
      if m < |s| {
        assert padded[m] == PadEnd(s, len, '0' as int)[..|s|][m];
      }
    }
    TextEncodeAscii(padded);
  }

  /** Byte k of packed word i is byte i * 4 + k of the input. */
  lemma PackWordsByte(bytes: seq<bv8>, count: nat, i: nat, k: nat)
    requires |bytes| >= 4 * count && i < count && k < 4
    ensures WordByte(PackWords(bytes, count)[i], k) == bytes[i * 4 + k]
  {
    var w := PackWords(bytes, count)[i];
    assert w == PackLE(bytes[i * 4], bytes[i * 4 + 1], bytes[i * 4 + 2], bytes[i * 4 + 3]);
    PackLEBytes(bytes[i * 4], bytes[i * 4 + 1], bytes[i * 4 + 2], bytes[i * 4 + 3]);
    if k == 0 {
      assert WordByte(w, 0) == bytes[i * 4];
    } else if k == 1 {
      assert WordByte(w, 1) == bytes[i * 4 + 1];
    } else if k == 2 {
      assert WordByte(w, 2) == bytes[i * 4 + 2];
    } else {
      assert WordByte(w, 3) == bytes[i * 4 + 3];
    }
  }

  /** Blocks 0 .. count - 1 of 64 bytes each, one after another. */
  function JoinBlocks(block: nat -> seq<bv8>, count: nat): (r: seq<bv8>)
    requires forall c :: |block(c)| == 64
    ensures |r| == 64 * count
  {
    if count == 0 then [] else JoinBlocks(block, count - 1) + block(count - 1)
  }

  /** Byte j of block c is byte 64 * c + j of the concatenation. */
  lemma {:induction false} JoinBlocksAt(block: nat -> seq<bv8>, count: nat, c: nat, j: nat)
    requires forall c :: |block(c)| == 64
    requires j < 64 && c < count
    ensures JoinBlocks(block, count)[64 * c + j] == block(c)[j]
    decreases count
  {
    if c < count - 1 {
      JoinBlocksAt(block, count - 1, c, j);
    }
  }

  /** Byte n of the concatenation is byte n % 64 of block n / 64. */
  lemma JoinBlocksPosition(block: nat -> seq<bv8>, count: nat, n: nat)
    requires forall c :: |block(c)| == 64
    requires n < 64 * count
    ensures JoinBlocks(block, count)[n] == block(n / 64)[n % 64]
  {
    JoinBlocksAt(block, count, n / 64, n % 64);
  }

  /** Writing block c after blocks 0 .. c - 1 gives blocks 0 .. c. */
  lemma JoinBlocksGrow(block: nat -> seq<bv8>, c: nat, before: seq<bv8>, after: seq<bv8>)
    requires forall c :: |block(c)| == 64
    requires |before| == |after| && 64 * c < |after|
    requires forall m :: 0 <= m < |before| && m < 64 * c ==> before[m] == JoinBlocks(block, c)[m]
    requires forall m :: 0 <= m < |after| && !(64 * c <= m < 64 * c + 64) ==> after[m] == before[m]
    requires forall m :: 64 * c <= m < |after| && m < 64 * c + 64 ==> after[m] == block(c)[m - 64 * c]
    ensures forall m :: 0 <= m < |after| && m < 64 * c + 64 ==> after[m] == JoinBlocks(block, c + 1)[m]
  {
  }

  /** A buffer that agrees with the blocks on its whole length is their prefix. */
  lemma JoinBlocksPrefix(block: nat -> seq<bv8>, count: nat, ks: seq<bv8>)
    requires forall c :: |block(c)| == 64
    requires |ks| <= 64 * count
    requires forall m :: 0 <= m < |ks| ==> ks[m] == JoinBlocks(block, count)[m]
    ensures ks == JoinBlocks(block, count)[..|ks|]
  {
  }

  /** Block `counter` of the keystream: the block function at that counter, serialised. */
  function KeystreamBlock(key: seq<Word>, nonce: seq<Word>, counter: nat): (r: seq<bv8>)
    requires |key| == 8 && |nonce| == 3
    ensures |r| == 64
  {
    BlockBytes(Block(key, nonce, CounterWord(counter)))
  }

  /** The keystream's blocks, counter by counter. */
  function BlockStream(key: seq<Word>, nonce: seq<Word>): (block: nat -> seq<bv8>)
    requires |key| == 8 && |nonce| == 3
    ensures forall c :: |block(c)| == 64
  {
    (c: nat) => KeystreamBlock(key, nonce, c)
  }

  /** The passes of `for (i = 0; i < length; i += 64)`: just enough blocks to cover the length. */
  function BlockCount(length: nat): (n: nat)
    ensures length <= 64 * n < length + 64
  {
    (length + 63) / 64
  }

  /** `generateKeystream(length)`: whole blocks, the last one cut to length. */
  function KeystreamSpec(key: seq<Word>, nonce: seq<Word>, length: nat): (r: seq<bv8>)
    requires |key| == 8 && |nonce| == 3
    ensures |r| == length
  {
    JoinBlocks(BlockStream(key, nonce), BlockCount(length))[..length]
  }
  /** The buffer holds the first `count` blocks of the keystream, as far as it reaches. */
  ghost predicate Filled(ks: seq<bv8>, key: seq<Word>, nonce: seq<Word>, count: nat)
    requires |key| == 8 && |nonce| == 3
  {
    forall m :: 0 <= m < |ks| && m < 64 * count ==> ks[m] == JoinBlocks(BlockStream(key, nonce), count)[m]
  }

  /** The first `length` bytes of `count` whole blocks, with `count` the fewest that cover them, are the keystream. */
  lemma KeystreamFilled(key: seq<Word>, nonce: seq<Word>, length: nat, count: nat, ks: seq<bv8>)
    requires |key| == 8 && |nonce| == 3
    requires |ks| == length && length <= 64 * count < length + 64
    requires Filled(ks, key, nonce, count)
    ensures ks == KeystreamSpec(key, nonce, length)
  {
    assert count == BlockCount(length);
    JoinBlocksPrefix(BlockStream(key, nonce), count, ks);
  }


  /** Byte j of block `counter` sits at position 64 * counter + j of the keystream. */
  lemma KeystreamByte(key: seq<Word>, nonce: seq<Word>, length: nat, counter: nat, j: nat)
    requires |key| == 8 && |nonce| == 3 && j < 64 && 64 * counter + j < length
    ensures KeystreamSpec(key, nonce, length)[64 * counter + j] == BlockStream(key, nonce)(counter)[j]
  {
    JoinBlocksAt(BlockStream(key, nonce), BlockCount(length), counter, j);
  }

  /** Byte n of the keystream is byte n % 64 of block n / 64, whatever the length. */
  lemma KeystreamPosition(key: seq<Word>, nonce: seq<Word>, length: nat, n: nat)
    requires |key| == 8 && |nonce| == 3 && n < length
    ensures KeystreamSpec(key, nonce, length)[n] == BlockStream(key, nonce)(n / 64)[n % 64]
  {
    JoinBlocksPosition(BlockStream(key, nonce), BlockCount(length), n);
  }

  /** A keystream is a prefix of every longer one: the length only truncates. */
  lemma KeystreamPrefix(key: seq<Word>, nonce: seq<Word>, m: nat, n: nat)
    requires |key| == 8 && |nonce| == 3 && m <= n
    ensures KeystreamSpec(key, nonce, n)[..m] == KeystreamSpec(key, nonce, m)
  {
    forall i | 0 <= i < m
      ensures KeystreamSpec(key, nonce, n)[i] == KeystreamSpec(key, nonce, m)[i]
    {
      KeystreamPosition(key, nonce, n, i);
      KeystreamPosition(key, nonce, m, i);
    }
  }

  /** `textBytes[i] ^ keystream[i]` for every i. */
  function XorBytes(a: seq<bv8>, b: seq<bv8>): (r: seq<bv8>)
    requires |a| == |b|
    ensures |r| == |a|
  {
    seq(|a|, i requires 0 <= i < |a| => a[i] ^ b[i])
  }

  /** The bytes `process` hands to `TextDecoder` for the bytes of the text. */
  function ProcessBytes(key: seq<Word>, nonce: seq<Word>, bytes: seq<bv8>): (r: seq<bv8>)
    requires |key| == 8 && |nonce| == 3
    ensures |r| == |bytes|
  {
    XorBytes(bytes, KeystreamSpec(key, nonce, |bytes|))
  }

  /** On bytes, encryption and decryption are the same operation and undo each other. */
  lemma ProcessBytesTwice(key: seq<Word>, nonce: seq<Word>, bytes: seq<bv8>)
    requires |key| == 8 && |nonce| == 3
    ensures ProcessBytes(key, nonce, ProcessBytes(key, nonce, bytes)) == bytes
  {
    var ks := KeystreamSpec(key, nonce, |bytes|);
    forall i | 0 <= i < |bytes|
      ensures ProcessBytes(key, nonce, ProcessBytes(key, nonce, bytes))[i] == bytes[i]
    {
      assert (bytes[i] ^ ks[i]) ^ ks[i] == bytes[i];
    }
  }

  /** What `process(text)` returns, with `decode` standing for `TextDecoder.decode`. */
  function ProcessSpec(key: seq<Word>, nonce: seq<Word>, text: Str, decode: seq<bv8> -> Str): Str
    requires |key| == 8 && |nonce| == 3
  {
    decode(ProcessBytes(key, nonce, ToBv8(TextEncode(text))))
  }

  class ChaCha20Cipher {
    var key: array<Word>
    var nonce: array<Word>

    ghost predicate Valid()
      reads this
    {
      key.Length == 8 && nonce.Length == 3 && key != nonce
    }

    constructor (k: Str, n: Option<Str>)
      ensures Valid() && fresh(key) && fresh(nonce)
      ensures key[..] == KeyWords(k) && nonce[..] == NonceWords(n)
    {
      var keyArray := ParseKey(k);
      var nonceArray: array<Word>;
      if n == None || n == Some([]) {
        nonceArray := new Word[3](_ => 0);
        assert nonceArray[..] == [0, 0, 0];
      } else {
        nonceArray := ParseNonce(n.value);
      }
      key := keyArray;
      nonce := nonceArray;
    }

    /** `parseKey(key)` */
    static method ParseKey(k: Str) returns (keyArray: array<Word>)
      ensures fresh(keyArray) && keyArray[..] == KeyWords(k)
    {
      var keyBytes := KeyBytes(k);
      keyArray := PackArray(keyBytes, 8);
    }

    /** `parseNonce(nonce)` */
    static method ParseNonce(n: Str) returns (nonceArray: array<Word>)
      requires n != []
      ensures fresh(nonceArray) && nonceArray[..] == NonceWords(Some(n))
    {
      var nonceBytes := NonceBytes(n);
      nonceArray := PackArray(nonceBytes, 3);
    }

    /** The loop both parsers run: word i packs bytes 4i..4i+3, least significant first. */
    static method PackArray(bytes: seq<bv8>, count: nat) returns (words: array<Word>)
      requires |bytes| >= 4 * count
      ensures fresh(words) && words[..] == PackWords(bytes, count)
    {
      words := new Word[count];
      for i := 0 to count
        invariant forall m :: 0 <= m < i ==> words[m] == PackWords(bytes, count)[m]
      {
        words[i] := PackLE(bytes[i * 4], bytes[i * 4 + 1], bytes[i * 4 + 2], bytes[i * 4 + 3]);
      }
    }

    method Encrypt(plaintext: Str, decode: seq<bv8> -> Str) returns (ciphertext: Str)
      requires Valid()
      ensures ciphertext == ProcessSpec(key[..], nonce[..], plaintext, decode)
    {
      ciphertext := Process(plaintext, decode);
    }

    method Decrypt(ciphertext: Str, decode: seq<bv8> -> Str) returns (plaintext: Str)
      requires Valid()
      ensures plaintext == ProcessSpec(key[..], nonce[..], ciphertext, decode)
    {
      plaintext := Process(ciphertext, decode);
    }

    /** `process(text)` */
    method Process(text: Str, decode: seq<bv8> -> Str) returns (output: Str)
      requires Valid()
      ensures output == ProcessSpec(key[..], nonce[..], text, decode)
    {
      var textBytes := ToBv8(TextEncode(text));
      var keystream := GenerateKeystream(|textBytes|);
      var result := XorArrays(textBytes, keystream);
      output := decode(result[..]);
    }

    /** `result[i] = textBytes[i] ^ keystream[i]` for every i. */
    static method XorArrays(textBytes: seq<bv8>, keystream: array<bv8>) returns (result: array<bv8>)
      requires keystream.Length == |textBytes|
      ensures fresh(result) && result[..] == XorBytes(textBytes, keystream[..])
    {
      result := new bv8[|textBytes|];
      for i := 0 to |textBytes|
        invariant forall m :: 0 <= m < i ==> result[m] == textBytes[m] ^ keystream[m]
      {
        result[i] := textBytes[i] ^ keystream[i];
      }
    }

    /** `generateKeystream(length)`: whole blocks, the last one cut to length. */
    method GenerateKeystream(length: nat) returns (keystream: array<bv8>)
      requires Valid()
      ensures fresh(keystream) && keystream[..] == KeystreamSpec(key[..], nonce[..], length)
    {
      ghost var k0, n0 := key[..], nonce[..];
      keystream := new bv8[length];
      var counter := 0;
      var i := 0;
      while i < length
        invariant key[..] == k0 && nonce[..] == n0
        invariant i == 64 * counter && i < length + 64
        invariant Filled(keystream[..], k0, n0, counter)
        decreases length - i
      {
        FillBlock(keystream, counter, k0, n0);
        counter := counter + 1;
        i := i + 64;
      }
      KeystreamFilled(k0, n0, length, counter, keystream[..]);
    }

    /** One pass of the loop in `generateKeystream`: block `counter` written at 64 * counter. */
    method FillBlock(keystream: array<bv8>, counter: nat, ghost k0: seq<Word>, ghost n0: seq<Word>)
      requires Valid() && key[..] == k0 && nonce[..] == n0 && 64 * counter < keystream.Length
      requires Filled(keystream[..], k0, n0, counter)
      modifies keystream
      ensures Filled(keystream[..], k0, n0, counter + 1)
    {
      ghost var before := keystream[..];
      var block := ChachaBlock(counter);
      ghost var b0 := block[..];
      CopyBlock(keystream, 64 * counter, block);
      assert block[..] == b0;
      assert BlockStream(k0, n0)(counter) == BlockBytes(b0);
      JoinBlocksGrow(BlockStream(k0, n0), counter, before, keystream[..]);
    }

    /** `keystream[i + j] = blockBytes[j]` for j below `Math.min(64, length - i)`. */
    static method CopyBlock(keystream: array<bv8>, i: nat, block: array<Word>)
      requires i < keystream.Length && block.Length == 16
      modifies keystream
      ensures forall m :: 0 <= m < keystream.Length && !(i <= m < i + 64) ==> keystream[m] == old(keystream[m])
      ensures forall m :: i <= m < keystream.Length && m < i + 64 ==> keystream[m] == BlockBytes(block[..])[m - i]
    {
      var n := Min(64, keystream.Length - i);
      for j := 0 to n
        invariant forall m :: 0 <= m < keystream.Length && !(i <= m < i + j) ==> keystream[m] == old(keystream[m])
        invariant forall m :: i <= m < i + j ==> keystream[m] == BlockBytes(block[..])[m - i]
      {
        keystream[i + j] := BlockByte(block, j);
      }
    }

    /** `chachaBlock(counter)` */
    method ChachaBlock(counter: nat) returns (workingState: array<Word>)
      requires Valid()
      ensures fresh(workingState) && workingState[..] == Block(key[..], nonce[..], CounterWord(counter))
    {
      var state := SetUpState(counter);
      workingState := new Word[16](k requires 0 <= k < 16 reads state => state[k]);
      assert workingState[..] == state[..];
      RunRounds(workingState);
      AddOriginal(workingState, state);
    }

    /** The input state: constants, key, counter and nonce. */
    method SetUpState(counter: nat) returns (state: array<Word>)
      requires Valid()
      ensures fresh(state) && state[..] == InitialState(key[..], nonce[..], CounterWord(counter))
    {
      state := new Word[16];
      state[0] := 0x61707865;
      state[1] := 0x3320646e;
      state[2] := 0x79622d32;
      state[3] := 0x6b206574;
      CopyWords(state, 4, key);
      state[12] := CounterWord(counter);
      CopyWords(state, 13, nonce);
      InitialStateAt(key[..], nonce[..], CounterWord(counter), state[..]);
    }

    /** The loops `state[at + i] = words[i]` that copy the key and the nonce into the state. */
    static method CopyWords(state: array<Word>, at: nat, words: array<Word>)
      requires at + words.Length <= state.Length && state != words
      modifies state
      ensures forall m :: 0 <= m < state.Length && !(at <= m < at + words.Length) ==> state[m] == old(state[m])
      ensures forall m :: 0 <= m < words.Length ==> state[at + m] == words[m]
    {
      for i := 0 to words.Length
        invariant forall m :: 0 <= m < state.Length && !(at <= m < at + i) ==> state[m] == old(state[m])
        invariant forall m :: 0 <= m < i ==> state[at + m] == words[m]
      {
        state[at + i] := words[i];
      }
    }

    /** The loop over `round`, which runs from 0 to 20 in steps of two: ten double rounds. */
    static method RunRounds(workingState: array<Word>)
      requires workingState.Length == 16
      modifies workingState
      ensures workingState[..] == Rounds(old(workingState[..]), DoubleRoundCount)
    {
      ghost var init := workingState[..];
      for doubleRounds := 0 to DoubleRoundCount
        invariant workingState[..] == Rounds(init, doubleRounds)
      {
        DoubleRoundStep(workingState, init, doubleRounds);
      }
    }

    /** The body of the loop over `round`: four column and four diagonal quarter rounds. */
    static method DoubleRoundStep(workingState: array<Word>, ghost init: seq<Word>, ghost n: nat)
      requires workingState.Length == 16 && |init| == 16 && workingState[..] == Rounds(init, n)
      modifies workingState
      ensures workingState[..] == Rounds(init, n + 1)
    {
      ghost var before := workingState[..];
      ColumnRounds(workingState, before);
      DiagonalRounds(workingState, before);
      RoundsStep(init, n);
    }

    /** The first four calls of the loop body: the columns. */
    static method ColumnRounds(workingState: array<Word>, ghost before: seq<Word>)
      requires workingState.Length == 16 && workingState[..] == before
      modifies workingState
      ensures workingState[..] == QuarterRounds(before, DoubleRoundLanes[..4])
    {
      assert DoubleRoundLanes[..0] == [];
      QuarterRoundStep(workingState, before, 0);
      QuarterRoundStep(workingState, before, 1);
      QuarterRoundStep(workingState, before, 2);
      QuarterRoundStep(workingState, before, 3);
    }

    /** The last four calls of the loop body: the diagonals. */
    static method DiagonalRounds(workingState: array<Word>, ghost before: seq<Word>)
      requires workingState.Length == 16 && |before| == 16
      requires workingState[..] == QuarterRounds(before, DoubleRoundLanes[..4])
      modifies workingState
      ensures workingState[..] == QuarterRounds(before, DoubleRoundLanes[..8])
    {
      QuarterRoundStep(workingState, before, 4);
      QuarterRoundStep(workingState, before, 5);
      QuarterRoundStep(workingState, before, 6);
      QuarterRoundStep(workingState, before, 7);
    }

    /** `quarterRound` as the k-th call of a pass of the loop. */
    static method QuarterRoundStep(workingState: array<Word>, ghost before: seq<Word>, k: nat)
      requires workingState.Length == 16 && |before| == 16 && k < 8
      requires workingState[..] == QuarterRounds(before, DoubleRoundLanes[..k])
      modifies workingState
      ensures workingState[..] == QuarterRounds(before, DoubleRoundLanes[..k + 1])
    {
      var lanes := DoubleRoundLanes[k];
      QuarterRound(workingState, lanes.a, lanes.b, lanes.c, lanes.d);
      QuarterRoundsNext(before, DoubleRoundLanes, k);
    }

    /** The loop that adds the original state word by word. */
    static method AddOriginal(workingState: array<Word>, state: array<Word>)
      requires workingState.Length == 16 && state.Length == 16 && workingState != state
      modifies workingState
      ensures workingState[..] == AddStates(old(workingState[..]), state[..])
    {
      ghost var rounds := workingState[..];
      for i := 0 to 16
        invariant forall m :: 0 <= m < i ==> workingState[m] == AddW(rounds[m], state[m])
        invariant forall m :: i <= m < 16 ==> workingState[m] == rounds[m]
      {
        workingState[i] := AddW(workingState[i], state[i]);
      }
      assert workingState[..] == AddStates(rounds, state[..]);
    }

    /** `quarterRound(state, a, b, c, d)` */
    static method QuarterRound(state: array<Word>, a: nat, b: nat, c: nat, d: nat)
      requires state.Length == 16 && a < 16 && b < 16 && c < 16 && d < 16
      modifies state
      ensures state[..] == QuarterRoundOn(old(state[..]), a, b, c, d)
    {
      state[a] := AddW(state[a], state[b]);
      state[d] := XorRot(state[d], state[a], 16);
      state[c] := AddW(state[c], state[d]);
      state[b] := XorRot(state[b], state[c], 12);
      state[a] := AddW(state[a], state[b]);
      state[d] := XorRot(state[d], state[a], 8);
      state[c] := AddW(state[c], state[d]);
      state[b] := XorRot(state[b], state[c], 7);
    }

    /** `blockBytes[j]` of `new Uint8Array(block.buffer)`. */
    static function BlockByte(block: array<Word>, j: nat): bv8
      requires block.Length == 16 && j < 64
      reads block
    {
      WordByte(block[j / 4], j % 4)
    }
  }

  function Min(a: int, b: int): int
  {
    if a < b then a else b
  }
}
