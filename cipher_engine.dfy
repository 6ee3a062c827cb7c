/**
 * The cipher panel: its state record, the field edits, `processCipher` with
 * its input guards and its hex boundary (ciphertext is shown as two hex
 * digits per character and read back with `match(/.{1,2}/g)` and
 * `parseInt(_, 16)`), and `swapInputOutput`.
 */
module CipherEngine {
  import opened Wrappers
  import opened JsText
  import opened CipherAlgorithms

  datatype Mode = Encrypt | Decrypt

  /** `CipherState`; the analysis results are carried along untouched, so their type is a parameter. */
  datatype CipherState<R> = CipherState(
    inputText: Str, outputText: Str, key: Str, algorithm: Str, mode: Mode, analysisResults: Option<R>)

  /** The toast `processCipher` raises, which tells its outcome. */
  datatype Notice = EmptyText | EmptyKey | Failed | Encrypted | Decrypted

  // ---------------------------------------------------------------------------
  // The hex boundary

  /** The hex of the first code unit of each character, joined. */
  function HexOfChars(chars: seq<Str>): (r: Str)
    requires forall i :: 0 <= i < |chars| ==> |chars[i]| >= 1
  {
    if chars == [] then [] else Hex2(chars[0][0]) + HexOfChars(chars[1..])
  }

  /** `Array.from(result, char => char.charCodeAt(0).toString(16).padStart(2, '0')).join('')` */
  function HexEncode(s: Str): (r: Str)
  {
    HexOfChars(Chars(s))
  }

  function SignedDigit(negative: bool, d: Option<nat>): Option<int>
  {
    match d
    case None => None
    case Some(v) => var w: int := v; if negative then Some(-w) else Some(w)
  }

  /**
   * `parseInt(g, 16)` on a group of one or two code units, written out case by
   * case: a leading blank or `+` leaves one digit, a leading `-` negates it, and
   * `0x` (a prefix with no digits after it) is NaN.
   */
  function ParseShortHex(g: Str): (r: Option<int>)
    requires 1 <= |g| <= 2
  {
    if |g| == 1 then SignedDigit(false, HexValue(g[0]))
    else if IsTrimmable(g[0]) || g[0] == '+' as int then SignedDigit(false, HexValue(g[1]))
    else if g[0] == '-' as int then SignedDigit(true, HexValue(g[1]))
    else if g[0] == '0' as int && (g[1] == 'x' as int || g[1] == 'X' as int) then None
    else
      match HexValue(g[0])
      case None => None
      case Some(a) =>
        (match HexValue(g[1])
         case None => Some(a)
         case Some(b) => Some(16 * a + b))
  }

  /** The case analysis is `parseInt(_, 16)` itself on every group of one or two units. */
  lemma ParseShortHexAgrees(g: Str)
    requires 1 <= |g| <= 2
    ensures ParseShortHex(g) == ParseIntHex(g)
  {
    if |g| == 1 {
      ParseOneUnit(g);
    } else if IsTrimmable(g[0]) || g[0] == '-' as int || g[0] == '+' as int {
      ParseSecondUnit(g);
    } else {
      ParseTwoUnits(g);
    }
  }

  lemma ParseOneUnit(g: Str)
    requires |g| == 1
    ensures ParseShortHex(g) == ParseIntHex(g)
  {
    assert HexRunEnd(g, 1) == 1;
    if IsTrimmable(g[0]) {
      assert SkipBlanks(g, 0) == 1;
    } else {
      assert SkipBlanks(g, 0) == 0;
    }
  }

  lemma ParseSecondUnit(g: Str)
    requires |g| == 2 && (IsTrimmable(g[0]) || g[0] == '-' as int || g[0] == '+' as int)
    ensures ParseShortHex(g) == ParseIntHex(g)
  {
    assert HexRunEnd(g, 2) == 2;
    if IsTrimmable(g[0]) {
      assert SkipBlanks(g, 2) == 2;
      assert SkipBlanks(g, 0) == SkipBlanks(g, 1);
    } else {
      assert SkipBlanks(g, 0) == 0;
    }
    assert HexValue(g[1]).Some? ==> HexRunEnd(g, 1) == 2 && HexNumber(g, 1, 2) == HexValue(g[1]).value;
  }

  lemma ParseTwoUnits(g: Str)
    requires |g| == 2 && !IsTrimmable(g[0]) && g[0] != '-' as int && g[0] != '+' as int
    ensures ParseShortHex(g) == ParseIntHex(g)
  {
    assert SkipBlanks(g, 0) == 0;
    assert HexRunEnd(g, 2) == 2;
    if HexValue(g[0]).Some? && HexValue(g[1]).Some? {
      assert HexRunEnd(g, 1) == 2;
      assert HexNumber(g, 0, 1) == HexValue(g[0]).value;
    } else if HexValue(g[0]).Some? {
      assert HexRunEnd(g, 1) == 1;
    }
  }

  /** `String.fromCharCode(parseInt(hex, 16))` of one group. */
  function GroupCode(g: Str): (u: CodeUnit)
    requires 1 <= |g| <= 2
  {
    FromCharCode(ParseShortHex(g))
  }

  /** `(s.match(/.{1,2}/g) || []).map(hex => String.fromCharCode(parseInt(hex, 16))).join('')` */
  function HexDecode(s: Str): (r: Str)
  {
    var groups := DotGroups(s, 2);
    seq(|groups|, i requires 0 <= i < |groups| => GroupCode(groups[i]))
  }

  /** The two-digit rendering of each code unit of a text. */
  function ByteBlocks(s: Str): (r: seq<Str>)
    ensures |r| == |s|
    ensures forall i :: 0 <= i < |s| ==> r[i] == Hex2(s[i])
  {
    seq(|s|, i requires 0 <= i < |s| => Hex2(s[i]))
  }

  lemma {:induction false} HexOfBytes(s: Str)
    requires forall i :: 0 <= i < |s| ==> s[i] < 256
    ensures HexEncode(s) == Concat(ByteBlocks(s))
    decreases |s|
  {
    CharsOfBmp(s);
    if s != [] {
      HexOfBytes(s[1..]);
      CharsOfBmp(s[1..]);
      assert Chars(s)[1..] == Chars(s[1..]);
      assert ByteBlocks(s)[1..] == ByteBlocks(s[1..]);
    }
  }

  /** Joining two-unit blocks puts block g at units 2g and 2g + 1. */
  lemma {:induction false} ConcatPairs(blocks: seq<Str>)
    requires forall g :: 0 <= g < |blocks| ==> |blocks[g]| == 2
    ensures |Concat(blocks)| == 2 * |blocks|
    ensures forall g :: 0 <= g < |blocks| ==> Concat(blocks)[2 * g] == blocks[g][0] && Concat(blocks)[2 * g + 1] == blocks[g][1]
  {
    if blocks != [] {
      ConcatPairs(blocks[1..]);
      var c := Concat(blocks);
      assert c == blocks[0] + Concat(blocks[1..]);
      forall g | 0 <= g < |blocks|
        ensures c[2 * g] == blocks[g][0] && c[2 * g + 1] == blocks[g][1]
      {
        if g > 0 {
          assert blocks[g] == blocks[1..][g - 1];
          assert c[2 * g] == Concat(blocks[1..])[2 * (g - 1)];
          assert c[2 * g + 1] == Concat(blocks[1..])[2 * (g - 1) + 1];
        }
      }
    }
  }

  /**
   * A text of bytes encodes to exactly two lower-case hex digits per code
   * unit, high nibble first.
   */
  lemma HexEncodeBytes(s: Str)
    requires forall i :: 0 <= i < |s| ==> s[i] < 256
    ensures |HexEncode(s)| == 2 * |s|
    ensures forall i :: 0 <= i < |s| ==>
      HexEncode(s)[2 * i] == HexDigit(s[i] / 16) && HexEncode(s)[2 * i + 1] == HexDigit(s[i] % 16)
  {
    HexOfBytes(s);
    var blocks := ByteBlocks(s);
    forall g | 0 <= g < |blocks|
      ensures blocks[g] == [HexDigit(s[g] / 16), HexDigit(s[g] % 16)]
    {
      Hex2OfByte(s[g]);
    }
    ConcatPairs(blocks);
  }

  /** The hex of a text of bytes splits back into its two-digit blocks. */
  lemma HexGroups(s: Str)
    requires forall i :: 0 <= i < |s| ==> s[i] < 256
    ensures DotGroups(HexEncode(s), 2) == ByteBlocks(s)
  {
    HexOfBytes(s);
    var blocks := ByteBlocks(s);
    forall g | 0 <= g < |blocks|
      ensures |blocks[g]| == 2 && !IsLineTerminator(blocks[g][0]) && !IsLineTerminator(blocks[g][1])
    {
      Hex2OfByte(s[g]);
      HexValueOfDigit(s[g] / 16);
      HexValueOfDigit(s[g] % 16);
    }
    DotGroupsOfBlocks(blocks, 2);
  }

  /** The two digits of a byte decode to the byte. */
  lemma GroupCodeOfByte(n: nat)
    requires n < 256
    ensures |Hex2(n)| == 2 && GroupCode(Hex2(n)) == n
  {
    Hex2OfByte(n);
    HexValueOfDigit(n / 16);
    HexValueOfDigit(n % 16);
  }

  /** Decoding the hex the encoder writes for a text of bytes gives the text back. */
  lemma HexRoundTrip(s: Str)
    requires forall i :: 0 <= i < |s| ==> s[i] < 256
    ensures HexDecode(HexEncode(s)) == s
  {
    HexGroups(s);
    var d := HexDecode(HexEncode(s));
    assert |d| == |s|;
    forall i | 0 <= i < |s|
      ensures d[i] == s[i]
    {
      GroupCodeOfByte(s[i]);
    }
  }

  /** Where the k-th pair of a text of n units ends. */
  function PairEnd(n: nat, k: nat): nat
  {
    if 2 * k + 2 <= n then 2 * k + 2 else n
  }

  lemma SliceOfSuffix(s: Str, n: nat, a: nat, b: nat)
    requires n + b <= |s| && a <= b
    ensures s[n..][a..b] == s[n + a..n + b]
  {
  }

  /**
   * On a text without line breaks `/.{1,2}/g` cuts the text in pairs: n units
   * give ⌈n/2⌉ groups, the k-th made of units 2k and 2k + 1, or of unit 2k
   * alone when it is the last of an odd-length text.
   */
  lemma {:induction false} DotPairs(s: Str)
    requires forall i :: 0 <= i < |s| ==> !IsLineTerminator(s[i])
    ensures |DotGroups(s, 2)| == (|s| + 1) / 2
    ensures forall k :: 0 <= k < |DotGroups(s, 2)| ==> 2 * k < PairEnd(|s|, k) && DotGroups(s, 2)[k] == s[2 * k..PairEnd(|s|, k)]
    decreases |s|
  {
    if s != [] {
      var n := if |s| >= 2 then 2 else 1;
      RunLengthFull(s, n);
      assert RunLength(s, 2) == n;
      var rest := s[n..];
      DotPairs(rest);
      var groups := DotGroups(s, 2);
      assert groups == [s[..n]] + DotGroups(rest, 2);
      forall k | 0 <= k < |groups|
        ensures 2 * k < PairEnd(|s|, k) && groups[k] == s[2 * k..PairEnd(|s|, k)]
      {
        if k > 0 {
          assert groups[k] == DotGroups(rest, 2)[k - 1];
          SliceOfSuffix(s, 2, 2 * (k - 1), PairEnd(|rest|, k - 1));
        }
      }
    }
  }

  /**
   * The decoder reads the text pair by pair, and an odd-length text is not
   * rejected: its last unit is parsed alone.
   */
  lemma HexDecodePairs(s: Str)
    requires forall i :: 0 <= i < |s| ==> !IsLineTerminator(s[i])
    ensures |HexDecode(s)| == (|s| + 1) / 2
    ensures forall k :: 0 <= k < |HexDecode(s)| ==>
      2 * k < PairEnd(|s|, k) && HexDecode(s)[k] == GroupCode(s[2 * k..PairEnd(|s|, k)])
    ensures |s| % 2 == 1 ==> HexDecode(s)[|s| / 2] == GroupCode([s[|s| - 1]])
  {
    DotPairs(s);
    if |s| % 2 == 1 {
      assert s[2 * (|s| / 2)..PairEnd(|s|, |s| / 2)] == [s[|s| - 1]];
    }
  }

  /**
   * A group is decoded permissively: a trailing non-hex character is ignored,
   * a group without hex digits, or `0x`, becomes code 0 instead of an error,
   * and a negative value wraps around modulo 2^16.
   */
  lemma GroupCodePermissive()
    ensures GroupCode(['4' as int, 'g' as int]) == 0x4
    ensures GroupCode(['z' as int, 'z' as int]) == 0
    ensures GroupCode(['0' as int, 'x' as int]) == 0
    ensures GroupCode(['-' as int, '1' as int]) == 0xFFFF
    ensures GroupCode([' ' as int, 'a' as int]) == 0xA
  {
  }

  // ---------------------------------------------------------------------------
  // The panel

  /** The field a `handleInputChange(field, value)` call sets, with its value. */
  datatype Edit =
    | SetInputText(text: Str)
    | SetOutputText(text: Str)
    | SetKey(text: Str)
    | SetAlgorithm(text: Str)
    | SetMode(mode: Mode)

  /** `handleInputChange`: a copy of the state with the one field replaced. */
  function HandleInputChange<R>(s: CipherState<R>, e: Edit): (r: CipherState<R>)
    ensures e.SetInputText? ==> r.inputText == e.text
    ensures e.SetOutputText? ==> r.outputText == e.text
    ensures e.SetKey? ==> r.key == e.text
    ensures e.SetAlgorithm? ==> r.algorithm == e.text
    ensures e.SetMode? ==> r.mode == e.mode
  {
    match e
    case SetInputText(t) => s.(inputText := t)
    case SetOutputText(t) => s.(outputText := t)
    case SetKey(t) => s.(key := t)
    case SetAlgorithm(t) => s.(algorithm := t)
    case SetMode(m) => s.(mode := m)
  }

  /** Whether an edit names the given field (numbered in declaration order of the record). */
  predicate Touches(e: Edit, field: nat)
  {
    match e
    case SetInputText(_) => field == 0
    case SetOutputText(_) => field == 1
    case SetKey(_) => field == 2
    case SetAlgorithm(_) => field == 3
    case SetMode(_) => field == 4
  }

  /** Field `field` of the record, with the mode and the results folded into strings of their own tags. */
  predicate SameField<R(==)>(s: CipherState<R>, t: CipherState<R>, field: nat)
  {
    match field
    case 0 => s.inputText == t.inputText
    case 1 => s.outputText == t.outputText
    case 2 => s.key == t.key
    case 3 => s.algorithm == t.algorithm
    case 4 => s.mode == t.mode
    case _ => s.analysisResults == t.analysisResults
  }

  /** `handleInputChange` leaves every field but the named one as it was. */
  lemma HandleInputChangeOnly<R>(s: CipherState<R>, e: Edit, field: nat)
    requires !Touches(e, field)
    ensures SameField(HandleInputChange(s, e), s, field)
  {
  }

  /** A second edit of the same field wins over the first. */
  lemma HandleInputChangeOverwrite<R>(s: CipherState<R>, e1: Edit, e2: Edit)
    requires e1.SetInputText? == e2.SetInputText? && e1.SetOutputText? == e2.SetOutputText?
    requires e1.SetKey? == e2.SetKey? && e1.SetAlgorithm? == e2.SetAlgorithm?
    ensures HandleInputChange(HandleInputChange(s, e1), e2) == HandleInputChange(s, e2)
  {
  }

  function Flip(m: Mode): Mode
  {
    if m == Encrypt then Decrypt else Encrypt
  }

  /** `swapInputOutput` */
  function SwapInputOutput<R>(s: CipherState<R>): (r: CipherState<R>)
  {
    s.(inputText := s.outputText, outputText := s.inputText, mode := Flip(s.mode))
  }

  /**
   * The swap exchanges the two texts and flips the mode, leaves key,
   * algorithm and analysis results alone, and undoes itself.
   */
  lemma SwapInputOutputInvolution<R>(s: CipherState<R>)
    ensures var r := SwapInputOutput(s);
      && r.inputText == s.outputText && r.outputText == s.inputText && r.mode != s.mode
      && r.key == s.key && r.algorithm == s.algorithm && r.analysisResults == s.analysisResults
      && SwapInputOutput(r) == s
  {
  }

  /** The state `processCipher` can reach the cipher with: both texts pass the trim guards and a used RC4 key is modelled. */
  predicate Processable<R>(s: CipherState<R>)
  {
    !TrimIsEmpty(s.inputText) && !TrimIsEmpty(s.key)
    && (SelectAlgorithm(s.algorithm) == Some(Rc4Alg) ==> Rc4KeyModelled(s.key))
  }

  /**
   * `processCipher`: the state it hands to `onStateChange` (the state itself
   * when it returns early or the cipher throws) and the toast it shows. The
   * `TextDecoder` ChaCha20 output goes through is the parameter `decode`.
   */
  function ProcessCipher<R>(s: CipherState<R>, decode: seq<bv8> -> Str): (r: (CipherState<R>, Notice))
    requires !TrimIsEmpty(s.inputText) && !TrimIsEmpty(s.key) ==> Processable(s)
  {
    if TrimIsEmpty(s.inputText) then (s, EmptyText)
    else if TrimIsEmpty(s.key) then (s, EmptyKey)
    else
      match CreateCipher(s.algorithm, s.key)
      case Failure(_) => (s, Failed)
      case Success(c) =>
        CreateCipherCases(s.algorithm, s.key);
        if s.mode == Encrypt then (s.(outputText := HexEncode(Apply(c, s.inputText, decode))), Encrypted)
        else (s.(outputText := Apply(c, HexDecode(s.inputText), decode)), Decrypted)
  }

  /**
   * The guards of `processCipher`: a blank text or a blank key, and a cipher
   * that cannot be created, leave the state as it was; otherwise only the output
   * changes, to the hex of the encryption or the decryption of the parsed hex.
   */
  lemma {:induction false} ProcessCipherCases<R>(s: CipherState<R>, decode: seq<bv8> -> Str)
    requires !TrimIsEmpty(s.inputText) && !TrimIsEmpty(s.key) ==> Processable(s)
    ensures var (t, notice) := ProcessCipher(s, decode);
      && (notice == EmptyText <==> TrimIsEmpty(s.inputText))
      && (notice == EmptyKey <==> !TrimIsEmpty(s.inputText) && TrimIsEmpty(s.key))
      && (notice == Failed <==> Processable(s) && CreateCipher(s.algorithm, s.key).Failure?)
      && (notice in {EmptyText, EmptyKey, Failed} ==> t == s)
      && (notice == Encrypted <==> Processable(s) && CreateCipher(s.algorithm, s.key).Success? && s.mode == Encrypt)
      && (notice == Decrypted <==> Processable(s) && CreateCipher(s.algorithm, s.key).Success? && s.mode == Decrypt)
      && t.(outputText := s.outputText) == s
  {
  }

  /**
   * Encrypt, swap, decrypt with RC4 on a text of bytes gives the text back:
   * the hex of the ciphertext becomes the input, the mode turns to decrypt,
   * and the parsed hex decrypts to the original.
   */
  lemma Rc4PanelRoundTrip<R>(s: CipherState<R>, decode: seq<bv8> -> Str)
    requires Processable(s) && s.mode == Encrypt
    requires SelectAlgorithm(s.algorithm) == Some(Rc4Alg) && Utf8.StrictEncode(s.key).Some?
    requires forall i :: 0 <= i < |s.inputText| ==> s.inputText[i] < 256
    ensures ProcessCipher(s, decode).1 == Encrypted
    ensures var swapped := SwapInputOutput(ProcessCipher(s, decode).0);
      Processable(swapped) && swapped.mode == Decrypt
      && ProcessCipher(swapped, decode).1 == Decrypted
      && ProcessCipher(swapped, decode).0.outputText == s.inputText
  {
    CreateCipherCases(s.algorithm, s.key);
    var c := CreateCipher(s.algorithm, s.key).value;
    var ciphertext := Apply(c, s.inputText, decode);
    Rc4Apply(c, s.inputText, decode);
    Rc4ApplyBytes(c, s.inputText, decode);
    HexEncodeBytes(ciphertext);
    HexRoundTrip(ciphertext);
    var hex := HexEncode(ciphertext);
    assert |s.inputText| > 0;
    HexValueOfDigit(ciphertext[0] / 16);
    assert !IsTrimmable(hex[0]);
    var swapped := SwapInputOutput(ProcessCipher(s, decode).0);
    assert swapped.inputText == hex;
  }
}
