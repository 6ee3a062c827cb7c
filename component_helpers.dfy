/**
 * Helpers that several components define with identical bodies: the
 * class-based key strength, the case-sensitive algorithm table, the colour,
 * badge and label thresholds, and the two charsets keys are drawn from.
 */
module ComponentHelpers {
  import opened JsText
  import opened JsMath

  // ---------------------------------------------------------------------------
  // calculateKeyStrength / analyzeKeyStrength of the components

  /** Points for the character classes present: 10 lower, 10 upper, 10 digit, 20 other. */
  function ClassBonus(key: Str): (b: nat)
    ensures b <= 50
    ensures key != [] ==> b >= 10
  {
    assert key != [] ==> IsAsciiLower(key[0]) || IsAsciiUpper(key[0]) || IsAsciiDigit(key[0]) || !IsAsciiAlnum(key[0]);
    (if HasLower(key) then 10 else 0) + (if HasUpper(key) then 10 else 0)
      + (if HasDigit(key) then 10 else 0) + (if HasSymbol(key) then 20 else 0)
  }

  /**
   * The component key strength: 0 for the empty key, otherwise the length
   * part min(50, 2 · length) plus the class bonus, capped at 100. Only the
   * empty key scores 0; any other scores at least 12.
   */
  function KeyStrength(key: Str): (s: nat)
    ensures s <= 100
    ensures s == 0 <==> key == []
    ensures key != [] ==> 12 <= s
  {
    if key == [] then 0 else Min(100, Min(50, 2 * |key|) + ClassBonus(key))
  }

  /** `calculateKeyStrength(key)`, adding the parts to `score` one by one. */
  method CalculateKeyStrength(key: Str) returns (score: int)
    ensures score == KeyStrength(key)
  {
    if key == [] {
      return 0;
    }
    score := 0;
    score := score + Min(50, |key| * 2);
    score := score + if HasLower(key) then 10 else 0;
    score := score + if HasUpper(key) then 10 else 0;
    score := score + if HasDigit(key) then 10 else 0;
    score := score + if HasSymbol(key) then 20 else 0;
    score := Min(100, score);
  }

  /** The cap at 100 never binds: the length part is at most 50 and the bonus at most 50. */
  lemma KeyStrengthUncapped(key: Str)
    requires key != []
    ensures KeyStrength(key) == Min(50, 2 * |key|) + ClassBonus(key)
  {
  }

  /** Appending characters never lowers the strength: length and classes only grow. */
  lemma KeyStrengthExtend(a: Str, b: Str)
    ensures KeyStrength(a) <= KeyStrength(a + b)
  {
    if a != [] {
      assert (a + b)[..|a|] == a;
      forall i | 0 <= i < |a|
        ensures (a + b)[i] == a[i]
      {
      }
      assert HasLower(a) ==> HasLower(a + b);
      assert HasUpper(a) ==> HasUpper(a + b);
      assert HasDigit(a) ==> HasDigit(a + b);
      assert HasSymbol(a) ==> HasSymbol(a + b);
    }
  }

  // ---------------------------------------------------------------------------
  // getAlgorithmStrength of the components

  /** The `strengths` table, looked up with the name exactly as given. */
  const ExactStrengths: map<Str, nat> :=
    map[Lit("rc4") := 60, Lit("chacha20") := 90, Lit("aes") := 85, Lit("des") := 30]

  /** `strengths[algorithm] || 50`: the name is not lower-cased. */
  function ExactAlgorithmStrength(algorithm: Str): (s: nat)
    ensures s == 30 || s == 50 || s == 60 || s == 85 || s == 90
    ensures s == 50 <==> algorithm !in ExactStrengths
  {
    if algorithm in ExactStrengths then ExactStrengths[algorithm] else 50
  }

  /** The tabled names get their values; the same names in upper case get the default. */
  lemma ExactAlgorithmStrengthFacts()
    ensures ExactAlgorithmStrength(Lit("rc4")) == 60
    ensures ExactAlgorithmStrength(Lit("chacha20")) == 90
    ensures ExactAlgorithmStrength(Lit("aes")) == 85
    ensures ExactAlgorithmStrength(Lit("des")) == 30
    ensures ExactAlgorithmStrength(Lit("RC4")) == 50
    ensures ExactAlgorithmStrength(Lit("ChaCha20")) == 50
  {
    assert Lit("aes")[0] != Lit("des")[0];
    assert Lit("RC4")[0] != Lit("rc4")[0];
    assert Lit("RC4") != Lit("chacha20") && Lit("RC4") != Lit("aes") && Lit("RC4") != Lit("des");
    assert Lit("ChaCha20")[0] != Lit("chacha20")[0];
    assert Lit("ChaCha20") != Lit("rc4") && Lit("ChaCha20") != Lit("aes") && Lit("ChaCha20") != Lit("des");
  }

  // ---------------------------------------------------------------------------
  // Colours, badges and labels

  datatype Color = Green | Yellow | Red

  datatype Badge = Success | Default | Secondary | Warning | Destructive

  /** `getStrengthColor(score)`: green from 80, yellow from 60, red below. */
  function StrengthColor(score: real): (c: Color)
    ensures c == Green <==> score >= 80.0
    ensures c == Yellow <==> 60.0 <= score < 80.0
    ensures c == Red <==> score < 60.0
  {
    if score >= 80.0 then Green else if score >= 60.0 then Yellow else Red
  }

  /** `getStrengthBadgeVariant(score)`: default from 80, secondary from 60, destructive below. */
  function StrengthBadge(score: real): (b: Badge)
    ensures b == Default <==> score >= 80.0
    ensures b == Secondary <==> 60.0 <= score < 80.0
    ensures b == Destructive <==> score < 60.0
  {
    if score >= 80.0 then Default else if score >= 60.0 then Secondary else Destructive
  }

  function ColorRank(c: Color): nat
  {
    match c
    case Red => 0
    case Yellow => 1
    case Green => 2
  }

  /** The badge always matches the colour, and a higher score never gets a worse colour. */
  lemma ColorAndBadge(x: real, y: real)
    ensures StrengthBadge(x) == (match StrengthColor(x) case Green => Default case Yellow => Secondary case Red => Destructive)
    ensures x <= y ==> ColorRank(StrengthColor(x)) <= ColorRank(StrengthColor(y))
  {
  }

  datatype Label = Weak | Moderate | Strong | VeryStrong | QuantumResistant

  /** `getStrengthLabel(strength)` with the thresholds 90, 70, 50 and 30. */
  function StrengthLabel(strength: real): (l: Label)
    ensures l == QuantumResistant <==> strength >= 90.0
    ensures l == VeryStrong <==> 70.0 <= strength < 90.0
    ensures l == Strong <==> 50.0 <= strength < 70.0
    ensures l == Moderate <==> 30.0 <= strength < 50.0
    ensures l == Weak <==> strength < 30.0
  {
    if strength >= 90.0 then QuantumResistant
    else if strength >= 70.0 then VeryStrong
    else if strength >= 50.0 then Strong
    else if strength >= 30.0 then Moderate
    else Weak
  }

  function LabelRank(l: Label): nat
  {
    match l
    case Weak => 0
    case Moderate => 1
    case Strong => 2
    case VeryStrong => 3
    case QuantumResistant => 4
  }

  /** A stronger key never gets a weaker label. */
  lemma StrengthLabelMonotone(x: real, y: real)
    requires x <= y
    ensures LabelRank(StrengthLabel(x)) <= LabelRank(StrengthLabel(y))
  {
  }

  // ---------------------------------------------------------------------------
  // Charsets

  /** The n code units from `first` on. */
  function UnitRange(first: nat, n: nat): (r: Str)
    requires first + n <= 0x1_0000
    ensures |r| == n && forall i :: 0 <= i < n ==> r[i] == first + i
  {
    seq(n, i requires 0 <= i < n => first + i)
  }

  /** A-Z, a-z and 0-9, in that order. */
  const Alphanumerics: Str := UnitRange('A' as int, 26) + UnitRange('a' as int, 26) + UnitRange('0' as int, 10)

  /** The symbols the symbol charset appends. */
  const Symbols: Str := Lit("!@#$%^&*()_+-=[]{}|;:,.<>?")

  /** The charset a key is drawn from: 88 characters with symbols, 62 without. */
  function Charset(includeSymbols: bool): (c: Str)
    ensures |c| == if includeSymbols then 88 else 62
    ensures c[..62] == Alphanumerics
  {
    if includeSymbols then Alphanumerics + Symbols else Alphanumerics
  }

  /** The charsets spelled out as the components write them. */
  lemma CharsetLiterals()
    ensures Alphanumerics == Lit("ABCDEFGHIJKLMNOPQRSTUVWXYZabcdefghijklmnopqrstuvwxyz0123456789")
  {
    var upper, lower, digits := "ABCDEFGHIJKLMNOPQRSTUVWXYZ", "abcdefghijklmnopqrstuvwxyz", "0123456789";
    RangeLiteral(upper, 'A' as int);
    RangeLiteral(lower, 'a' as int);
    RangeLiteral(digits, '0' as int);
    AlphanumericLiteralParts();
    LitAppend(upper, lower);
    LitAppend(upper + lower, digits);
  }

  lemma AlphanumericLiteralParts()
    ensures "ABCDEFGHIJKLMNOPQRSTUVWXYZ" + "abcdefghijklmnopqrstuvwxyz" + "0123456789" == "ABCDEFGHIJKLMNOPQRSTUVWXYZabcdefghijklmnopqrstuvwxyz0123456789"
  {
  }

  /** A literal of consecutive characters is a range of code units. */
  lemma RangeLiteral(s: string, first: nat)
    requires first + |s| <= 0x1_0000
    requires forall i :: 0 <= i < |s| ==> s[i] as int == first + i
    ensures UnitRange(first, |s|) == Lit(s)
  {
  }

  lemma LitAppend(a: string, b: string)
    ensures Lit(a + b) == Lit(a) + Lit(b)
  {
  }

  /** The first 62 characters are letters and digits; none of the symbols is. */
  lemma CharsetClasses(includeSymbols: bool)
    ensures forall i :: 0 <= i < 62 ==> IsAsciiAlnum(Charset(includeSymbols)[i])
    ensures forall i :: 62 <= i < |Charset(includeSymbols)| ==> !IsAsciiAlnum(Charset(includeSymbols)[i])
  {
    var c := Charset(includeSymbols);
    forall i | 0 <= i < 62
      ensures IsAsciiAlnum(c[i])
    {
      assert c[i] == Alphanumerics[i];
    }
    if includeSymbols {
      SymbolsNotAlnum();
      forall i | 62 <= i < 88
        ensures !IsAsciiAlnum(c[i])
      {
        assert c[i] == Symbols[i - 62];
      }
    }
  }

  /** None of the 26 symbols is a letter or a digit. */
  lemma SymbolsNotAlnum()
    ensures |Symbols| == 26 && forall k :: 0 <= k < 26 ==> !IsAsciiAlnum(Symbols[k])
  {
    SymbolUnits();
    SymbolsNotAlnumFrom(0);
    SymbolsNotAlnumFrom(13);
  }

  /** The symbols as code units. */
  lemma SymbolUnits()
    ensures Symbols == [0x21, 0x40, 0x23, 0x24, 0x25, 0x5E, 0x26, 0x2A, 0x28, 0x29, 0x5F, 0x2B, 0x2D, 0x3D, 0x5B, 0x5D, 0x7B, 0x7D, 0x7C, 0x3B, 0x3A, 0x2C, 0x2E, 0x3C, 0x3E, 0x3F]
  {
  }

  /** Thirteen of the symbols at a time. */
  lemma SymbolsNotAlnumFrom(lo: nat)
    requires lo == 0 || lo == 13
    ensures |Symbols| == 26 && forall k :: lo <= k < lo + 13 ==> !IsAsciiAlnum(Symbols[k])
  {
    SymbolUnits();
  }

  /** `Array.from(bytes, byte => charset[byte % charset.length]).join('')` */
  function CharsetKey(charset: Str, bytes: seq<nat>): (key: Str)
    requires |charset| > 0
    ensures |key| == |bytes|
    ensures forall i :: 0 <= i < |bytes| ==> key[i] == charset[bytes[i] % |charset|]
  {
    seq(|bytes|, i requires 0 <= i < |bytes| => charset[bytes[i] % |charset|])
  }

  /** Every character of a charset key is a character of the charset. */
  lemma CharsetKeyChars(charset: Str, bytes: seq<nat>)
    requires |charset| > 0
    ensures forall i :: 0 <= i < |bytes| ==> CharsetKey(charset, bytes)[i] in charset
  {
    var key := CharsetKey(charset, bytes);
    forall i | 0 <= i < |bytes|
      ensures key[i] in charset
    {
      var k := bytes[i] % |charset|;
      assert key[i] == charset[k];
    }
  }

  /** Without symbols a key has no character outside A-Z, a-z and 0-9. */
  lemma AlphanumericKey(bytes: seq<nat>)
    ensures !HasSymbol(CharsetKey(Charset(false), bytes))
  {
    CharsetClasses(false);
    var key := CharsetKey(Charset(false), bytes);
    forall i | 0 <= i < |key|
      ensures IsAsciiAlnum(key[i])
    {
      assert key[i] == Charset(false)[bytes[i] % 62];
    }
  }
}
