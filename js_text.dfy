/**
 * JavaScript string semantics used by the components: a string is a sequence of
 * UTF-16 code units, `for…of` and `Array.from` walk it by code point, and the
 * built-ins `trim`, `toLowerCase`, `toString(16)`, `padStart`, `parseInt(_, 16)`,
 * `String.fromCharCode` and `match(/.{1,k}/g)` are given here as functions.
 */
module JsText {
  import opened Wrappers

  /** A UTF-16 code unit, the element of a JavaScript string. */
  type CodeUnit = x: int | 0 <= x < 0x1_0000

  type Str = seq<CodeUnit>

  /**
   * The code units of a Dafny string literal. Every literal of the model lies
   * in the Basic Multilingual Plane; a character beyond it would become U+FFFD.
   */
  function Lit(s: string): (r: Str)
    ensures |r| == |s|
  {
    seq(|s|, i requires 0 <= i < |s| => LitUnit(s[i]))
  }

  function LitUnit(c: char): CodeUnit
  {
    if c as int < 0x1_0000 then c as int else 0xFFFD
  }

  /** The concatenation of a sequence of strings (`Array.prototype.join('')`). */
  function Concat(parts: seq<Str>): Str
  {
    if parts == [] then [] else parts[0] + Concat(parts[1..])
  }

  lemma {:induction false} ConcatAppend(a: seq<Str>, b: seq<Str>)
    ensures Concat(a + b) == Concat(a) + Concat(b)
  {
    if a == [] {
      assert a + b == b;
    } else {
      assert (a + b)[0] == a[0];
      assert (a + b)[1..] == a[1..] + b;
      ConcatAppend(a[1..], b);
      calc {
        Concat(a + b);
        a[0] + Concat(a[1..] + b);
        a[0] + (Concat(a[1..]) + Concat(b));
        (a[0] + Concat(a[1..])) + Concat(b);
      }
    }
  }

  // ---------------------------------------------------------------------------
  // Character classes

  predicate IsAsciiLower(u: int) { 'a' as int <= u <= 'z' as int }
  predicate IsAsciiUpper(u: int) { 'A' as int <= u <= 'Z' as int }
  predicate IsAsciiDigit(u: int) { '0' as int <= u <= '9' as int }
  predicate IsAsciiAlnum(u: int) { IsAsciiLower(u) || IsAsciiUpper(u) || IsAsciiDigit(u) }

  /** `/[a-z]/.test(s)` */
  predicate HasLower(s: Str) { exists i :: 0 <= i < |s| && IsAsciiLower(s[i]) }
  /** `/[A-Z]/.test(s)` */
  predicate HasUpper(s: Str) { exists i :: 0 <= i < |s| && IsAsciiUpper(s[i]) }
  /** `/[0-9]/.test(s)` */
  predicate HasDigit(s: Str) { exists i :: 0 <= i < |s| && IsAsciiDigit(s[i]) }
  /** `/[^a-zA-Z0-9]/.test(s)` */
  predicate HasSymbol(s: Str) { exists i :: 0 <= i < |s| && !IsAsciiAlnum(s[i]) }

  /** How many of the classes lower case, upper case, digit and other the key uses. */
  function ClassCount(key: Str): (n: nat)
    ensures n <= 4
    ensures key != [] ==> n >= 1
  {
    assert key != [] ==> IsAsciiLower(key[0]) || IsAsciiUpper(key[0]) || IsAsciiDigit(key[0]) || !IsAsciiAlnum(key[0]);
    (if HasLower(key) then 1 else 0) + (if HasUpper(key) then 1 else 0)
      + (if HasDigit(key) then 1 else 0) + (if HasSymbol(key) then 1 else 0)
  }

  /** The code units the regular-expression `.` does not match. */
  predicate IsLineTerminator(u: int) { u == 0x0A || u == 0x0D || u == 0x2028 || u == 0x2029 }

  /** WhiteSpace of ECMAScript: TAB, VT, FF, ZWNBSP and the space separators. */
  predicate IsJsWhiteSpace(u: int)
  {
    u == 0x09 || u == 0x0B || u == 0x0C || u == 0x20 || u == 0xA0 || u == 0xFEFF
    || u == 0x1680 || (0x2000 <= u <= 0x200A) || u == 0x202F || u == 0x205F || u == 0x3000
  }

  /** The code units `String.prototype.trim` removes. */
  predicate IsTrimmable(u: int) { IsJsWhiteSpace(u) || IsLineTerminator(u) }

  /** `s.trim()` is the empty string, so `!s.trim()` holds. */
  predicate TrimIsEmpty(s: Str) { forall i :: 0 <= i < |s| ==> IsTrimmable(s[i]) }

  function LowerUnit(u: CodeUnit): (r: CodeUnit)
  {
    if IsAsciiUpper(u) then u + 32 else u
  }

  /**
   * `toLowerCase` on the letters A-Z. Every name this model compares a lowered
   * string with is made of ASCII letters and digits other than `i` and `k`, the
   * only ASCII letters a non-ASCII character lowers into, so for those
   * comparisons this is exact.
   */
  function AsciiLower(s: Str): (r: Str)
    ensures |r| == |s| && forall i :: 0 <= i < |s| ==> r[i] == LowerUnit(s[i])
  {
    seq(|s|, i requires 0 <= i < |s| => LowerUnit(s[i]))
  }

  /** `small` occurs in `big` starting at index i. */
  predicate OccursAt(big: Str, small: Str, i: int)
  {
    0 <= i && i + |small| <= |big| && big[i..i + |small|] == small
  }

  /** `big.includes(small)` */
  predicate Includes(big: Str, small: Str)
  {
    exists i :: 0 <= i <= |big| - |small| && OccursAt(big, small, i)
  }

  // ---------------------------------------------------------------------------
  // Code points

  predicate IsHighSurrogate(u: int) { 0xD800 <= u <= 0xDBFF }
  predicate IsLowSurrogate(u: int) { 0xDC00 <= u <= 0xDFFF }

  /** Number of code units of the first character the string iterator yields. */
  function CharLen(s: Str): (n: nat)
    requires |s| > 0
    ensures 1 <= n <= |s| && n <= 2
    ensures n == 2 ==> IsHighSurrogate(s[0]) && IsLowSurrogate(s[1])
  {
    if |s| >= 2 && IsHighSurrogate(s[0]) && IsLowSurrogate(s[1]) then 2 else 1
  }

  /**
   * The characters `for (const char of s)` and `Array.from(s)` yield: a
   * surrogate pair stays together, every other code unit (a lone surrogate
   * too) is a character of its own.
   */
  function Chars(s: Str): (r: seq<Str>)
    ensures forall i :: 0 <= i < |r| ==> 1 <= |r[i]| <= 2
    ensures |r| <= |s|
    decreases |s|
  {
    if s == [] then [] else [s[..CharLen(s)]] + Chars(s[CharLen(s)..])
  }

  lemma {:induction false} ConcatChars(s: Str)
    ensures Concat(Chars(s)) == s
    decreases |s|
  {
    if s != [] {
      var n := CharLen(s);
      ConcatChars(s[n..]);
      assert Chars(s)[1..] == Chars(s[n..]);
      assert s == s[..n] + s[n..];
    }
  }

  /** A string without surrogates iterates one code unit at a time. */
  lemma {:induction false} CharsOfBmp(s: Str)
    requires forall i :: 0 <= i < |s| ==> !IsHighSurrogate(s[i])
    ensures |Chars(s)| == |s|
    ensures forall i :: 0 <= i < |s| ==> Chars(s)[i] == [s[i]]
    decreases |s|
  {
    if s != [] {
      assert CharLen(s) == 1;
      assert s[..1] == [s[0]];
      CharsOfBmp(s[1..]);
      assert Chars(s) == [[s[0]]] + Chars(s[1..]);
    }
  }

  // ---------------------------------------------------------------------------
  // Hexadecimal digits

  function HexDigit(d: int): (u: CodeUnit)
    requires 0 <= d < 16
  {
    if d < 10 then '0' as int + d else 'a' as int + (d - 10)
  }

  /** The value of a hexadecimal digit of either case. */
  function HexValue(u: int): (r: Option<nat>)
    ensures r.Some? ==> r.value < 16
  {
    if IsAsciiDigit(u) then Some(u - '0' as int)
    else if 'a' as int <= u <= 'f' as int then Some(u - 'a' as int + 10)
    else if 'A' as int <= u <= 'F' as int then Some(u - 'A' as int + 10)
    else None
  }

  lemma HexValueOfDigit(d: int)
    requires 0 <= d < 16
    ensures HexValue(HexDigit(d)) == Some(d)
    ensures !IsTrimmable(HexDigit(d))
    ensures HexDigit(d) != 'x' as int && HexDigit(d) != 'X' as int
    ensures HexDigit(d) != '-' as int && HexDigit(d) != '+' as int
  {
  }

  /** `n.toString(16)` for a non-negative integer: lower-case digits, no leading zeros. */
  function ToHex(n: nat): (r: Str)
    ensures |r| >= 1
    decreases n
  {
    if n < 16 then [HexDigit(n)] else ToHex(n / 16) + [HexDigit(n % 16)]
  }

  /** Distinct numbers have distinct renderings, and only numbers below 16 render as one digit. */
  lemma {:induction false} ToHexInjective(n: nat, m: nat)
    ensures |ToHex(n)| == 1 <==> n < 16
    ensures ToHex(n) == ToHex(m) ==> n == m
    decreases n
  {
    if n >= 16 {
      assert |ToHex(n)| == |ToHex(n / 16)| + 1;
    }
    if m >= 16 {
      assert |ToHex(m)| == |ToHex(m / 16)| + 1;
    }
    if ToHex(n) == ToHex(m) && n >= 16 && m >= 16 {
      var a, b := ToHex(n), ToHex(m);
      assert a[|a| - 1] == b[|b| - 1];
      assert a[..|a| - 1] == ToHex(n / 16) && b[..|b| - 1] == ToHex(m / 16);
      ToHexInjective(n / 16, m / 16);
    }
  }

  /** `s.padStart(width, fill)` */
  function PadStart(s: Str, width: nat, fill: CodeUnit): (r: Str)
    ensures |r| == if |s| >= width then |s| else width
  {
    if |s| >= width then s else seq(width - |s|, _ => fill) + s
  }

  /** `s.padEnd(width, fill)` with a one-unit fill string. */
  function PadEnd(s: Str, width: nat, fill: CodeUnit): (r: Str)
    ensures |r| == if |s| >= width then |s| else width
    ensures r[..|s|] == s
    ensures forall i :: |s| <= i < |r| ==> r[i] == fill
  {
    if |s| >= width then s else s + seq(width - |s|, _ => fill)
  }

  /** `n.toString(16).padStart(2, '0')`, the rendering both hex encoders use. */
  function Hex2(n: nat): (r: Str)
  {
    PadStart(ToHex(n), 2, '0' as int)
  }

  /** A byte renders as exactly two lower-case digits, high nibble first. */
  lemma Hex2OfByte(n: nat)
    requires n < 256
    ensures Hex2(n) == [HexDigit(n / 16), HexDigit(n % 16)]
  {
    if n >= 16 {
      assert ToHex(n / 16) == [HexDigit(n / 16)];
    }
  }

  /** The index of the first unit at or after i that `trim` would keep. */
  function SkipBlanks(s: Str, i: nat): (n: nat)
    requires i <= |s|
    ensures i <= n <= |s|
    ensures forall j :: i <= j < n ==> IsTrimmable(s[j])
    ensures n < |s| ==> !IsTrimmable(s[n])
    decreases |s| - i
  {
    if i < |s| && IsTrimmable(s[i]) then SkipBlanks(s, i + 1) else i
  }

  /** The end of the run of hexadecimal digits that starts at index i. */
  function HexRunEnd(s: Str, i: nat): (n: nat)
    requires i <= |s|
    ensures i <= n <= |s|
    ensures forall j :: i <= j < n ==> HexValue(s[j]).Some?
    ensures n < |s| ==> HexValue(s[n]).None?
    decreases |s| - i
  {
    if i < |s| && HexValue(s[i]).Some? then HexRunEnd(s, i + 1) else i
  }

  /** The number the hexadecimal digits s[i..n] denote. */
  function HexNumber(s: Str, i: nat, n: nat): nat
    requires i <= n <= |s|
    requires forall j :: i <= j < n ==> HexValue(s[j]).Some?
    decreases n - i
  {
    if n == i then 0 else HexNumber(s, i, n - 1) * 16 + HexValue(s[n - 1]).value
  }

  /**
   * `parseInt(s, 16)`: leading white space and line terminators are skipped,
   * then an optional sign and an optional `0x`/`0X`, then the longest run of
   * hexadecimal digits is read. `None` stands for NaN, the result when that
   * run is empty.
   */
  function ParseIntHex(s: Str): (r: Option<int>)
  {
    var start := SkipBlanks(s, 0);
    var negative := start < |s| && s[start] == '-' as int;
    var afterSign := if start < |s| && (s[start] == '-' as int || s[start] == '+' as int) then start + 1 else start;
    var digitsFrom :=
      if afterSign + 1 < |s| && s[afterSign] == '0' as int && (s[afterSign + 1] == 'x' as int || s[afterSign + 1] == 'X' as int)
      then afterSign + 2 else afterSign;
    var digitsTo := HexRunEnd(s, digitsFrom);
    var magnitude: int := if digitsTo == digitsFrom then 0 else HexNumber(s, digitsFrom, digitsTo);
    if digitsTo == digitsFrom then None
    else if negative then Some(-magnitude)
    else Some(magnitude)
  }

  /** `String.fromCharCode(x)`: NaN becomes 0, other integers are taken modulo 2^16. */
  function FromCharCode(x: Option<int>): (u: CodeUnit)
  {
    match x
    case None => 0
    case Some(v) => v % 0x1_0000
  }

  /** Two-digit hex of a byte parses back to the byte. */
  lemma {:induction false} ParseHex2(n: nat)
    requires n < 256
    ensures ParseIntHex(Hex2(n)) == Some(n)
  {
    Hex2OfByte(n);
    var s := Hex2(n);
    HexValueOfDigit(n / 16);
    HexValueOfDigit(n % 16);
    assert SkipBlanks(s, 0) == 0;
    assert HexRunEnd(s, 2) == 2;
    assert HexRunEnd(s, 1) == 2;
    assert HexRunEnd(s, 0) == 2;
    assert HexNumber(s, 0, 1) == n / 16;
  }

  // ---------------------------------------------------------------------------
  // `s.match(/.{1,k}/g) || []`

  /** Number of leading code units of `s` that are not line terminators, at most k. */
  function RunLength(s: Str, k: nat): (n: nat)
    ensures n <= k && n <= |s|
    ensures forall i :: 0 <= i < n ==> !IsLineTerminator(s[i])
    ensures n < k && n < |s| ==> IsLineTerminator(s[n])
  {
    if k == 0 || s == [] || IsLineTerminator(s[0]) then 0 else 1 + RunLength(s[1..], k - 1)
  }

  /**
   * The matches of the global regular expression `/.{1,k}/g` in `s`, or the
   * empty list when there is none: from left to right, each match is the
   * longest run of at most k code units that are not line terminators, and a
   * line terminator is skipped.
   */
  function DotGroups(s: Str, k: nat): (r: seq<Str>)
    requires k >= 1
    ensures forall i :: 0 <= i < |r| ==> 1 <= |r[i]| <= k
    ensures forall i, j :: 0 <= i < |r| && 0 <= j < |r[i]| ==> !IsLineTerminator(r[i][j])
    decreases |s|
  {
    if s == [] then []
    else if IsLineTerminator(s[0]) then DotGroups(s[1..], k)
    else [s[..RunLength(s, k)]] + DotGroups(s[RunLength(s, k)..], k)
  }

  /** The units of `s` that are not line terminators. */
  function WithoutLineTerminators(s: Str): (r: Str)
    ensures |r| <= |s|
  {
    if s == [] then []
    else if IsLineTerminator(s[0]) then WithoutLineTerminators(s[1..])
    else [s[0]] + WithoutLineTerminators(s[1..])
  }

  lemma {:induction false} WithoutLineTerminatorsAppend(a: Str, b: Str)
    ensures WithoutLineTerminators(a + b) == WithoutLineTerminators(a) + WithoutLineTerminators(b)
  {
    if a == [] {
      assert a + b == b;
    } else {
      assert (a + b)[0] == a[0];
      assert (a + b)[1..] == a[1..] + b;
      WithoutLineTerminatorsAppend(a[1..], b);
      if !IsLineTerminator(a[0]) {
        calc {
          WithoutLineTerminators(a + b);
          [a[0]] + WithoutLineTerminators(a[1..] + b);
          [a[0]] + (WithoutLineTerminators(a[1..]) + WithoutLineTerminators(b));
          ([a[0]] + WithoutLineTerminators(a[1..])) + WithoutLineTerminators(b);
        }
      }
    }
  }

  lemma {:induction false} WithoutLineTerminatorsNone(a: Str)
    requires forall i :: 0 <= i < |a| ==> !IsLineTerminator(a[i])
    ensures WithoutLineTerminators(a) == a
  {
    if a != [] {
      WithoutLineTerminatorsNone(a[1..]);
    }
  }

  /** The groups cover the text exactly, line terminators aside. */
  lemma {:induction false} DotGroupsCover(s: Str, k: nat)
    requires k >= 1
    ensures Concat(DotGroups(s, k)) == WithoutLineTerminators(s)
    decreases |s|
  {
    if s == [] {
    } else if IsLineTerminator(s[0]) {
      DotGroupsCover(s[1..], k);
    } else {
      var n := RunLength(s, k);
      DotGroupsCover(s[n..], k);
      assert DotGroups(s, k)[1..] == DotGroups(s[n..], k);
      assert s == s[..n] + s[n..];
      WithoutLineTerminatorsAppend(s[..n], s[n..]);
      WithoutLineTerminatorsNone(s[..n]);
    }
  }

  /**
   * On a text without line terminators every group but the last has exactly k
   * units, so an odd-length hex string ends in a one-digit group.
   */
  lemma {:induction false} DotGroupsFull(s: Str, k: nat)
    requires k >= 1
    requires forall i :: 0 <= i < |s| ==> !IsLineTerminator(s[i])
    ensures Concat(DotGroups(s, k)) == s
    ensures forall g :: 0 <= g < |DotGroups(s, k)| - 1 ==> |DotGroups(s, k)[g]| == k
    decreases |s|
  {
    DotGroupsCover(s, k);
    WithoutLineTerminatorsNone(s);
    if s != [] {
      var n := RunLength(s, k);
      DotGroupsFull(s[n..], k);
      var r := DotGroups(s, k);
      assert r[1..] == DotGroups(s[n..], k);
      if n < k {
        assert s[n..] == [];
      }
    }
  }

  /** Cutting the concatenation of k-unit blocks gives the blocks back. */
  lemma {:induction false} DotGroupsOfBlocks(blocks: seq<Str>, k: nat)
    requires k >= 1
    requires forall g :: 0 <= g < |blocks| ==> |blocks[g]| == k
    requires forall g, i :: 0 <= g < |blocks| && 0 <= i < k ==> !IsLineTerminator(blocks[g][i])
    ensures DotGroups(Concat(blocks), k) == blocks
  {
    if blocks != [] {
      var s := Concat(blocks);
      assert s == blocks[0] + Concat(blocks[1..]);
      assert s[..k] == blocks[0];
      RunLengthFull(s, k);
      assert s[k..] == Concat(blocks[1..]);
      DotGroupsOfBlocks(blocks[1..], k);
    }
  }

  lemma {:induction false} RunLengthFull(s: Str, k: nat)
    requires k <= |s|
    requires forall i :: 0 <= i < k ==> !IsLineTerminator(s[i])
    ensures RunLength(s, k) == k
  {
    if k > 0 {
      RunLengthFull(s[1..], k - 1);
    }
  }
}
