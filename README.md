# CyberCipher core, modelled in Dafny

CyberCipher is a web application for trying out stream ciphers. It pairs a
React front end with a small FastAPI back end. This project models its
computational core:

- **Ciphers** (`src/utils/cipherAlgorithms.ts`):
  - RC4, a class that holds the scheduled permutation table.
  - ChaCha20, a class that holds the key and nonce words and builds
    64-byte keystream blocks from the twenty-round block function.
  - The `createCipher` factory and the `CIPHER_ALGORITHMS` table.
- **Cipher panel** (`CipherEngine_temp.tsx`):
  - Field edits and the input/output swap.
  - `processCipher`: its guards, its hex rendering of ciphertext and its
    permissive hex parsing.
- **Analysis helpers** (`src/utils/aiAnalysis.ts`): the repeating-substring
  finder, the vulnerability prediction rules, and the weighted security
  score.
- **Key generation** (`src/utils/keyGeneration.ts`): quantum-safe and neural
  key generation, and the pattern-penalised key strength.
- **Dashboards and analysers** (`SecurityAnalyzer.tsx`,
  `AnalysisDashboard.tsx`, `AIAnalyzer_new.tsx`, `VisualizationDashboard.tsx`):
  frequency tables, entropy windows and chunks, bit histograms, chunk
  patterns, strength scores, and how the analysis steps merge their results.
- **Key generator panels** (`KeyGeneratorPanel.tsx`, `KeyGenerator.tsx`).
- **Back end** (`backend/main.py`): key generation, XOR encryption and
  decryption through hex, and text analysis.

Texts are modelled as the source language sees them:

- A JavaScript string is a sequence of UTF-16 code units (`JsText.Str`).
  `for … of` yields characters, which keep a surrogate pair together
  (`JsText.Chars`).
- A Python string is a sequence of code points.

JavaScript objects used as counters list their keys in `Object.entries`
order (`JsObject.OwnKeys`): array-index keys first, in ascending order, then
the other keys in insertion order. `Array.prototype.sort` is stable.

Floating-point inputs are parameters of the functions that use them, and
scores use exact reals. These inputs are `Math.log2`, Shannon entropy, the
frequency deviation, the neural and lattice arithmetic, and `TextDecoder`.
Random bytes and the server's answers are parameters too.

Modules, one file each:

| file | module | models |
|---|---|---|
| `wrappers.dfy` | `Wrappers` | `Option` and `Result` |
| `js_text.dfy` | `JsText` | strings as code units and the string operations used |
| `js_math.dfy` | `JsMath` | `Math.round`, `Math.min`, `Math.max` |
| `js_object.dfy` | `JsObject` | counting objects and their key order |
| `collections.dfy` | `Collections` | counts, distinct elements, stable sorts, `slice` |
| `bits.dfy` | `Bits` | XOR on naturals |
| `utf8.dfy` | `Utf8` | `TextEncoder` and CryptoJS's UTF-8 word arrays |
| `rc4.dfy` | `Rc4` | `RC4Cipher` |
| `chacha20.dfy` | `ChaCha20` | `ChaCha20Cipher` |
| `cipher_algorithms.dfy` | `CipherAlgorithms` | `createCipher`, `CIPHER_ALGORITHMS` |
| `cipher_engine.dfy` | `CipherEngine` | the cipher panel |
| `text_entropy.dfy` | `TextEntropy` | the components' `calculateEntropy` |
| `frequency_tables.dfy` | `FrequencyTables` | the top-n character frequency charts |
| `char_stats.dfy` | `CharStats` | the bit histogram |
| `component_helpers.dfy` | `ComponentHelpers` | helpers the components share |
| `ai_analysis.dfy` | `AiAnalysis` | `aiAnalysis.ts` |
| `key_generation.dfy` | `KeyGeneration` | `keyGeneration.ts` |
| `security_analyzer.dfy` | `SecurityAnalyzer` | `SecurityAnalyzer.tsx` |
| `analysis_dashboard.dfy` | `AnalysisDashboard` | `AnalysisDashboard.tsx` |
| `ai_analyzer_new.dfy` | `AiAnalyzerNew` | `AIAnalyzer_new.tsx` |
| `visualization_dashboard.dfy` | `VisualizationDashboard` | `VisualizationDashboard.tsx` |
| `key_generator_panel.dfy` | `KeyGeneratorPanel` | `KeyGeneratorPanel.tsx` |
| `key_generator.dfy` | `KeyGenerator` | `KeyGenerator.tsx` |
| `backend.dfy` | `Backend` | `backend/main.py` |

## Model

| member | source | states |
|---|---|---|
| Rc4.SwapPermutes | src/utils/cipherAlgorithms.ts:22-23 | swapping two entries of a permutation of 0..255 leaves a permutation |
| Rc4.KsaPermutes | src/utils/cipherAlgorithms.ts:11-27 | the key schedule leaves a permutation of 0..255 for every key |
| Rc4.EmptyKeyIsZeroKey | src/utils/cipherAlgorithms.ts:13-21 | an empty key is not rejected: every key term reads as 0, so it schedules like an all-zero key |
| Rc4.PrgaAfterPermutes | src/utils/cipherAlgorithms.ts:42-47 | the generator steps keep the table a permutation |
| Rc4.KeystreamBytes | src/utils/cipherAlgorithms.ts:50 | every keystream value drawn from a permutation is a byte |
| Rc4.KeystreamPrefix | src/utils/cipherAlgorithms.ts:61-76 | a shorter keystream is a prefix of a longer one from the same table |
| Rc4.ProcessPrefixIsXor | src/utils/cipherAlgorithms.ts:42-56 | code unit k of the output is code unit k of the text XORed with keystream byte k |
| Rc4.ProcessTwice | src/utils/cipherAlgorithms.ts:29-35 | processing twice with the same table gives the text back, so `decrypt(encrypt(t)) == t` for every string |
| Rc4.ProcessKeepsBytes | src/utils/cipherAlgorithms.ts:53-55 | a text of code units below 256 stays below 256 |
| Rc4.RC4Cipher.constructor | src/utils/cipherAlgorithms.ts:7-9 | the table holds the key schedule `Ksa(words)` of the key's words |
| Rc4.RC4Cipher.InitializeKey | src/utils/cipherAlgorithms.ts:11-27 | the loop fills a fresh 256-entry array with the key schedule `Ksa(words)` |
| Rc4.RC4Cipher.KsaStep | src/utils/cipherAlgorithms.ts:20-24 | one pass takes the table and `j` from iteration i to i + 1 of the schedule |
| Rc4.RC4Cipher.CopyState | src/utils/cipherAlgorithms.ts:38 | the working copy holds the scheduled table and leaves `this.key` untouched |
| Rc4.RC4Cipher.SwapEntries | src/utils/cipherAlgorithms.ts:47 | entries i and j are exchanged and nothing else changes |
| Rc4.RC4Cipher.Step | src/utils/cipherAlgorithms.ts:43-47 | one generator step: new `i`, `j` and table as the specification step gives them |
| Rc4.RC4Cipher.NextByte | src/utils/cipherAlgorithms.ts:43-50 | one step followed by its output byte `S[(S[i] + S[j]) % 256]` |
| Rc4.RC4Cipher.XorKeystream | src/utils/cipherAlgorithms.ts:42-56 | after the loop the result is `ProcessSpec` of the text for the scheduled table |
| Rc4.RC4Cipher.Process | src/utils/cipherAlgorithms.ts:37-59 | returns the text XORed with the keystream of the table, and leaves the table unchanged |
| Rc4.RC4Cipher.Encrypt | src/utils/cipherAlgorithms.ts:29-31 | encryption is `process` |
| Rc4.RC4Cipher.Decrypt | src/utils/cipherAlgorithms.ts:33-35 | decryption is `process` |
| Rc4.RC4Cipher.GenerateKeystream | src/utils/cipherAlgorithms.ts:61-76 | returns the first `length` keystream bytes, each below 256 |
| ChaCha20.RotateLeftRotates | src/utils/cipherAlgorithms.ts:214-216 | for every distance from 1 to 31, `rotateLeft` is the 32-bit left rotation |
| ChaCha20.QuarterRoundFrame | src/utils/cipherAlgorithms.ts:200-212 | a quarter round changes only its four words |
| ChaCha20.QuarterRoundWordsAt | src/utils/cipherAlgorithms.ts:200-212 | on four distinct positions the quarter round writes exactly the four words it computes from them |
| ChaCha20.QuarterRoundVector | src/utils/cipherAlgorithms.ts:200-212 | the quarter round reproduces the test vector of section 2.1.1 of RFC 8439 |
| ChaCha20.QuarterRoundStateVector | src/utils/cipherAlgorithms.ts:200-212 | the quarter round (2, 7, 8, 13) on a state reproduces section 2.2.1 of RFC 8439 |
| ChaCha20.QuarterRoundsAppend | src/utils/cipherAlgorithms.ts:180-190 | running two lists of quarter rounds is running their concatenation |
| ChaCha20.RoundsStep | src/utils/cipherAlgorithms.ts:180-190 | each further pass of the loop is one more double round |
| ChaCha20.AddStates | src/utils/cipherAlgorithms.ts:193-195 | each word is the wrapping 32-bit sum of the two inputs |
| ChaCha20.PackLEBytes | src/utils/cipherAlgorithms.ts:94-98 | packing four bytes into a word and reading its bytes back gives the bytes |
| ChaCha20.PackWordsByte | src/utils/cipherAlgorithms.ts:93-99 | byte k of packed word i is byte 4i + k of the input |
| ChaCha20.NonceWords | src/utils/cipherAlgorithms.ts:86 | three words, all zero for a missing or empty nonce |
| ChaCha20.KeyPrefixOnly | src/utils/cipherAlgorithms.ts:90 | only the first 32 code units of the key count |
| ChaCha20.KeyZeroPadding | src/utils/cipherAlgorithms.ts:90 | a short key and the same key followed by '0' give the same key words |
| ChaCha20.KeyWordsAscii | src/utils/cipherAlgorithms.ts:89-102 | an ASCII key lands in the key words byte for byte, padded with '0' |
| ChaCha20.JoinBlocksPosition | src/utils/cipherAlgorithms.ts:143-150 | byte n of the joined blocks is byte n % 64 of block n / 64 |
| ChaCha20.BlockCount | src/utils/cipherAlgorithms.ts:143 | the loop runs just enough passes of 64 bytes to cover the length |
| ChaCha20.KeystreamPosition | src/utils/cipherAlgorithms.ts:139-153 | keystream byte n is byte n % 64 of the block with counter n / 64, whatever the length |
| ChaCha20.KeystreamPrefix | src/utils/cipherAlgorithms.ts:139-153 | a keystream is a prefix of every longer one |
| ChaCha20.XorBytes | src/utils/cipherAlgorithms.ts:132-134 | byte i of the result is text byte i XOR keystream byte i |
| ChaCha20.ProcessBytesTwice | src/utils/cipherAlgorithms.ts:119-137 | on bytes, encryption and decryption are the same operation and undo each other |
| ChaCha20.ChaCha20Cipher.constructor | src/utils/cipherAlgorithms.ts:84-87 | the key and nonce arrays hold `KeyWords(key)` and `NonceWords(nonce)` |
| ChaCha20.ChaCha20Cipher.ParseKey | src/utils/cipherAlgorithms.ts:89-102 | returns a fresh 8-word array holding `KeyWords(key)` |
| ChaCha20.ChaCha20Cipher.ParseNonce | src/utils/cipherAlgorithms.ts:104-117 | returns a fresh 3-word array of the nonce bytes packed little-endian |
| ChaCha20.ChaCha20Cipher.PackArray | src/utils/cipherAlgorithms.ts:93-99 | word i packs bytes 4i..4i+3, least significant first |
| ChaCha20.ChaCha20Cipher.Process | src/utils/cipherAlgorithms.ts:127-137 | returns the decoding of the text's UTF-8 bytes XORed with the keystream |
| ChaCha20.ChaCha20Cipher.Encrypt | src/utils/cipherAlgorithms.ts:119-121 | encryption is `process` |
| ChaCha20.ChaCha20Cipher.Decrypt | src/utils/cipherAlgorithms.ts:123-125 | decryption is `process` |
| ChaCha20.ChaCha20Cipher.XorArrays | src/utils/cipherAlgorithms.ts:130-134 | the fresh result holds text byte i XOR keystream byte i at every i |
| ChaCha20.ChaCha20Cipher.GenerateKeystream | src/utils/cipherAlgorithms.ts:139-153 | the fresh array holds exactly `KeystreamSpec` of the key, nonce and length |
| ChaCha20.ChaCha20Cipher.FillBlock | src/utils/cipherAlgorithms.ts:144-149 | a buffer that holds the first `counter` keystream blocks holds the first `counter` + 1 after one pass |
| ChaCha20.ChaCha20Cipher.CopyBlock | src/utils/cipherAlgorithms.ts:147-149 | bytes i..i + min(64, length − i) become the block's bytes, and the rest is unchanged |
| ChaCha20.ChaCha20Cipher.ChachaBlock | src/utils/cipherAlgorithms.ts:155-198 | returns a fresh 16-word array holding `Block` of the key, counter and nonce |
| ChaCha20.ChaCha20Cipher.SetUpState | src/utils/cipherAlgorithms.ts:156-175 | the fresh state holds `InitialState` |
| ChaCha20.ChaCha20Cipher.CopyWords | src/utils/cipherAlgorithms.ts:165-175 | the given words are copied to positions `at…`, and every other position is unchanged |
| ChaCha20.ChaCha20Cipher.RunRounds | src/utils/cipherAlgorithms.ts:177-190 | the working state becomes `Rounds(10)` of the input state |
| ChaCha20.ChaCha20Cipher.DoubleRoundStep | src/utils/cipherAlgorithms.ts:181-189 | one pass applies the four column rounds, then the four diagonal rounds |
| ChaCha20.ChaCha20Cipher.ColumnRounds | src/utils/cipherAlgorithms.ts:181-184 | the four column quarter rounds, in order |
| ChaCha20.ChaCha20Cipher.DiagonalRounds | src/utils/cipherAlgorithms.ts:186-189 | the four diagonal quarter rounds, in order |
| ChaCha20.ChaCha20Cipher.QuarterRoundStep | src/utils/cipherAlgorithms.ts:181-189 | the k-th call of a pass applies the k-th quarter round of the schedule |
| ChaCha20.ChaCha20Cipher.AddOriginal | src/utils/cipherAlgorithms.ts:193-195 | every word becomes the wrapping sum of working and original word |
| ChaCha20.ChaCha20Cipher.QuarterRound | src/utils/cipherAlgorithms.ts:200-212 | the array becomes `QuarterRoundOn` of its old contents |
| CipherAlgorithms.SelectAlgorithm | src/utils/cipherAlgorithms.ts:221-227 | the lower-cased name selects RC4 exactly for "rc4", ChaCha20 exactly for "chacha20", and nothing otherwise |
| CipherAlgorithms.Rc4KeyWords | src/utils/cipherAlgorithms.ts:12-13 | the words of `CryptoJS.enc.Utf8.parse(key)`: one signed big-endian word per four bytes, or an error on a lone surrogate |
| CipherAlgorithms.CreateCipherCases | src/utils/cipherAlgorithms.ts:220-229 | an unknown name throws "Unsupported algorithm: " followed by the name as given; "rc4" in any case builds RC4 from the key, and "chacha20" builds ChaCha20 without a nonce |
| CipherAlgorithms.CaseInsensitive | src/utils/cipherAlgorithms.ts:221 | "RC4" and "ChaCha20" are accepted as well |
| CipherAlgorithms.Rc4Apply | src/utils/cipherAlgorithms.ts:29-59 | RC4 output has the length of its input, and decryption undoes encryption |
| CipherAlgorithms.Rc4ApplyBytes | src/utils/cipherAlgorithms.ts:53-55 | RC4 keeps code units below 256 below 256 |
| CipherAlgorithms.TableMatchesFactory | src/utils/cipherAlgorithms.ts:220-247 | every entry is filed under its own id, has a 256-bit key, and its id is a name `createCipher` accepts: rc4 (medium strength) for RC4, chacha20 (high) for ChaCha20 |
| CipherEngine.HandleInputChange | src/components/CipherEngine_temp.tsx:22-27 | the edited field takes the given value |
| CipherEngine.HandleInputChangeOnly | src/components/CipherEngine_temp.tsx:22-27 | every other field keeps its value |
| CipherEngine.HandleInputChangeOverwrite | src/components/CipherEngine_temp.tsx:22-27 | a second edit of the same field wins over the first |
| CipherEngine.SwapInputOutputInvolution | src/components/CipherEngine_temp.tsx:85-93 | the swap exchanges the texts, flips the mode, keeps key, algorithm and results, and undoes itself |
| CipherEngine.ParseShortHexAgrees | src/components/CipherEngine_temp.tsx:57 | the case analysis of `parseInt(g, 16)` for groups of one or two units agrees with the general `parseInt` model |
| CipherEngine.HexEncodeBytes | src/components/CipherEngine_temp.tsx:49-51 | a text of bytes encodes to two lower-case hex digits per unit, high nibble first |
| CipherEngine.HexGroups | src/components/CipherEngine_temp.tsx:49-55 | `/.{1,2}/g` cuts the encoder's hex back into its two-digit blocks |
| CipherEngine.GroupCodeOfByte | src/components/CipherEngine_temp.tsx:56-57 | the two digits of a byte decode to the byte |
| CipherEngine.HexRoundTrip | src/components/CipherEngine_temp.tsx:49-58 | decoding the encoder's hex of a text of bytes gives the text back |
| CipherEngine.DotPairs | src/components/CipherEngine_temp.tsx:55 | on a text without line breaks the groups are ⌈n/2⌉ pairs, the last of one unit for an odd length |
| CipherEngine.HexDecodePairs | src/components/CipherEngine_temp.tsx:55-58 | the decoder reads the text pair by pair, and parses the last unit of an odd-length text alone instead of rejecting it |
| CipherEngine.GroupCodePermissive | src/components/CipherEngine_temp.tsx:56-57 | bad groups are not rejected: "4g" is 4, "zz" and "0x" give code 0, "-1" wraps to 0xFFFF, " a" is 0xA |
| CipherEngine.ProcessCipherCases | src/components/CipherEngine_temp.tsx:29-74 | a blank text or key, or a failed `createCipher`, leaves the state unchanged with an error notice; otherwise only the output changes, to the hex of the encryption or to the decryption of the parsed hex |
| CipherEngine.Rc4PanelRoundTrip | src/components/CipherEngine_temp.tsx:29-93 | with RC4 on a text of bytes, encrypt, then swap, then decrypt gives the original text |
| AiAnalysis.MaxPatternLength | src/utils/aiAnalysis.ts:117 | the bound is min(10, ⌊n/2⌋) |
| AiAnalysis.OccurrencesSound | src/utils/aiAnalysis.ts:122-128 | a recorded position list holds starts of windows equal to the pattern, ascending |
| AiAnalysis.OccurrencesComplete | src/utils/aiAnalysis.ts:122-128 | every start of a window equal to the pattern is recorded |
| AiAnalysis.IndexedStep | src/utils/aiAnalysis.ts:123-127 | recording the window at i keeps the Map and its insertion order up to date |
| AiAnalysis.IndexWindows | src/utils/aiAnalysis.ts:120-128 | after the first inner loop the Map holds each window of length len under its substring, with all its starts, in first-occurrence order |
| AiAnalysis.FilterRepeated | src/utils/aiAnalysis.ts:131-139 | the second inner loop pushes exactly the entries whose position list has more than one element, in Map order |
| AiAnalysis.CollectPatterns | src/utils/aiAnalysis.ts:119-140 | one outer pass appends the repeated patterns of one length |
| AiAnalysis.FindRepeatingPatterns | src/utils/aiAnalysis.ts:114-145 | the method's result is the stable descending sort by frequency of every repeated substring of length 2..min(10, ⌊n/2⌋), cut to ten |
| AiAnalysis.GeneratedRepeats | src/utils/aiAnalysis.ts:119-140 | every generated entry is a substring of an allowed length with all its starts, ascending, at least two |
| AiAnalysis.RepeatedRepeats | src/utils/aiAnalysis.ts:131-139 | every entry pushed for one length is a true repetition |
| AiAnalysis.GeneratedHas | src/utils/aiAnalysis.ts:119-140 | a substring of length 2..m found at two starts is among the generated entries |
| AiAnalysis.RepeatingPatternsComplete | src/utils/aiAnalysis.ts:114-145 | a substring of an allowed length found at two starts is among the generated entries, and in the result when at most ten were generated |
| AiAnalysis.ShortTextHasNoPatterns | src/utils/aiAnalysis.ts:117-119 | texts shorter than four units have no pattern length to try |
| AiAnalysis.RepeatingPatternsOverlap | src/utils/aiAnalysis.ts:122-137 | overlapping starts count: "aaaa" reports "aa" with frequency 3 at 0, 1 and 2 |
| AiAnalysis.PredictVulnerabilities | src/utils/aiAnalysis.ts:20-88 | the pushes in source order equal the declarative rule table `Predictions` |
| AiAnalysis.PredictionsRules | src/utils/aiAnalysis.ts:20-88 | each warning appears exactly when its condition holds: key under 16 units, entropy below 3.5, deviation above 0.3, entropy above 7.0 |
| AiAnalysis.PredictionsShape | src/utils/aiAnalysis.ts:69-87 | the ChaCha20 hint and the quantum threat always close the list, which has 2 to 5 entries |
| AiAnalysis.PredictionsHighRisk | src/utils/aiAnalysis.ts:24-32 | a prediction with risk high is present exactly for keys under 16 units |
| AiAnalysis.KeyStrength | src/utils/aiAnalysis.ts:205-229 | 0 for the empty key; otherwise min(30, 2·length) + 15 per class + min(10, 2·entropy), and with a non-negative entropy it lies in [0, 100], at least 17 for a non-empty key |
| AiAnalysis.AlgorithmStrength | src/utils/aiAnalysis.ts:231-240 | the lower-cased name gives 60, 95, 90 or 85 for rc4, chacha20, aes and salsa20, and 50 for any other name that is not an `Object.prototype` member |
| AiAnalysis.QuantumResistance | src/utils/aiAnalysis.ts:242-252 | the lower-cased name gives 10, 25, 20 or 20, and 15 for any other name that is not an `Object.prototype` member |
| AiAnalysis.LookupFacts | src/utils/aiAnalysis.ts:231-252 | both lookups ignore case and give the tabled values, with the defaults for every other name that is not an `Object.prototype` member |
| AiAnalysis.SecurityScore | src/utils/aiAnalysis.ts:91-111 | the record carries the four parts, the implementation score 75, and the rounded weighted sum as overall |
| AiAnalysis.SecurityScoreBounds | src/utils/aiAnalysis.ts:91-111 | with a non-negative key entropy the overall score lies in [34, 78] |
| TextEntropy.CalculateEntropy | src/components/AIAnalyzer_new.tsx:83-98 | the counting loop and the loop over the counts compute `Entropy(text)` |
| TextEntropy.EntropyNonNegative | src/components/AIAnalyzer_new.tsx:91-95 | with a logarithm never positive on (0, 1], the entropy is never negative |
| TextEntropy.SingleEntry | src/components/AIAnalyzer_new.tsx:86-89 | items that are all equal give one entry, which counts them all |
| TextEntropy.EntropyOfRepetition | src/components/AIAnalyzer_new.tsx:83-98 | a text repeating one character has entropy 0 when log2(1) is 0 |
| JsObject.OwnKeysOrder | src/components/AnalysisDashboard.tsx:50-55 | the property order lists every key once: array-index keys first, ascending, then the others in insertion order |
| JsObject.Tally | src/components/AnalysisDashboard.tsx:50-53 | the counting loop leaves, for each distinct item in first-occurrence order, its number of occurrences |
| JsObject.TallyAgrees | src/components/AnalysisDashboard.tsx:50-55 | the entries of the counter the loop builds are `CountEntries` of the items |
| JsObject.CountEntriesFacts | src/components/AnalysisDashboard.tsx:50-55 | the entries list each distinct item once, with its count of at least one, and the counts add up to the number of items |
| Collections.DistinctProperties | src/components/AnalysisDashboard.tsx:50-53 | Distinct lists every element once and nothing else |
| Collections.CountsSum | src/components/AnalysisDashboard.tsx:50-53 | the counts of the distinct elements add up to the length |
| Collections.SortDescendingCorrect | src/utils/aiAnalysis.ts:142-144 | the descending sort is a permutation, has non-increasing keys, and keeps equal keys in their original order |
| Collections.SortAscendingCorrect | src/components/AnalysisDashboard.tsx:61 | the ascending sort is a permutation, has non-decreasing keys, and is stable |
| Collections.Take | src/utils/aiAnalysis.ts:144 | `slice(0, n)` keeps the first min(n, length) elements |
| Collections.TopByKey | src/utils/aiAnalysis.ts:142-144 | the first n of the stable descending sort are elements by non-increasing key, and for each key a prefix of the elements with that key |
| FrequencyTables.TopFacts | src/components/AnalysisDashboard.tsx:55-62 | the top n rows come from the table by non-increasing count, ties in table order, and a row left out never outcounts one kept |
| FrequencyTables.TopDistinct | src/components/AnalysisDashboard.tsx:55-62 | rows with distinct labels stay distinct in the top n |
| FrequencyTables.ShareBounded | src/components/AnalysisDashboard.tsx:58 | a count out of n, as a percentage, lies in [0, 100] |
| FrequencyTables.TopCharRows | src/components/AnalysisDashboard.tsx:50-62 | the top n rows: one per distinct character, up to n of them, by non-increasing count, each with the character's number of occurrences |
| FrequencyTables.TopCharRowsComplete | src/components/AnalysisDashboard.tsx:55-62 | a character occurring more often than a row's character has a row too |
| FrequencyTables.CharRowsSum | src/components/AnalysisDashboard.tsx:50-60 | before the cut, the row counts add up to the number of characters |
| CharStats.CountBits | src/components/AnalysisDashboard.tsx:174-183 | the loop leaves an 8-entry array whose entry b counts the characters with bit b set |
| CharStats.AddBits | src/components/AnalysisDashboard.tsx:178-182 | each of the eight entries grows by one exactly when the code unit has that bit set, and by nothing otherwise |
| CharStats.BitCountAppend | src/components/AnalysisDashboard.tsx:176-183 | counting two texts one after the other adds the counts |
| CharStats.AsciiHasNoBit7 | src/components/AnalysisDashboard.tsx:179 | in an ASCII text no character has bit 7 set |
| ComponentHelpers.KeyStrength | src/components/SecurityAnalyzer.tsx:186-197 | at most 100, 0 exactly for the empty key, and at least 12 for any other key (length part plus at least one class) |
| ComponentHelpers.CalculateKeyStrength | src/components/SecurityAnalyzer.tsx:186-197 | adding the parts to `score` one by one gives `KeyStrength` |
| ComponentHelpers.KeyStrengthUncapped | src/components/SecurityAnalyzer.tsx:196 | the cap at 100 never binds |
| ComponentHelpers.KeyStrengthExtend | src/components/SecurityAnalyzer.tsx:186-197 | appending characters never lowers the strength |
| ComponentHelpers.ExactAlgorithmStrength | src/components/SecurityAnalyzer.tsx:199-207 | the name as given gives 60, 90, 85 or 30 for rc4, chacha20, aes and des, and 50 for any other name that is not an `Object.prototype` member |
| ComponentHelpers.ExactAlgorithmStrengthFacts | src/components/AnalysisDashboard.tsx:137-145 | the name is not lower-cased: "RC4" scores the default 50 |
| ComponentHelpers.StrengthColor | src/components/SecurityAnalyzer.tsx:209-214 | green from 80, yellow from 60, red below |
| ComponentHelpers.StrengthBadge | src/components/SecurityAnalyzer.tsx:216-221 | default from 80, secondary from 60, destructive below |
| ComponentHelpers.ColorAndBadge | src/components/SecurityAnalyzer.tsx:209-221 | the badge matches the colour, and a higher score never gets a worse colour |
| ComponentHelpers.StrengthLabel | src/components/KeyGeneratorPanel.tsx:91-97 | "Quantum-Resistant" from 90, "Very Strong" from 70, "Strong" from 50, "Moderate" from 30, "Weak" below |
| ComponentHelpers.StrengthLabelMonotone | src/components/KeyGenerator.tsx:70-76 | a stronger key never gets a weaker label |
| ComponentHelpers.Charset | src/components/KeyGeneratorPanel.tsx:57-59 | 88 characters with symbols and 62 without, the first 62 being A-Z, a-z and 0-9 in that order |
| ComponentHelpers.CharsetLiterals | src/components/KeyGeneratorPanel.tsx:57-59 | the 62 letters and digits are exactly the literal the components write |
| ComponentHelpers.CharsetClasses | src/components/KeyGeneratorPanel.tsx:57-59 | the first 62 characters are letters and digits, and none of the symbols is |
| ComponentHelpers.CharsetKey | src/components/KeyGeneratorPanel.tsx:64 | one character per byte, the charset's character at the byte modulo the charset size |
| ComponentHelpers.CharsetKeyChars | src/components/KeyGenerator.tsx:59-68 | every character of a charset key is a character of the charset |
| ComponentHelpers.AlphanumericKey | src/components/KeyGenerator.tsx:60-62 | without symbols a key has no character outside A-Z, a-z and 0-9 |
| SecurityAnalyzer.DetectPatterns | src/components/SecurityAnalyzer.tsx:109-130 | the patterns are the repeated 4-unit chunks with their counts, the randomness score is max(0, 100 − 5·patterns) and the correlation min(1, patterns/10) |
| SecurityAnalyzer.PushRepeated | src/components/SecurityAnalyzer.tsx:119-123 | the pushed list is the entries counted more than once, in entry order, each with its count and no positions |
| SecurityAnalyzer.RepeatedEntriesSound | src/components/SecurityAnalyzer.tsx:119-123 | every reported pattern comes from an entry counted more than once |
| SecurityAnalyzer.RepeatedEntriesComplete | src/components/SecurityAnalyzer.tsx:119-123 | every entry counted more than once is reported |
| SecurityAnalyzer.ChunkPatternsFacts | src/components/SecurityAnalyzer.tsx:109-123 | the reported patterns are exactly the chunks occurring more than once, each once, with its count and no positions |
| SecurityAnalyzer.AssessSecurity | src/components/SecurityAnalyzer.tsx:132-143 | the quantum resistance is 85 for exactly "chacha20" and 60 otherwise, but the overall score always averages in 60 |
| SecurityAnalyzer.AssessSecurityOverall | src/components/SecurityAnalyzer.tsx:132-143 | the overall score lies in [42, 82], and for "chacha20" it is below the average of the four reported parts |
| SecurityAnalyzer.RunAiAnalysis | src/components/SecurityAnalyzer.tsx:145-167 | one fixed prediction, three fixed recommendations, and the key-length vulnerability exactly for keys under 16 units |
| SecurityAnalyzer.MergeLast | src/components/SecurityAnalyzer.tsx:52-59 | a property takes its value from the last step that sets it |
| SecurityAnalyzer.MergeUntouched | src/components/SecurityAnalyzer.tsx:45-59 | a property no step sets keeps its initial value, or stays absent |
| SecurityAnalyzer.RunSecurityAnalysis | src/components/SecurityAnalyzer.tsx:24-97 | running the steps in order and spreading each result gives `SecurityAnalysis` of the state |
| SecurityAnalyzer.MergedEntropy | src/components/SecurityAnalyzer.tsx:38-58 | the entropy comes from the first step, and no step sets the frequency analysis |
| SecurityAnalyzer.MergedPatterns | src/components/SecurityAnalyzer.tsx:39-58 | the pattern properties come from the pattern step |
| SecurityAnalyzer.MergedAssessment | src/components/SecurityAnalyzer.tsx:40-58 | the strength properties come from the assessment step |
| SecurityAnalyzer.MergedAi | src/components/SecurityAnalyzer.tsx:41-58 | the AI properties come from the AI step |
| SecurityAnalyzer.SecurityAnalysisReport | src/components/SecurityAnalyzer.tsx:65-83 | every computed value is reported, except that falsy ones get their defaults: entropy 0 reads as 4.2, an empty key's strength as 82, the randomness score as 85 from 20 patterns on, the correlation as 0.15 without patterns; the frequency analysis is always empty |
| SecurityAnalyzer.SecurityAnalysisText | src/components/SecurityAnalyzer.tsx:25-34 | nothing is analysed exactly when both texts are empty, and the output text is preferred |
| AnalysisDashboard.LabelFacts | src/components/AnalysisDashboard.tsx:57 | labels tell characters apart, and only the space is labelled "Space" |
| AnalysisDashboard.FrequencyDataRows | src/components/AnalysisDashboard.tsx:55-62 | one row per distinct character, up to ten, by non-increasing count, each the labelled count and two-decimal percentage |
| AnalysisDashboard.FrequencyDataLabels | src/components/AnalysisDashboard.tsx:55-62 | no two rows have the same label |
| AnalysisDashboard.FrequencyDataComplete | src/components/AnalysisDashboard.tsx:55-62 | a character occurring more often than a row's character has a row too |
| AnalysisDashboard.FrequencyDataSum | src/components/AnalysisDashboard.tsx:50-60 | before the cut, the counts add up to the number of characters |
| AnalysisDashboard.PointCount | src/components/AnalysisDashboard.tsx:66 | one point per multiple of 5 below min(n, 50), so at most ten |
| AnalysisDashboard.PushPoint | src/components/AnalysisDashboard.tsx:67-82 | the loop body appends the point of the chunk at i, with its rounded entropy |
| AnalysisDashboard.EntropyData | src/components/AnalysisDashboard.tsx:65-83 | the loop's data is `EntropyPoints(text)`, one point per chunk of 5 at 0, 5, … below min(n, 50) |
| AnalysisDashboard.CalculateOverallSecurity | src/components/AnalysisDashboard.tsx:147-153 | the three helpers give `OverallSecurity` |
| AnalysisDashboard.OverallSecurityBounds | src/components/AnalysisDashboard.tsx:147-153 | with a logarithm never positive on (0, 1], the overall score is at least 10 |
| AnalysisDashboard.DetectPatterns | src/components/AnalysisDashboard.tsx:155-171 | the counting and filter loops return `PatternTexts(text)` |
| AnalysisDashboard.PatternTextsExact | src/components/AnalysisDashboard.tsx:155-171 | the patterns are exactly the chunks of one to four units that occur more than once |
| AnalysisDashboard.PatternTextsDistinct | src/components/AnalysisDashboard.tsx:164-168 | no pattern is reported twice |
| AnalysisDashboard.PatternResistance | src/components/AnalysisDashboard.tsx:393 | the resistance lies in [0, 100], is full exactly without patterns and zero exactly from ten on |
| AnalysisDashboard.GenerateBitDistribution | src/components/AnalysisDashboard.tsx:173-190 | the counting loops, then one row per bit, give `BitDistribution(text)` |
| AnalysisDashboard.BitPercentagesBounded | src/components/AnalysisDashboard.tsx:185-189 | every percentage lies in [0, 100] for a non-empty text |
| AnalysisDashboard.GenerateLocalAnalysisData | src/components/AnalysisDashboard.tsx:48-105 | the parts computed in turn give `LocalAnalysis` of the text, key and algorithm |
| AnalysisDashboard.UniqueCharsBounded | src/components/AnalysisDashboard.tsx:103 | there are no more distinct characters than characters, and none only for the empty text |
| AiAnalyzerNew.CalculateFrequencyAnalysis | src/components/AIAnalyzer_new.tsx:100-114 | the counting loop, then the map, sort and cut, give `FrequencyAnalysis(text)` |
| AiAnalyzerNew.FrequencyAnalysisRows | src/components/AIAnalyzer_new.tsx:100-114 | one row per distinct character, up to ten, by non-increasing count, each the count and two-decimal percentage |
| AiAnalyzerNew.FrequencyAnalysisCounts | src/components/AIAnalyzer_new.tsx:100-114 | no character has two rows, and before the cut the counts add up to the number of characters |
| AiAnalyzerNew.FrequencyAnalysisComplete | src/components/AIAnalyzer_new.tsx:106-113 | a character occurring more often than a row's character has a row too |
| AiAnalyzerNew.SomeHighRisk | src/components/AIAnalyzer_new.tsx:129 | true exactly when some prediction has risk high |
| AiAnalyzerNew.GenerateRecommendations | src/components/AIAnalyzer_new.tsx:116-135 | the pushes, in order, give `Recommendations(score, predictions)` |
| AiAnalyzerNew.RecommendationsShape | src/components/AIAnalyzer_new.tsx:116-135 | each pair is there exactly when its condition holds, so the list has 0, 2, 4 or 6 entries, and a score under 30 always brings both score pairs |
| AiAnalyzerNew.NumberDisplay | src/components/AIAnalyzer_new.tsx:137-147 | on a number the helpers follow the 80/60 thresholds, and the verdict follows the colour |
| AiAnalyzerNew.RunAnalysis | src/components/AIAnalyzer_new.tsx:24-80 | the guard and the helpers in turn give `Analysis(state)` |
| AiAnalyzerNew.AnalysisOutcome | src/components/AIAnalyzer_new.tsx:24-66 | the analysis runs exactly when a text is present and prefers the output; the vulnerability list is empty and the strength is `calculateSecurityScore` |
| AiAnalyzerNew.AsCalledRecommendations | src/components/AIAnalyzer_new.tsx:65 | with the strength record passed as the score, the recommendations are the high-risk pair exactly for keys under 16 units, and none otherwise |
| AiAnalyzerNew.AsCalledDisplay | src/components/AIAnalyzer_new.tsx:199-223 | with the record passed as the score, the panel always shows red, the destructive badge and "Weak" |
| AiAnalyzerNew.IntendedRecommendations | src/components/AIAnalyzer_new.tsx:116-135 | with the overall score passed, the first pair never appears, the second appears exactly below 60, and the high-risk pair exactly for keys under 16 units |
| VisualizationDashboard.GenerateFrequencyData | src/components/VisualizationDashboard.tsx:17-33 | the guard, the counting loop and the map, sort and cut give `FrequencyChart(text)` |
| VisualizationDashboard.FrequencyChartRows | src/components/VisualizationDashboard.tsx:17-33 | one row per distinct character, up to twenty, by non-increasing count, each the labelled count and exact percentage |
| VisualizationDashboard.FrequencyChartRowAt | src/components/VisualizationDashboard.tsx:25-30 | row i is the label (the character when it is one ASCII unit, else its code in hex), the count and the exact percentage of a character of the text |
| VisualizationDashboard.FrequencyChartCounts | src/components/VisualizationDashboard.tsx:20-32 | before the cut the counts add up to the number of characters, and a more frequent character is never cut in favour of a rarer one |
| VisualizationDashboard.UnitLabelsApart | src/components/VisualizationDashboard.tsx:27 | characters of one code unit get distinct labels |
| VisualizationDashboard.FrequencyChartLabels | src/components/VisualizationDashboard.tsx:25-32 | in a text without high surrogates no two rows share a label |
| VisualizationDashboard.SurrogatePairLabelsCollide | src/components/VisualizationDashboard.tsx:27 | U+1F600 and U+1F601 share the label "d83d", the hex of their common high surrogate |
| VisualizationDashboard.WindowSize | src/components/VisualizationDashboard.tsx:39 | max(1, ⌊n/50⌋) |
| VisualizationDashboard.WindowsUpToAt | src/components/VisualizationDashboard.tsx:42-50 | the k-th of the first m points is the point of window k |
| VisualizationDashboard.WindowCountOf | src/components/VisualizationDashboard.tsx:42 | the only number of steps whose multiples of w reach n − w without passing it is the count of points |
| VisualizationDashboard.PushWindow | src/components/VisualizationDashboard.tsx:43-49 | the loop body appends the point of the window at i, carrying its entropy twice |
| VisualizationDashboard.GenerateEntropyData | src/components/VisualizationDashboard.tsx:36-53 | the loop's data is `EntropyWindows(text)` |
| VisualizationDashboard.EntropyWindowsFacts | src/components/VisualizationDashboard.tsx:36-53 | there is one point per multiple of w strictly below n − w and none further; each window lies inside the text |
| VisualizationDashboard.EntropyWindowAt | src/components/VisualizationDashboard.tsx:42-49 | the k-th point sits at k · w, below n − w, and carries the entropy of its window |
| VisualizationDashboard.ShortTextHasNoWindows | src/components/VisualizationDashboard.tsx:37-42 | a text of at most one code unit has no points |
| VisualizationDashboard.GenerateBitDistribution | src/components/VisualizationDashboard.tsx:56-75 | the guard, the counting loops and the map give `BitChart(text)` |
| VisualizationDashboard.BitChartFacts | src/components/VisualizationDashboard.tsx:56-75 | an empty text has no slices; any other has eight, slice i counting the characters with bit i set, at most the number of characters |
| VisualizationDashboard.BitSliceAt | src/components/VisualizationDashboard.tsx:70-74 | slice i counts the characters with bit i set, and its percentage lies in [0, 100] |
| VisualizationDashboard.AlgorithmComparisonFacts | src/components/VisualizationDashboard.tsx:95-100 | AES rates most secure and most quantum-resistant, XOR fastest, and every score is at most 100; the fourth row is named as the file spells it, with U+00C3 U+00A8 in place of "è" |
| KeyGeneration.RunAtMaximal | src/utils/keyGeneration.ts:133 | the run at i consists of copies of s[i] and cannot be extended |
| KeyGeneration.RepeatMatchesCountsRuns | src/utils/keyGeneration.ts:133-136 | `/(.)\1{2,}/g` matches once per maximal run of three or more equal units |
| KeyGeneration.DetectPatterns | src/utils/keyGeneration.ts:129-158 | the loops add up `Penalty(key)` |
| KeyGeneration.PenaltyParts | src/utils/keyGeneration.ts:129-158 | 3 per maximal run, 2 per ascending triple, and 5 per common pattern contained, whatever the number of its occurrences |
| KeyGeneration.PenaltyOfAbc | src/utils/keyGeneration.ts:139-155 | "abc" scores 7 |
| KeyGeneration.PenaltyOfRun | src/utils/keyGeneration.ts:133-136 | "aaaaaa" scores 3, however long the run |
| KeyGeneration.PenaltyOfRepeatedCommon | src/utils/keyGeneration.ts:150-155 | "qweqwe" scores 5 |
| KeyGeneration.PenaltyOfDescending | src/utils/keyGeneration.ts:139-147 | descending "cba" scores 0 |
| KeyGeneration.AnalyzeKeyStrengthBounds | src/utils/keyGeneration.ts:36-64 | each of the four parts lies in [0, 25], so the score lies in [0, 100] |
| KeyGeneration.AnalyzeKeyStrengthPenalty | src/utils/keyGeneration.ts:59-61 | a larger penalty never raises the score |
| KeyGeneration.AnalyzeEmptyKey | src/utils/keyGeneration.ts:36-64 | the empty key scores only its 25 pattern points |
| KeyGeneration.BytesToHexDigits | src/utils/keyGeneration.ts:109-111 | two lower-case digits per byte, high nibble first |
| KeyGeneration.BytesToHexRoundTrip | src/utils/keyGeneration.ts:109-111 | the cipher panel's hex decoder reads the hex back as the bytes |
| KeyGeneration.BytesToHexLower | src/utils/keyGeneration.ts:32 | every unit is a lower-case hex digit, so `toLowerCase` changes nothing |
| KeyGeneration.SimulateNeuralLayer | src/utils/keyGeneration.ts:93-107 | the loop fills a fresh 32-byte array with the neuron outputs `Layer(input)` |
| KeyGeneration.GenerateNeuralKey | src/utils/keyGeneration.ts:17-33 | three layers over the seed, then the hex cut to 2 · length, give `NeuralKey` |
| KeyGeneration.NeuralKeyShape | src/utils/keyGeneration.ts:17-33 | the key has min(2 · length, 64) units and is a prefix of the hex of the third layer |
| KeyGeneration.ApplyLatticeTransform | src/utils/keyGeneration.ts:78-91 | the fresh array holds row i's value for the first `size` indices and 0 after |
| KeyGeneration.GenerateQuantumSafeKey | src/utils/keyGeneration.ts:4-14 | the transform of the random bytes, cut to `length` and rendered as hex, gives `QuantumSafeKey` |
| KeyGeneration.QuantumSafeKeyShape | src/utils/keyGeneration.ts:4-14 | the key has 2 · length units, and every byte from index min(⌈entropy/8⌉, 2 · length) on renders as "00" |
| KeyGeneration.LatticeRowsCount | src/utils/keyGeneration.ts:69 | row i exists exactly when 8 · i < size |
| KeyGeneratorPanel.GenerateLocalKey | src/components/KeyGeneratorPanel.tsx:56-65 | a negative length throws the RangeError of `new Uint8Array`; any other length, NaN reading as 0, gives `CharsetKey` of the charset and the random bytes |
| KeyGeneratorPanel.LocalKeyShape | src/components/KeyGeneratorPanel.tsx:56-65 | the key has `length` characters; character i is the charset's character at byte i modulo its size; without symbols it has none |
| KeyGeneratorPanel.RemoteStrength | src/components/KeyGeneratorPanel.tsx:36 | an absent or zero strength reads as 85, any other is kept |
| KeyGeneratorPanel.GenerateKeyOutcome | src/components/KeyGeneratorPanel.tsx:25-65 | a server key is shown as given, with a non-zero strength; without one, a negative length fails (the "Failed to generate key" path), and any other length gives a local key of that many characters with a strength in [0, 100] that is 0 only for an empty key; an emptied (NaN) field gives the empty key with strength 0 |
| KeyGeneratorPanel.MissingStrengthDisplay | src/components/KeyGeneratorPanel.tsx:36-45 | an answer without a strength shows 85, "Very Strong", in green |
| KeyGenerator.NewKeyShape | src/components/KeyGenerator.tsx:30-68 | a negative length fails (the RangeError of `new Uint8Array`) for every type but the neural one; otherwise quantum keys have 2 · length digits, neural keys min(2 · length, 64), any other type `length` charset characters, NaN and negative lengths counting as 0 |
| KeyGenerator.GenerateKeyDispatch | src/components/KeyGenerator.tsx:25-57 | the key fails exactly as `NewKey` does (the caught RangeError); an emptied (NaN) field never fails; a length counting as 0 gives the empty key, which scores 25; the strength is `analyzeKeyStrength` of the key, in [0, 100] |
| KeyGenerator.StrengthBadgeOf | src/components/KeyGenerator.tsx:179 | success from 90, default from 70, warning from 50, destructive below |
| KeyGenerator.BadgeMatchesLabel | src/components/KeyGenerator.tsx:179-181 | the badge follows the label: success with "Quantum-Resistant", default with "Very Strong", warning with "Strong", destructive below |
| Backend.XorText | backend/main.py:100-105 | the loop's result is `XorWithKey(text, key)` |
| Backend.XorWithKeyOutcome | backend/main.py:100-105 | the loop succeeds exactly for an empty text, or for a non-empty key whose XORs are all code points; character i is then the XOR at i |
| Backend.XorOfLatin1 | backend/main.py:101-104 | with text and key below 256, only an empty key with a non-empty text fails |
| Backend.XorWithKeyTwice | backend/main.py:100-105 | XOR with the same repeating key twice gives the text back |
| Backend.EncryptText | backend/main.py:97-117 | the XOR loop and the hex rendering give `EncryptResponse` |
| Backend.HexOfLatin1 | backend/main.py:108 | byte values render as two lower-case digits each, high nibble first |
| Backend.AlgorithmIgnored | backend/main.py:96-141 | the result never depends on the algorithm, which is only echoed back |
| Backend.HexPairs | backend/main.py:123 | slices of two, the last of one for an odd length |
| Backend.HexPairsShape | backend/main.py:123 | the slices cover the text in order, and all have two characters except the last of an odd length |
| Backend.HexPairsLength | backend/main.py:123 | one slice per two characters, rounding up |
| Backend.HexPairAt | backend/main.py:123 | the i-th slice starts at 2 · i |
| Backend.Strip | backend/main.py:124 | the text `int` reads is no longer than its argument, and neither of its ends is white space |
| Backend.StripSlice | backend/main.py:124 | the text `int` reads is a slice of its argument with only white space before and after it |
| Backend.DecodedOutcome | backend/main.py:124 | decoding fails exactly when some pair does not decode, and otherwise yields one code point per pair |
| Backend.DecryptText | backend/main.py:120-141 | the parsed pairs, then the XOR loop, give `DecryptResponse` |
| Backend.DecodeHexOfLatin1 | backend/main.py:108-124 | the hex of byte values decodes back to the values |
| Backend.RoundTrip | backend/main.py:97-141 | for byte-valued texts and keys, encryption fails only for a non-empty text under an empty key, yields two digits per character, and decryption gives the text back |
| Backend.EmptyKeyAndText | backend/main.py:101-103 | an empty text encrypts and decrypts to "" under any key, and a non-empty one fails under the empty key |
| Backend.OddLengthDecrypt | backend/main.py:123-124 | an odd length is not rejected: "616" reads as 0x61 and 0x6 |
| Backend.PairValueExamples | backend/main.py:124 | `int` skips white space and accepts a sign: " a" is 10, "-1" is -1; "zz" is no number, and neither is U+001C followed by "1" |
| Backend.BadPairsDecrypt | backend/main.py:124-141 | a negative pair fails `chr`; a pair of non-digits, or U+001C before a digit, fails `int` |
| Backend.WideEncrypt | backend/main.py:108 | U+0100 under the key U+0001 encrypts to "101", three hex digits |
| Backend.WideDecrypt | backend/main.py:123-132 | "101" under the key U+0001 decrypts to U+0011 U+0000, so the round trip breaks beyond byte values |
| Backend.GenerateKeyFacts | backend/main.py:72-93 | the key has max(0, length) characters, character i the charset's character at pick i; the strength is at most 100, below 100 exactly when 2 · length (+20 with symbols) is, and the key type is echoed |
| Backend.KeyScore | backend/main.py:165 | 2 · the key length for a present, non-empty key, uncapped, and 0 otherwise |
| Backend.AnalyzeText | backend/main.py:145-196 | the counting loop and the loop over the counts give `Analyze(request)` |
| Backend.AnalyzeOutcome | backend/main.py:145-196 | the handler fails exactly for a non-empty text; an empty text gets entropy 0, the uncapped key score, the score of "rc4" (60) for a missing algorithm, and always the low-entropy warning |
| Backend.AlgorithmScoreFacts | backend/main.py:166-167 | the table is case-sensitive: "aes" and "chacha20" score 85 and 90, "AES" the default 50 |
| Backend.AnalyzeIntendedFacts | backend/main.py:145-196 | the intended handler answers every request, agrees with the handler as written wherever that one answers, sends `round(entropy, 2)` at the top level and the entropy itself in `strength`, warns exactly for key strength below 50 and unrounded entropy below 3, and keeps the overall score at most 100 |
| Backend.PyRound2 | backend/main.py:189 | `round(x, 2)` is within 0.005 of x and a whole number of hundredths |
| Backend.PyRound2Examples | backend/main.py:189 | 1/3 and 2/3 give 0.33 and 0.67, and ties go to the even digit: 0.125 gives 0.12 and 0.135 gives 0.14 |
| Backend.RoundedEntropyStillLow | backend/main.py:182-189 | an entropy of 2.999 is sent as 3.0 and still reported as low |

## Left out

- The user interface: rendering, animation, charts, toasts, clipboard access, progress bars and the 500/800 ms delays.
- HTTP: the `apiClient` calls and the FastAPI routing and CORS set-up. A server answer is an input, and an API failure is the absent input.
- `/health` and its timestamp: there is no clock in the model.
- Randomness is an input: `crypto.getRandomValues`, `secrets.choice`, and `Math.random` in `generateLatticeMatrix`. The lattice matrix is a function giving each row's transformed byte, which is a parameter.
- Backend.PyRound2: rounds the exact real entropy. Python rounds the binary double, so a value stored just below a tie, such as 2.675, gives 2.67 where the model gives 2.68.
- KeyGeneratorPanel.GenerateKeyOutcome: the server's answer to a negative or NaN length is the `api` parameter. The model does not derive it: `max(0, length)` picks give an empty key for a negative length, and NaN reaches the server as JSON `null`.
- Floating-point arithmetic is not computed: `Math.log2`, `Math.sin`, `Math.exp`, `Math.sqrt`, and the entropies and deviations built on them. These values are parameters, and sums over them use exact reals.
- `calculateRandomnessScore`, `calculateCorrelation`, `calculateUniformity`, `calculateSerialCorrelation` and `analyzeFrequencyDistribution` in `aiAnalysis.ts` are floating-point statistics. `analyzeText` is represented by the estimates record that `AIAnalyzer_new.tsx` receives. Only the repeating patterns are computed.
- `TextDecoder.decode` is a parameter of `ChaCha20.ChaCha20Cipher.Process`. Its replacement of malformed UTF-8 by U+FFFD is not modelled, so ChaCha20's round trip is proved on bytes (`ChaCha20.ProcessBytesTwice`), not on strings.
- ChaCha20.BlockBytes: reads each word least significant byte first. This assumes a little-endian platform for `new Uint8Array(block.buffer)`.
- CipherAlgorithms.Rc4KeyModelled: RC4 keys whose CryptoJS words include a negative word are excluded by precondition. JavaScript's `%` keeps the sign of a negative operand, so such a word drives `j` negative and the table read goes out of range. Every key whose UTF-8 bytes at positions 0, 4, 8, … are below 0x80 is covered, ASCII keys included.
- Backend.PairValue: Python's `int` also accepts non-ASCII decimal digits and underscores between digits. The model reads ASCII hex digits only. No two-character pair can hold an underscore between two digits.
- `int` skips ASCII tab, line feed, vertical tab, form feed, carriage return and space at both ends of its argument, and the non-ASCII characters CPython turns into a space first. `Backend.PySpace` lists them. The ASCII separators U+001C to U+001F are not skipped, although `str.isspace` accepts them.
- `src/types/cipher.ts` is not part of this model; its records are the datatypes each module declares.
- Pydantic validation of request fields is not modelled; requests are well-typed records.
- AiAnalysis.AlgorithmStrength: the lookup table is a JavaScript object literal, so a lower-cased name "constructor" or "__proto__" reads an inherited `Object.prototype` member and yields a function or an object instead of 50. The model gives 50 for those two names. The cipher select offers only rc4 and chacha20 (src/components/CipherEngine_temp.tsx:119-127).
- AiAnalysis.QuantumResistance: for the same two lower-cased names, "constructor" and "__proto__", the source yields the inherited member instead of 15; the model gives 15.
- AiAnalysis.LookupFacts: its default clauses hold in the source only for names that do not lower-case to "constructor" or "__proto__".
- ComponentHelpers.ExactAlgorithmStrength: the lookup does not lower-case the name, so every inherited `Object.prototype` member name yields a function or an object instead of 50: constructor, __proto__, toString, toLocaleString, valueOf, hasOwnProperty, isPrototypeOf, propertyIsEnumerable, __defineGetter__, __defineSetter__, __lookupGetter__ and __lookupSetter__. The model gives 50 for them.
- AiAnalysis.KeyStrength: the entropy bonus takes the key's entropy as a parameter. The lower bound for a non-empty key is stated only for a non-negative entropy.

## Findings

| source | as written | input that shows it | evidently intended | confidence | as-written member | corrected member |
|---|---|---|---|---|---|---|
| backend/main.py:162 | `probability.bit_length()` is called on a float, which has no such method, so the handler raises for every non-empty text and answers 500 | `{"text": "a"}` | the Shannon entropy, `-p · log2(p)` summed over the characters | high (not executed) | Backend.AnalyzeOutcome | Backend.AnalyzeIntendedFacts |
| src/components/AIAnalyzer_new.tsx:65 | the `SecurityStrength` record is passed as `score` to `generateRecommendations`; `record < 30` and `record < 60` compare NaN and are always false, so the score recommendations never appear | any analysed state, e.g. key "k", algorithm "rc4" | the overall score `securityScore.overall` is compared | high (not executed) | AiAnalyzerNew.AsCalledRecommendations | AiAnalyzerNew.IntendedRecommendations |
