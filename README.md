# jfi text-analysis pipeline, modelled in Dafny

This project models the analysis core of the java-file-indexer (package
`com.jfi.core.analysis`): the pipeline that turns raw document or query text
into position- and offset-tagged tokens for an inverted index.

- **Token** (`token.dfy`, module `Tokens`): the immutable record
  `Token(term, start, end, position)` with its invariant-checking constructor,
  `length()`, `withTerm` and `shift`. Offsets are 32-bit Java `int`s; `shift`
  uses Java's wrapping `int` addition and then the constructor's checks.
- **CharFilter** (`charfilter.dfy`, `charfilter_scan.dfy`, `textops.dfy`): a
  reference implementation of `apply(text, options)` under the eight policies,
  the `Result(text, changed)` record, `Options`, `Options.standard()` and the
  mutable `Options.Builder`. Text is a Java `String`: a sequence of UTF-16
  code units of length at most `Integer.MAX_VALUE`, with `Option.None` for
  `null`. Each stage is a recursive function that specifies it, and a
  single-pass method with a loop (`CharFilterScan`) is proved to compute it.
- **Tokenizer** (`tokenizer.dfy`, `tokenizer_examples.dfy`): a reference
  implementation of `tokenize(text, options)`. It decodes surrogate pairs,
  attaches combining marks to the preceding base, extends runs across
  connectors, and filters runs by class and by length. It also covers
  `Options`, `standard()` and `Options.Builder`. The specification function
  `Scan` is matched by the scanning method `Tokenize`.
- **Analyzer** (`analyzer.dfy`): `analyze(text)` as a left fold of the
  filter stages followed by the tokenizer stage. `Pipeline`, `FilterStage` and
  `TokenStage` are immutable values. `Pipeline.Builder` is a class whose
  methods update a sequence field and an optional tokenizer field. Filters
  and tokenizers are interfaces in the source; here they are function values,
  and each stage contract is a predicate on such a value.
- `utf16.dfy` holds the shared vocabulary: code units, surrogates, code
  points, 32-bit integers, and the `Unicode` value that carries the
  character data the model does not include.

Choices where the source leaves the behaviour open:

- Newlines: LF, CR, NEL (U+0085), LINE SEPARATOR and PARAGRAPH SEPARATOR.
  `PRESERVE` turns CRLF and lone CR into LF and keeps the other variants.
  `NORMALIZE_TO_LF` turns every variant into LF (a CRLF pair into one LF).
  `REMOVE` deletes every variant.
- Collapsible (non-newline) whitespace: TAB, VT, FF and SPACE.
- Unicode spaces converted to ASCII: U+00A0, U+1680, U+2000–U+200A, U+202F,
  U+205F and U+3000.
- Joiners: U+200C and U+200D. Elongation characters: U+0640 (tatweel) and
  U+07FA.
- Digit mapping covers these scripts: Arabic-Indic (U+0660–0669), Extended
  Arabic-Indic (U+06F0–06F9), Devanagari (U+0966–096F), Bengali
  (U+09E6–09EF), Thai (U+0E50–0E59) and Fullwidth (U+FF10–FF19).
- Stage order inside `apply`: newline handling, Unicode-space conversion,
  normalisation form, marks, joiners, elongation, the normalisation form
  once more, digits, and collapsing last. The source fixes three orderings
  (CharFilter.java:83-87): newline handling before collapsing, space
  conversion before collapsing, and the form before the character-class
  policies. This order keeps all three.
- The form is applied again after the deleting stages because deleting a
  unit can bring a base next to a combining mark it composes with. Under
  the standard options `"e\u0640\u0301"` loses its tatweel, and NFC then
  composes `"e\u0301"` into `"é"` (`CharFilter.RecomposeExample`). With a
  single NFC before the deletions, the first `apply` would return
  `"e\u0301"` and a second `apply` would change it to `"é"`, so `apply`
  would not be idempotent (`CharFilter.SingleFormIsNotStable`).
- Collapsing comes after the stages that delete units. If it ran earlier,
  `"a ـ b"` would collapse and then lose its tatweel, leaving two
  adjacent spaces, and a second `apply` would change the text again
  (`CharFilter.CollapseBeforeStripIsNotStable`).
- `STRIP_NONSPACING` reads the text by code points, as `codePointAt` does.
  A surrogate pair whose code point is a non-spacing mark (U+1D167, say) is
  removed whole; an unpaired surrogate stands for itself.
- Tokenizer connectors: a hyphen (U+002D, U+2010, U+2011) under
  `keepHyphens`, the ASCII apostrophe under `keepApostrophes`, and U+200C or
  U+200D under `treatJoinerAsInnerWord`. A connector joins a run only when
  the next code point is a letter or a digit. A run starts at a letter or a
  digit. Its class is alpha, numeric or mixed according to which of the two
  it contains. Positions are 0, 1, 2, … per emitted token; dropped runs
  reserve no position.

## Model

| member | source | states |
|---|---|---|
| Tokens.Make | jfi-core/src/main/java/com/jfi/core/analysis/Token.java:14-31 | a token is built iff the term is non-null and non-empty, 0 ≤ start < end and position ≥ 0; a null term is NullPointerException, every other violation IllegalArgumentException; the built token carries exactly the given fields |
| Tokens.Length | jfi-core/src/main/java/com/jfi/core/analysis/Token.java:33-38 | for a valid token the length is at least 1 and start + length == end |
| Tokens.WithTerm | jfi-core/src/main/java/com/jfi/core/analysis/Token.java:40-50 | succeeds iff the new term is non-null and non-empty (NullPointerException / IllegalArgumentException otherwise); the result has the new term and the same start, end and position |
| Tokens.Shift | jfi-core/src/main/java/com/jfi/core/analysis/Token.java:52-62 | fails (IllegalArgumentException) exactly when the shifted span leaves [0, Integer.MAX_VALUE], i.e. start + delta < 0 or the end overflows; otherwise both offsets move by delta and term, position and length are unchanged |
| Tokens.ShiftRoundTrip | jfi-core/src/main/java/com/jfi/core/analysis/Token.java:52-58 | shifting by delta and then by -delta gives back the original token |
| CharFilter.Normalize | jfi-core/src/main/java/com/jfi/core/analysis/CharFilter.java:83-87 | the stage chain in the order above; it has no contract of its own, and ApplyGuarantees and Idempotent state what it promises |
| CharFilter.Apply | jfi-core/src/main/java/com/jfi/core/analysis/CharFilter.java:36-55 | null text gives Result(null, false); otherwise the text is present and `changed` is true iff the output differs from the input |
| CharFilter.ApplyNullAndEmpty | jfi-core/src/main/java/com/jfi/core/analysis/CharFilter.java:39-47 | apply(null) == Result(null, false) and apply("") == Result("", false) for every options value |
| CharFilter.ApplyGuarantees | jfi-core/src/main/java/com/jfi/core/analysis/CharFilter.java:193-270 | given the normaliser laws (`FormLaws`), the output holds no newline variant the newline policy bans, no Unicode space after conversion, no non-spacing mark code point (supplementary ones included) under STRIP_NONSPACING when the input is well-formed UTF-16, no removed joiner, no stripped elongation character and no mapped script digit; its whitespace is collapsed under COLLAPSE_SEQUENCES, and it is in the chosen normalisation form |
| CharFilter.Idempotent | jfi-core/src/main/java/com/jfi/core/analysis/CharFilter.java:20-21 | apply(apply(x).text) == Result(apply(x).text, false) for every policy combination and every form that obeys the normaliser laws; under STRIP_NONSPACING for well-formed UTF-16 input |
| CharFilter.IdempotentWithoutForm | jfi-core/src/main/java/com/jfi/core/analysis/CharFilter.java:20-21 | with normalisation form NONE, apply(apply(x).text) == Result(apply(x).text, false) with nothing assumed of the character data beyond ASCII (well-formed UTF-16 input under STRIP_NONSPACING) |
| CharFilter.NormalIsFixed | jfi-core/src/main/java/com/jfi/core/analysis/CharFilter.java:20-21 | a text that already meets every output promise of the options and is in the chosen normal form is a fixed point of the filter |
| CharFilter.IdentityLaws | jfi-core/src/main/java/com/jfi/core/analysis/CharFilter.java:223-230 | normalisation form NONE obeys every normaliser law the guarantees rely on |
| CharFilter.RecomposeExample | jfi-core/src/main/java/com/jfi/core/analysis/CharFilter.java:223-230 | under the standard options "e\u0640\u0301" becomes "é" (changed), and "é" is then left alone (unchanged), given the NFC facts for those three strings |
| CharFilter.SingleFormIsNotStable | jfi-core/src/main/java/com/jfi/core/analysis/CharFilter.java:20-21 | with NFC applied only before the deleting stages, "e\u0640\u0301" would become "e\u0301" and a second pass would turn that into "é", so that order could not be idempotent |
| CharFilter.Newlines | jfi-core/src/main/java/com/jfi/core/analysis/CharFilter.java:193-201 | the newline stage; its contract says only that it never lengthens the text, and the lemmas below state what it does |
| CharFilter.NewlinesLeaveNoBanned | jfi-core/src/main/java/com/jfi/core/analysis/CharFilter.java:193-201 | after newline handling no CR remains under PRESERVE, no newline other than LF under NORMALIZE_TO_LF, and no newline at all under REMOVE |
| CharFilter.NewlinesKeepOthers | jfi-core/src/main/java/com/jfi/core/analysis/CharFilter.java:193-201 | newline handling changes nothing but newlines: PRESERVE keeps every unit other than CR/LF in order, NORMALIZE_TO_LF every non-newline unit in order, REMOVE is exactly deletion of the newlines |
| CharFilter.NewlinesFixpoint | jfi-core/src/main/java/com/jfi/core/analysis/CharFilter.java:193-201 | a text without the banned newline variants is left unchanged by newline handling |
| CharFilter.NewlinesSplit | jfi-core/src/main/java/com/jfi/core/analysis/CharFilter.java:193-201 | newline handling works piece by piece: on a + b it is the handling of a followed by that of b, whenever the cut does not separate a CR from a following LF |
| CharFilter.CrLfBecomesOneLf | jfi-core/src/main/java/com/jfi/core/analysis/CharFilter.java:193-201 | a CRLF pair, and a CR not followed by LF, each become a single LF under PRESERVE and NORMALIZE_TO_LF and disappear under REMOVE, the text around them handled independently |
| CharFilter.ConvertSpacesLeavesNone | jfi-core/src/main/java/com/jfi/core/analysis/CharFilter.java:212-220 | after conversion no Unicode space separator remains |
| CharFilter.ConvertSpacesFixpoint | jfi-core/src/main/java/com/jfi/core/analysis/CharFilter.java:212-220 | conversion leaves a text without Unicode spaces unchanged |
| CharFilter.Collapse | jfi-core/src/main/java/com/jfi/core/analysis/CharFilter.java:203-210 | the collapse stage; its contract says it never lengthens the text, and CollapseShape, CollapseKeepsContent and CollapseFixpoint state what it does |
| CharFilter.CollapseShape | jfi-core/src/main/java/com/jfi/core/analysis/CharFilter.java:203-210 | collapsing yields text in which every inline whitespace unit is an ASCII space and no two are adjacent, writes no unit other than SPACE, and keeps whether the text starts with whitespace |
| CharFilter.CollapseKeepsContent | jfi-core/src/main/java/com/jfi/core/analysis/CharFilter.java:203-210 | collapsing keeps every non-whitespace unit (newlines included), in order |
| CharFilter.CollapseFixpoint | jfi-core/src/main/java/com/jfi/core/analysis/CharFilter.java:203-210 | an already collapsed text is unchanged by collapsing (NONE never changes runs) |
| CharFilter.MapDigit | jfi-core/src/main/java/com/jfi/core/analysis/CharFilter.java:262-270 | a supported script digit becomes the ASCII digit of the same value; every other unit is unchanged |
| CharFilter.MapDigitsLeavesNone | jfi-core/src/main/java/com/jfi/core/analysis/CharFilter.java:262-270 | after MAP_TO_ASCII no supported script digit remains, and every unit was either in the input or is an ASCII digit |
| CharFilter.MapDigitsFixpoint | jfi-core/src/main/java/com/jfi/core/analysis/CharFilter.java:262-270 | digit mapping leaves a text without script digits unchanged |
| TextOps.Delete | jfi-core/src/main/java/com/jfi/core/analysis/CharFilter.java:241-260 | removing joiners or stripping elongation leaves none of that class, keeps the other units as a subsequence in their order, and shortens the text by exactly the number removed |
| CharFilter.StripMarksLeavesNone | jfi-core/src/main/java/com/jfi/core/analysis/CharFilter.java:232-239 | stripping non-spacing marks from well-formed UTF-16 leaves no code point that is a mark and keeps the text well-formed |
| CharFilter.StripMarksFixpoint | jfi-core/src/main/java/com/jfi/core/analysis/CharFilter.java:232-239 | stripping marks from a text without marks changes nothing |
| CharFilter.StripMarksSubsequence | jfi-core/src/main/java/com/jfi/core/analysis/CharFilter.java:232-239 | stripping marks only deletes: the result is a subsequence of the input |
| CharFilter.StripFusesUnpairedSurrogates | jfi-core/src/main/java/com/jfi/core/analysis/CharFilter.java:232-239 | on ill-formed UTF-16, stripping the mark from "\uD834\u0301\uDD67" leaves the pair for U+1D167, itself a mark, so stripping is complete only on well-formed text |
| CharFilter.DeleteKeeps | jfi-core/src/main/java/com/jfi/core/analysis/CharFilter.java:241-260 | removing joiners or elongation characters keeps well-formed UTF-16 well-formed and a text free of marks free of them |
| CharFilter.CollapseKeeps | jfi-core/src/main/java/com/jfi/core/analysis/CharFilter.java:203-210 | collapsing keeps well-formed UTF-16 well-formed and a text free of marks free of them |
| CharFilter.NewlinesKeepPaired | jfi-core/src/main/java/com/jfi/core/analysis/CharFilter.java:193-201 | newline handling keeps well-formed UTF-16 well-formed |
| TextOps.DeleteFixpoint | jfi-core/src/main/java/com/jfi/core/analysis/CharFilter.java:241-260 | deleting a class the text is free of changes nothing |
| TextOps.DeleteAppend | jfi-core/src/main/java/com/jfi/core/analysis/CharFilter.java:241-260 | deletion acts unit by unit: it distributes over concatenation |
| CharFilter.StandardPrecedenceExample | jfi-core/src/main/java/com/jfi/core/analysis/CharFilter.java:83-87 | with the standard options, "foo\t  bar\n  baz" becomes "foo bar\n baz" and `changed` is true |
| CharFilter.CollapseStandardExample | jfi-core/src/main/java/com/jfi/core/analysis/package-info.java:77-80 | collapsing "foo\t  bar\n  baz" keeps the newline and turns each whitespace run into one space |
| CharFilter.CollapseAppend | jfi-core/src/main/java/com/jfi/core/analysis/CharFilter.java:203-210 | collapsing works piecewise across a cut that follows a non-whitespace unit |
| CharFilter.CollapseRun | jfi-core/src/main/java/com/jfi/core/analysis/CharFilter.java:203-210 | a run of inline whitespace, followed by a non-whitespace unit or by the end of the text, collapses to a single SPACE |
| CharFilter.CollapseBeforeStripIsNotStable | jfi-core/src/main/java/com/jfi/core/analysis/CharFilter.java:20-21 | collapsing before stripping elongation would turn "a ـ b" into "a  b", which is not collapsed, so that order could not be idempotent |
| CharFilter.Finish | jfi-core/src/main/java/com/jfi/core/analysis/CharFilter.java:175-181 | building succeeds iff every policy field is non-null (NullPointerException otherwise), and the Options hold exactly the fields |
| CharFilter.FinishDraftOf | jfi-core/src/main/java/com/jfi/core/analysis/CharFilter.java:98-107 | building from the fields of an Options value gives that value back |
| CharFilter.Builder.constructor | jfi-core/src/main/java/com/jfi/core/analysis/CharFilter.java:156-164 | the builder's field defaults are exactly the values of `Options.standard()` |
| CharFilter.Builder.SetNewlinePolicy | jfi-core/src/main/java/com/jfi/core/analysis/CharFilter.java:166 | sets the newline policy and no other field |
| CharFilter.Builder.SetCollapsePolicy | jfi-core/src/main/java/com/jfi/core/analysis/CharFilter.java:167 | sets the collapse policy and no other field |
| CharFilter.Builder.SetSpaceNormalization | jfi-core/src/main/java/com/jfi/core/analysis/CharFilter.java:168 | sets the space normalisation and no other field |
| CharFilter.Builder.SetUnicodeNormalization | jfi-core/src/main/java/com/jfi/core/analysis/CharFilter.java:169 | sets the normalisation form and no other field |
| CharFilter.Builder.SetCombiningMarkPolicy | jfi-core/src/main/java/com/jfi/core/analysis/CharFilter.java:170 | sets the combining-mark policy and no other field |
| CharFilter.Builder.SetJoinerHandling | jfi-core/src/main/java/com/jfi/core/analysis/CharFilter.java:171 | sets the joiner handling and no other field |
| CharFilter.Builder.SetElongationHandling | jfi-core/src/main/java/com/jfi/core/analysis/CharFilter.java:172 | sets the elongation handling and no other field |
| CharFilter.Builder.SetDigitNormalization | jfi-core/src/main/java/com/jfi/core/analysis/CharFilter.java:173 | sets the digit normalisation and no other field |
| CharFilter.Builder.Build | jfi-core/src/main/java/com/jfi/core/analysis/CharFilter.java:175-181 | returns an Options value holding the current fields, or NullPointerException iff one of them is null |
| CharFilter.BuildStandard | jfi-core/src/main/java/com/jfi/core/analysis/CharFilter.java:114-139 | `standard()` built through the builder is PRESERVE, COLLAPSE_SEQUENCES, CONVERT_UNICODE_SPACES_TO_ASCII, NFC, PRESERVE, PRESERVE_AS_INNER_WORD, STRIP, PRESERVE |
| CharFilter.BuildRejectsNull | jfi-core/src/main/java/com/jfi/core/analysis/CharFilter.java:175-181 | a builder with a field set to null throws NullPointerException on build |
| CharFilter.Builder.BuildAsWritten | jfi-core/src/main/java/com/jfi/core/analysis/CharFilter.java:181 | as written: the Options constructor (lines 98-107) copies the current fields, null or not |
| CharFilter.AsWrittenBuildAcceptsNull | jfi-core/src/main/java/com/jfi/core/analysis/CharFilter.java:181 | the unchecked build of a builder whose digit policy was set to null returns options holding that null, which are not complete |
| CharFilterScan.ScanNewlines | jfi-core/src/main/java/com/jfi/core/analysis/CharFilter.java:193-201 | the one-pass newline loop computes exactly the newline stage |
| CharFilterScan.ScanMap | jfi-core/src/main/java/com/jfi/core/analysis/CharFilter.java:212-220 | the one-for-one rewriting loop (space conversion, digit mapping) keeps the length and rewrites each unit on its own |
| CharFilterScan.ScanDelete | jfi-core/src/main/java/com/jfi/core/analysis/CharFilter.java:241-260 | the deleting loop (joiners, elongation) computes exactly the deletion |
| CharFilterScan.ScanStripMarks | jfi-core/src/main/java/com/jfi/core/analysis/CharFilter.java:232-239 | the loop over code points, copying each one or two units unless it is a non-spacing mark, computes exactly the mark stripping |
| CharFilterScan.ScanCollapse | jfi-core/src/main/java/com/jfi/core/analysis/CharFilter.java:203-210 | the collapsing loop computes exactly the collapse stage |
| CharFilterScan.ApplyScan | jfi-core/src/main/java/com/jfi/core/analysis/CharFilter.java:36-55 | the chain of loops returns exactly `apply(text, options)`, null and the `changed` flag included |
| Utf16.CodePointAt | jfi-core/src/main/java/com/jfi/core/analysis/Tokenizer.java:17-18 | a high/low surrogate pair decodes to one supplementary code point (≥ U+10000); any other unit stands for itself |
| Utf16.StepKeepsBoundary | jfi-core/src/main/java/com/jfi/core/analysis/Tokenizer.java:17-18 | stepping over one code point from an offset outside a surrogate pair lands on such an offset again |
| Tokenizer.Standard | jfi-core/src/main/java/com/jfi/core/analysis/Tokenizer.java:109-134 | the standard options satisfy 1 ≤ minTokenLength ≤ maxTokenLength |
| Tokenizer.Check | jfi-core/src/main/java/com/jfi/core/analysis/Tokenizer.java:167-174 | validation passes iff 1 ≤ minTokenLength ≤ maxTokenLength, returning the options unchanged; IllegalArgumentException otherwise |
| Tokenizer.Builder.constructor | jfi-core/src/main/java/com/jfi/core/analysis/Tokenizer.java:148-156 | the builder's field defaults are exactly the values of `Options.standard()` |
| Tokenizer.Builder.SetKeepApostrophes | jfi-core/src/main/java/com/jfi/core/analysis/Tokenizer.java:158 | sets keepApostrophes and no other field |
| Tokenizer.Builder.SetKeepHyphens | jfi-core/src/main/java/com/jfi/core/analysis/Tokenizer.java:159 | sets keepHyphens and no other field |
| Tokenizer.Builder.SetTreatJoinerAsInnerWord | jfi-core/src/main/java/com/jfi/core/analysis/Tokenizer.java:160 | sets treatJoinerAsInnerWord and no other field |
| Tokenizer.Builder.SetEmitNumeric | jfi-core/src/main/java/com/jfi/core/analysis/Tokenizer.java:161 | sets emitNumeric and no other field |
| Tokenizer.Builder.SetEmitAlpha | jfi-core/src/main/java/com/jfi/core/analysis/Tokenizer.java:162 | sets emitAlpha and no other field |
| Tokenizer.Builder.SetEmitAlphaNumeric | jfi-core/src/main/java/com/jfi/core/analysis/Tokenizer.java:163 | sets emitAlphaNumeric and no other field |
| Tokenizer.Builder.SetMinTokenLength | jfi-core/src/main/java/com/jfi/core/analysis/Tokenizer.java:164 | sets minTokenLength and no other field |
| Tokenizer.Builder.SetMaxTokenLength | jfi-core/src/main/java/com/jfi/core/analysis/Tokenizer.java:165 | sets maxTokenLength and no other field |
| Tokenizer.Builder.Build | jfi-core/src/main/java/com/jfi/core/analysis/Tokenizer.java:167-174 | as documented: the current fields as valid Options iff 1 ≤ minTokenLength ≤ maxTokenLength, IllegalArgumentException otherwise |
| Tokenizer.Builder.BuildAsWritten | jfi-core/src/main/java/com/jfi/core/analysis/Tokenizer.java:174 | as written: the current fields, with no validation |
| Tokenizer.StandardOptions | jfi-core/src/main/java/com/jfi/core/analysis/Tokenizer.java:123-134 | `standard()` built through the builder has every flag true, minTokenLength 1 and maxTokenLength Integer.MAX_VALUE, and is valid |
| Tokenizer.AsWrittenBuildAcceptsZeroMinimum | jfi-core/src/main/java/com/jfi/core/analysis/Tokenizer.java:174 | the unvalidated build returns options with minTokenLength 0, which are invalid |
| Tokenizer.BuildRejectsZeroMinimum | jfi-core/src/main/java/com/jfi/core/analysis/Tokenizer.java:167-174 | the documented build rejects minTokenLength 0 with IllegalArgumentException |
| Tokenizer.RunEnd | jfi-core/src/main/java/com/jfi/core/analysis/Tokenizer.java:68-81 | a run ends on an offset outside any surrogate pair, at a code point that can neither continue the run nor be a joining connector or a combining mark |
| Tokenizer.RunFlags | jfi-core/src/main/java/com/jfi/core/analysis/Tokenizer.java:77-78 | the run's alpha and numeric flags record exactly whether a letter or a digit occurs in the run |
| Tokenizer.RunClass | jfi-core/src/main/java/com/jfi/core/analysis/Tokenizer.java:77-78 | the class the scan computes for a run is the class of the token's own term |
| Tokenizer.ScanOkFrom | jfi-core/src/main/java/com/jfi/core/analysis/Tokenizer.java:26-42 | from every offset outside a surrogate pair, the scan emits only tokens that meet the contract, numbered consecutively, in input order without overlap |
| Tokenizer.ScanFacts | jfi-core/src/main/java/com/jfi/core/analysis/Tokenizer.java:26-42 | every token from a scan that starts at i meets the contract and starts at or after i; the tokens are numbered consecutively and ordered |
| Tokenizer.TokensMeetContract | jfi-core/src/main/java/com/jfi/core/analysis/Tokenizer.java:26-42 | null gives no tokens. Every token is valid: non-empty, 0 ≤ start < end ≤ the text length, and term == text[start..end]. Neither offset falls inside a surrogate pair or before a combining mark, and each token starts at a letter or digit. Class and length are selected by the options. Positions are 0, 1, 2, …, so non-decreasing, and the tokens come in input order |
| Tokenizer.TokensNeedConsistentBounds | jfi-core/src/main/java/com/jfi/core/analysis/Tokenizer.java:79-80 | options with maxTokenLength < minTokenLength yield no tokens at all |
| Tokenizer.TokensOfNullAndEmpty | jfi-core/src/main/java/com/jfi/core/analysis/Tokenizer.java:29-33 | null and empty text give an empty list |
| Tokenizer.Scan | jfi-core/src/main/java/com/jfi/core/analysis/Tokenizer.java:26-42 | the reference scan; it has no contract of its own, and ScanFacts and CompleteFrom state what it guarantees |
| Tokenizer.TokensOf | jfi-core/src/main/java/com/jfi/core/analysis/Tokenizer.java:26-42 | `tokenize` as a function; TokensMeetContract and TokensAreSelectedRuns state what it promises |
| Tokenizer.Reach | jfi-core/src/main/java/com/jfi/core/analysis/Tokenizer.java:68-81 | the run continuing from an offset ends on an offset outside any surrogate pair, at a code point that cannot continue it |
| Tokenizer.RunEndIgnoresFlags | jfi-core/src/main/java/com/jfi/core/analysis/Tokenizer.java:77-78 | where a run ends does not depend on the classes seen before it |
| Tokenizer.ReachInside | jfi-core/src/main/java/com/jfi/core/analysis/Tokenizer.java:17-18 | continuing a run from any code point inside it reaches the same end, so a run is never cut short |
| Tokenizer.RunAtStart | jfi-core/src/main/java/com/jfi/core/analysis/Tokenizer.java:77-80 | the run the scan finds at a letter or digit is the maximal run there, and it is emitted iff its term has an enabled class and a length within the bounds |
| Tokenizer.CompleteFrom | jfi-core/src/main/java/com/jfi/core/analysis/Tokenizer.java:68-81 | from an offset no earlier run reaches past, every token is a whole maximal run, and every maximal run whose term the options select becomes a token |
| Tokenizer.TokensAreSelectedRuns | jfi-core/src/main/java/com/jfi/core/analysis/Tokenizer.java:68-81 | each token starts where no earlier run reaches and ends where its run ends; each maximal run whose class flag is on and whose length is within the bounds is a token |
| Tokenizer.FindRunStart | jfi-core/src/main/java/com/jfi/core/analysis/Tokenizer.java:68-81 | every letter or digit lies inside the maximal run of some run start |
| Tokenizer.TokensCoverWords | jfi-core/src/main/java/com/jfi/core/analysis/Tokenizer.java:77-80 | when every class is emitted at every length (as with `standard()`), every letter and digit of the text lies inside a token |
| Tokenizer.ScanRun | jfi-core/src/main/java/com/jfi/core/analysis/Tokenizer.java:68-81 | the run-extending loop finds exactly the run end and class of the specification |
| Tokenizer.ScanStep | jfi-core/src/main/java/com/jfi/core/analysis/Tokenizer.java:26-42 | one step of the scan advances past the current code point or run and emits the token the specification emits there, if any |
| Tokenizer.Tokenize | jfi-core/src/main/java/com/jfi/core/analysis/Tokenizer.java:26-42 | the scanning loop, tracking run start, run class and next position, returns exactly the specified token list |
| TokenizerExamples.MarkAndSurrogateExample | jfi-core/src/main/java/com/jfi/core/analysis/package-info.java:82-85 | with alpha-only emission, "á 🚀" yields exactly one token, "á" at [0, 2), position 0; the rocket's surrogate pair is not split |
| TokenizerExamples.HyphensKeptExample | jfi-core/src/main/java/com/jfi/core/analysis/package-info.java:66-73 | with keepHyphens, "state-of-the-art" yields the single token [0, 16), which satisfies substring equality |
| TokenizerExamples.HyphensBreakExample | jfi-core/src/main/java/com/jfi/core/analysis/package-info.java:74-75 | without keepHyphens, "state-of-the-art" yields the tokens "state", "of", "the" and "art" at [0, 5), [6, 8), [9, 12) and [13, 16), numbered 0–3, each term the substring at its offsets |
| TokenizerExamples.DocumentedSpanOverruns | jfi-core/src/main/java/com/jfi/core/analysis/package-info.java:69-72 | the documented span end = 17 exceeds the 16-unit text, so that token cannot satisfy substring equality |
| Analyzer.Normalized | jfi-core/src/main/java/com/jfi/core/analysis/Analyzer.java:20-22 | the fold of the filter stages in list order; NormalizedSnoc and NormalizedAppend state its laws |
| Analyzer.Analysis | jfi-core/src/main/java/com/jfi/core/analysis/Analyzer.java:29-46 | `analyze(text)` as a function; AnalysisNullAndEmpty and AnalysisOffsets state what it promises |
| Analyzer.Analyze | jfi-core/src/main/java/com/jfi/core/analysis/Analyzer.java:29-46 | the loop over the filter stages, followed by the tokenizer, returns exactly the fold of the stages and the tokenizer applied to its result |
| Analyzer.NormalizedSnoc | jfi-core/src/main/java/com/jfi/core/analysis/Analyzer.java:85-90 | a stage added at the end of the list receives the text the earlier stages produced |
| Analyzer.NormalizedAppend | jfi-core/src/main/java/com/jfi/core/analysis/Analyzer.java:20-22 | running two stage lists one after the other is running their concatenation: stages apply in list order |
| Analyzer.NormalizedNullAndEmpty | jfi-core/src/main/java/com/jfi/core/analysis/Analyzer.java:33-41 | filter stages that keep the CharFilter null/empty policy keep null null and "" empty through the whole list |
| Analyzer.AnalysisNullAndEmpty | jfi-core/src/main/java/com/jfi/core/analysis/Analyzer.java:33-41 | given the stage contracts, analyze(null) == Result(null, []) and analyze("") == Result("", []) |
| Analyzer.AnalysisOffsets | jfi-core/src/main/java/com/jfi/core/analysis/Analyzer.java:18-24 | given the tokenizer contract, every token indexes the normalized text with normalizedText[start..end] == term, and positions never decrease |
| Analyzer.ReferenceFilterHonoursContract | jfi-core/src/main/java/com/jfi/core/analysis/CharFilter.java:39-47 | the modelled CharFilter keeps the null/empty policy the analyzer relies on |
| Analyzer.ReferenceTokenizerHonoursContract | jfi-core/src/main/java/com/jfi/core/analysis/Tokenizer.java:26-42 | the modelled Tokenizer keeps the null/empty policy, substring equality and non-decreasing positions the analyzer relies on |
| Analyzer.RepeatedStageIsRedundant | jfi-core/src/main/java/com/jfi/core/analysis/CharFilter.java:20-21 | listing the same modelled filter stage twice gives the same normalized text as listing it once, for a form that obeys the normaliser laws (well-formed input under STRIP_NONSPACING) |
| Analyzer.Builder.constructor | jfi-core/src/main/java/com/jfi/core/analysis/Analyzer.java:120-122 | a new builder has no filter stages and no tokenizer stage |
| Analyzer.Builder.AddCharFilter | jfi-core/src/main/java/com/jfi/core/analysis/Analyzer.java:124-134 | a null filter or options is NullPointerException and leaves the list as it was; otherwise the stage is appended at the end; the tokenizer stage is untouched |
| Analyzer.Builder.SetTokenizer | jfi-core/src/main/java/com/jfi/core/analysis/Analyzer.java:136-146 | a null tokenizer or options is NullPointerException; otherwise the tokenizer stage is set (replacing any earlier one); the filter list is untouched |
| Analyzer.Builder.Build | jfi-core/src/main/java/com/jfi/core/analysis/Analyzer.java:148-156 | fails with IllegalStateException iff no tokenizer stage is set; otherwise the pipeline holds the current filter list and tokenizer stage |
| Analyzer.BuildThenAdd | jfi-core/src/main/java/com/jfi/core/analysis/Analyzer.java:96-99 | a pipeline built before a further addCharFilter keeps the list it was built with, while the builder's list grows |

## Left out

- The `Reader` overloads of `apply`, `tokenize` and `analyze` (CharFilter.java:72-74, Tokenizer.java:60-62, Analyzer.java:59-61): they are I/O with `IOException` and would only drain the stream and delegate to the string method.
- NFC and NFKC normalisation and the Unicode category tables (letters, Nd digits, Mn marks) are Unicode data outside the model. They are the fields of a `Unicode` value passed as a parameter. `WellFormed` states the only facts used: the normalisers leave ASCII alone, and ASCII letters and digits are classified as such.
- CharFilter.Idempotent: proved for forms that obey `NormaliserLaws`. These laws say that normalising twice is normalising once, and that no newline or Unicode space is created. Digit mapping and collapsing must keep normalised text normalised. Renormalising what remains of normalised text after deletions must create no joiner, elongation character or mark. Well-formed UTF-16 must stay well-formed. They are properties of Unicode NFC and NFKC, but they cannot be shown without the Unicode tables. `IdentityLaws` shows form NONE obeys them, so `IdempotentWithoutForm` needs no assumption.
- CharFilter.ApplyGuarantees: under STRIP_NONSPACING, "no mark remains" and idempotence are promised only for well-formed UTF-16 input. Stripping a mark that sits between an unpaired high surrogate and an unpaired low one fuses the two into one code point, and that code point can itself be a mark (`CharFilter.StripFusesUnpairedSurrogates`).
- Digit mapping covers only the six scripts listed above; other Nd blocks are left unchanged.
- Thread safety, statelessness and determinism are claims about concurrency and hidden state. Dafny functions are deterministic by construction, so these are not stated separately.
- `NullPointerException` for a null `Options` argument to `apply` or `tokenize` is not modelled: Dafny values cannot be null. The builders' null checks are modelled, through `Option` parameters and fields.
- The `FilterStage` and `TokenStage` record constructors have empty bodies in the source. Their null checks are modelled where the stages are created, in `Pipeline.Builder`.
- The `Analyzer` interface's `pipeline()` accessor is not a separate member: an analyzer is modelled as its `Pipeline` value, and `Analysis(p, ·)` is its `analyze`.
- Positions are proved consecutive from zero, which is stronger than the non-decreasing the source requires. Dropped runs reserve no position, so the model does not exercise the gaps the source permits.
- The Token constructor's body holds only a TODO comment (Token.java:29-31), and `length`, `withTerm` and `shift` throw `UnsupportedOperationException("TODO")` (Token.java:37, 49, 61). The model implements the contracts their documentation states.

## Findings

| source | as written | input that shows it | evidently intended | confidence | as-written member | corrected member |
|---|---|---|---|---|---|---|
| jfi-core/src/main/java/com/jfi/core/analysis/Tokenizer.java:174 | `build()` copies the fields into `Options` without any check | `Options.builder().minTokenLength(0).build()` returns options with minimum length 0 | IllegalArgumentException when minTokenLength < 1 or maxTokenLength < minTokenLength, as its doc comment (lines 167-173) says | high (not executed) | Tokenizer.AsWrittenBuildAcceptsZeroMinimum | Tokenizer.BuildRejectsZeroMinimum |
| jfi-core/src/main/java/com/jfi/core/analysis/CharFilter.java:181 | `build()` passes the builder to the `Options` constructor, which copies every field without a null check (lines 98-107) | `Options.builder().digitNormalization(null).build()` returns options with a null digit policy | NullPointerException when any option is null, as its doc comment (line 179) says | high (not executed) | CharFilter.AsWrittenBuildAcceptsNull | CharFilter.BuildRejectsNull |
| jfi-core/src/main/java/com/jfi/core/analysis/package-info.java:71 | the example token for "state-of-the-art" has `start = 0, end = 17` | the 16-unit text "state-of-the-art": `substring(0, 17)` is out of range, so the example's own assert cannot hold | `end = 16`, the span [0, 16) | high (not executed) | TokenizerExamples.DocumentedSpanOverruns | TokenizerExamples.HyphensKeptExample |
