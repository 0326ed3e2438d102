/** The tokenizer: a scan over the code points of the normalised text that
    groups letters, digits, attached combining marks and intra-word
    connectors into runs and emits the runs its options select as tokens. */
module Tokenizer {
  import opened Wrappers
  import opened Utf16
  import opened Tokens

  // ---------------------------------------------------------------------
  // Options

  /** `Tokenizer.Options`. */
  datatype Options = Options(
    keepApostrophes: bool,
    keepHyphens: bool,
    treatJoinerAsInnerWord: bool,
    emitNumeric: bool,
    emitAlpha: bool,
    emitAlphaNumeric: bool,
    minTokenLength: Int32,
    maxTokenLength: Int32)

  /** The documented invariant of a built Options value. */
  predicate ValidOptions(o: Options) {
    1 <= o.minTokenLength <= o.maxTokenLength
  }

  /** `Options.standard()`. */
  function Standard(): (o: Options)
    ensures ValidOptions(o)
  {
    Options(true, true, true, true, true, true, 1, INT_MAX)
  }

  /** The validation `build()` documents: IllegalArgumentException when the
      minimum is below one or the maximum below the minimum. */
  function Check(o: Options): (r: Result<Options>)
    ensures r.Success? <==> ValidOptions(o)
    ensures r.Success? ==> r.value == o
    ensures r.Failure? ==> r.error == IllegalArgumentException
  {
    if o.minTokenLength < 1 || o.maxTokenLength < o.minTokenLength then
      Failure(IllegalArgumentException)
    else
      Success(o)
  }

  /** The mutable `Options.Builder`; its fields start at the standard values. */
  class Builder {
    var keepApostrophes: bool
    var keepHyphens: bool
    var treatJoinerAsInnerWord: bool
    var emitNumeric: bool
    var emitAlpha: bool
    var emitAlphaNumeric: bool
    var minTokenLength: Int32
    var maxTokenLength: Int32

    /** The Options the fields currently describe. */
    function Snapshot(): Options
      reads this
    {
      Options(keepApostrophes, keepHyphens, treatJoinerAsInnerWord, emitNumeric,
              emitAlpha, emitAlphaNumeric, minTokenLength, maxTokenLength)
    }

    /** The field defaults are exactly `Options.standard()`. */
    constructor ()
      ensures Snapshot() == Standard()
    {
      keepApostrophes, keepHyphens, treatJoinerAsInnerWord := true, true, true;
      emitNumeric, emitAlpha, emitAlphaNumeric := true, true, true;
      minTokenLength, maxTokenLength := 1, INT_MAX;
    }

    method SetKeepApostrophes(v: bool)
      modifies this
      ensures Snapshot() == old(Snapshot()).(keepApostrophes := v)
    {
      keepApostrophes := v;
    }

    method SetKeepHyphens(v: bool)
      modifies this
      ensures Snapshot() == old(Snapshot()).(keepHyphens := v)
    {
      keepHyphens := v;
    }

    method SetTreatJoinerAsInnerWord(v: bool)
      modifies this
      ensures Snapshot() == old(Snapshot()).(treatJoinerAsInnerWord := v)
    {
      treatJoinerAsInnerWord := v;
    }

    method SetEmitNumeric(v: bool)
      modifies this
      ensures Snapshot() == old(Snapshot()).(emitNumeric := v)
    {
      emitNumeric := v;
    }

    method SetEmitAlpha(v: bool)
      modifies this
      ensures Snapshot() == old(Snapshot()).(emitAlpha := v)
    {
      emitAlpha := v;
    }

    method SetEmitAlphaNumeric(v: bool)
      modifies this
      ensures Snapshot() == old(Snapshot()).(emitAlphaNumeric := v)
    {
      emitAlphaNumeric := v;
    }

    method SetMinTokenLength(v: Int32)
      modifies this
      ensures Snapshot() == old(Snapshot()).(minTokenLength := v)
    {
      minTokenLength := v;
    }

    method SetMaxTokenLength(v: Int32)
      modifies this
      ensures Snapshot() == old(Snapshot()).(maxTokenLength := v)
    {
      maxTokenLength := v;
    }

    /** `build()` as documented: the Options the fields describe, or
        IllegalArgumentException when the length bounds are invalid. */
    method Build() returns (r: Result<Options>)
      ensures r.Success? <==> 1 <= minTokenLength <= maxTokenLength
      ensures r.Success? ==> r.value == Snapshot() && ValidOptions(r.value)
      ensures r.Failure? ==> r.error == IllegalArgumentException
    {
      r := Check(Snapshot());
    }

    /** `build()` as written: it copies the fields and checks nothing. */
    method BuildAsWritten() returns (r: Options)
      ensures r == Snapshot()
    {
      r := Options(keepApostrophes, keepHyphens, treatJoinerAsInnerWord, emitNumeric,
                   emitAlpha, emitAlphaNumeric, minTokenLength, maxTokenLength);
    }
  }

  /** `Options.standard()`: a fresh builder with every field set explicitly. */
  method StandardOptions() returns (r: Options)
    ensures r == Standard() && ValidOptions(r)
    ensures r.keepApostrophes && r.keepHyphens && r.treatJoinerAsInnerWord
    ensures r.emitNumeric && r.emitAlpha && r.emitAlphaNumeric
    ensures r.minTokenLength == 1 && r.maxTokenLength == INT_MAX
  {
    var b := new Builder();
    b.SetKeepApostrophes(true);
    b.SetKeepHyphens(true);
    b.SetTreatJoinerAsInnerWord(true);
    b.SetEmitNumeric(true);
    b.SetEmitAlpha(true);
    b.SetEmitAlphaNumeric(true);
    b.SetMinTokenLength(1);
    b.SetMaxTokenLength(INT_MAX);
    var built := b.Build();
    r := built.value;
  }

  /** The unchecked `build()` lets a minimum length of zero through, which
      its documentation says must be rejected. */
  method AsWrittenBuildAcceptsZeroMinimum() returns (r: Options)
    ensures r.minTokenLength == 0 && !ValidOptions(r)
    ensures r == Standard().(minTokenLength := 0)
  {
    var b := new Builder();
    b.SetMinTokenLength(0);
    r := b.BuildAsWritten();
  }

  /** The validating `build()` rejects the same builder state. */
  method BuildRejectsZeroMinimum() returns (r: Result<Options>)
    ensures r == Failure(IllegalArgumentException)
  {
    var b := new Builder();
    b.SetMinTokenLength(0);
    r := b.Build();
  }

  // ---------------------------------------------------------------------
  // Classification of code points

  const HYPHEN_MINUS: int := 0x2D
  const APOSTROPHE: int := 0x27
  const ZWNJ: int := 0x200C
  const ZWJ: int := 0x200D

  /** The hyphens: HYPHEN-MINUS, HYPHEN and NON-BREAKING HYPHEN. */
  predicate IsHyphen(cp: int) { cp == HYPHEN_MINUS || cp == 0x2010 || cp == 0x2011 }

  /** A code point the options make an intra-word connector. */
  predicate IsConnector(o: Options, cp: int) {
    || (o.keepHyphens && IsHyphen(cp))
    || (o.keepApostrophes && cp == APOSTROPHE)
    || (o.treatJoinerAsInnerWord && (cp == ZWNJ || cp == ZWJ))
  }

  datatype Kind = Letter | Digit | Mark | Connector | Other

  /** The class of the code point starting at index i. */
  function KindAt(u: Unicode, o: Options, s: seq<CodeUnit>, i: nat): Kind
    requires i < |s|
  {
    var cp := CodePointAt(s, i);
    if u.isLetter(cp) then Letter
    else if u.isDigit(cp) then Digit
    else if u.isMark(cp) then Mark
    else if IsConnector(o, cp) then Connector
    else Other
  }

  /** A code point that can start a run. */
  predicate IsWord(k: Kind) { k == Letter || k == Digit }

  /** An intra-word connector at j that is directly followed by a letter or
      a digit. */
  predicate Joins(u: Unicode, o: Options, s: seq<CodeUnit>, j: nat) {
    && j < |s|
    && KindAt(u, o, s, j) == Connector
    && j + Width(s, j) < |s|
    && IsWord(KindAt(u, o, s, j + Width(s, j)))
  }

  /** The code point at j continues a run: a letter, a digit, a combining mark
      (attached to what precedes it) or a connector that joins. */
  predicate Extends(u: Unicode, o: Options, s: seq<CodeUnit>, j: nat) {
    j < |s| && (IsWord(KindAt(u, o, s, j)) || KindAt(u, o, s, j) == Mark || Joins(u, o, s, j))
  }

  // ---------------------------------------------------------------------
  // The reference scan

  /** Where a run ends and whether it holds a letter and a digit. */
  datatype Run = Run(end: nat, hasLetter: bool, hasDigit: bool)

  /** The maximal run continuing from boundary j, given what it held so far. */
  function RunEnd(u: Unicode, o: Options, s: seq<CodeUnit>, j: nat, hasLetter: bool, hasDigit: bool): (r: Run)
    requires Boundary(s, j)
    ensures j <= r.end <= |s|
    ensures Boundary(s, r.end)
    ensures !Extends(u, o, s, r.end)
    decreases |s| - j
  {
    if !Extends(u, o, s, j) then Run(j, hasLetter, hasDigit)
    else
      var k := KindAt(u, o, s, j);
      StepKeepsBoundary(s, j);
      RunEnd(u, o, s, j + Width(s, j), hasLetter || k == Letter, hasDigit || k == Digit)
  }

  /** The emission rule: the run's class is enabled and its length in code
      units lies within the bounds. */
  predicate Emits(o: Options, hasLetter: bool, hasDigit: bool, len: int) {
    && ((hasLetter && !hasDigit && o.emitAlpha)
        || (hasDigit && !hasLetter && o.emitNumeric)
        || (hasLetter && hasDigit && o.emitAlphaNumeric))
    && o.minTokenLength <= len <= o.maxTokenLength
  }

  /** The tokens of s from boundary i on, numbered from pos. */
  function Scan(u: Unicode, o: Options, s: Text, i: nat, pos: nat): seq<Token>
    requires Boundary(s, i) && pos <= i
    decreases |s| - i
  {
    if i == |s| then []
    else
      var k := KindAt(u, o, s, i);
      StepKeepsBoundary(s, i);
      if IsWord(k) then
        var run := RunEnd(u, o, s, i + Width(s, i), k == Letter, k == Digit);
        if Emits(o, run.hasLetter, run.hasDigit, run.end - i) then
          [Token(s[i..run.end], i, run.end, pos)] + Scan(u, o, s, run.end, pos + 1)
        else
          Scan(u, o, s, run.end, pos)
      else
        Scan(u, o, s, i + Width(s, i), pos)
  }

  /** `tokenize(text, options)` as a function: null gives no tokens. */
  function TokensOf(u: Unicode, text: Option<Text>, o: Options): seq<Token> {
    match text
    case None => []
    case Some(s) => Scan(u, o, s, 0, 0)
  }

  /** One step of Scan at a run start whose run is emitted. */
  lemma ScanEmits(u: Unicode, o: Options, s: Text, i: nat, pos: nat)
    requires Boundary(s, i) && pos <= i && i < |s| && IsWord(KindAt(u, o, s, i))
    requires var k := KindAt(u, o, s, i);
             var run := RunEnd(u, o, s, i + Width(s, i), k == Letter, k == Digit);
             Emits(o, run.hasLetter, run.hasDigit, run.end - i)
    ensures var k := KindAt(u, o, s, i);
            var run := RunEnd(u, o, s, i + Width(s, i), k == Letter, k == Digit);
            Scan(u, o, s, i, pos) == [Token(s[i..run.end], i, run.end, pos)] + Scan(u, o, s, run.end, pos + 1)
  {
  }

  /** One step of Scan at a run start whose run is dropped. */
  lemma ScanDrops(u: Unicode, o: Options, s: Text, i: nat, pos: nat)
    requires Boundary(s, i) && pos <= i && i < |s| && IsWord(KindAt(u, o, s, i))
    requires var k := KindAt(u, o, s, i);
             var run := RunEnd(u, o, s, i + Width(s, i), k == Letter, k == Digit);
             !Emits(o, run.hasLetter, run.hasDigit, run.end - i)
    ensures var k := KindAt(u, o, s, i);
            var run := RunEnd(u, o, s, i + Width(s, i), k == Letter, k == Digit);
            Scan(u, o, s, i, pos) == Scan(u, o, s, run.end, pos)
  {
  }

  /** One step of Scan over a code point that does not start a run. */
  lemma ScanSkips(u: Unicode, o: Options, s: Text, i: nat, pos: nat)
    requires Boundary(s, i) && pos <= i && i < |s| && !IsWord(KindAt(u, o, s, i))
    ensures Boundary(s, i + Width(s, i))
    ensures Scan(u, o, s, i, pos) == Scan(u, o, s, i + Width(s, i), pos)
  {
  }

  // ---------------------------------------------------------------------
  // What the scan guarantees

  /** Some code point starting in [j, e), stepping by code points, is of kind k. */
  predicate HasKind(u: Unicode, o: Options, s: seq<CodeUnit>, j: nat, e: nat, k: Kind)
    decreases e - j
  {
    if j >= e || j >= |s| then false
    else KindAt(u, o, s, j) == k || HasKind(u, o, s, j + Width(s, j), e, k)
  }

  /** The class of a term, read off the term alone, is one its options emit,
      and its length is within the bounds. */
  predicate Selected(u: Unicode, o: Options, term: seq<CodeUnit>) {
    Emits(o, HasKind(u, o, term, 0, |term|, Letter), HasKind(u, o, term, 0, |term|, Digit), |term|)
  }

  /** Everything the contract promises of one token of s: it is a valid token
      whose term is the substring at its offsets; neither offset splits a
      surrogate pair; it starts at a letter or digit and stops where the run
      cannot continue, so a combining mark is never cut from its base; and
      its class and length are selected by the options. */
  predicate Emitted(u: Unicode, o: Options, s: seq<CodeUnit>, t: Token) {
    && Tokens.Valid(t) && Spans(s, t)
    && Boundary(s, t.start) && Boundary(s, t.end)
    && IsWord(KindAt(u, o, s, t.start))
    && !Extends(u, o, s, t.end)
    && Selected(u, o, t.term)
  }

  /** The flags of a run record exactly which kinds occur in it. */
  lemma {:induction false} RunFlags(u: Unicode, o: Options, s: seq<CodeUnit>, j: nat, hasLetter: bool, hasDigit: bool)
    requires Boundary(s, j)
    ensures var r := RunEnd(u, o, s, j, hasLetter, hasDigit);
            && r.hasLetter == (hasLetter || HasKind(u, o, s, j, r.end, Letter))
            && r.hasDigit == (hasDigit || HasKind(u, o, s, j, r.end, Digit))
    decreases |s| - j
  {
    if Extends(u, o, s, j) {
      var k := KindAt(u, o, s, j);
      StepKeepsBoundary(s, j);
      RunFlags(u, o, s, j + Width(s, j), hasLetter || k == Letter, hasDigit || k == Digit);
    }
  }

  /** Classifying inside a substring that ends on a boundary agrees with
      classifying in the whole text. */
  lemma {:induction false} HasKindInSlice(u: Unicode, o: Options, s: seq<CodeUnit>, i: nat, j: nat, e: nat, k: Kind)
    requires i <= j <= e && Boundary(s, e)
    ensures HasKind(u, o, s[i..e], j - i, e - i, k) == HasKind(u, o, s, j, e, k)
    decreases e - j
  {
    if j < e {
      KindAtInSlice(u, o, s, i, j, e);
      HasKindInSlice(u, o, s, i, j + Width(s, j), e, k);
    }
  }

  /** A code point starting inside a substring that ends on a boundary has
      the same width and class there as in the whole text. */
  lemma KindAtInSlice(u: Unicode, o: Options, s: seq<CodeUnit>, i: nat, j: nat, e: nat)
    requires i <= j < e && Boundary(s, e)
    ensures Width(s[i..e], j - i) == Width(s, j)
    ensures KindAt(u, o, s[i..e], j - i) == KindAt(u, o, s, j)
  {
    var sub := s[i..e];
    assert PairAt(sub, j - i) == PairAt(s, j);
    assert CodePointAt(sub, j - i) == CodePointAt(s, j);
  }

  /** The run found at a run start gives the class of its substring. */
  lemma RunClass(u: Unicode, o: Options, s: seq<CodeUnit>, i: nat)
    requires Boundary(s, i) && i < |s| && IsWord(KindAt(u, o, s, i))
    ensures var k := KindAt(u, o, s, i);
            var run := RunEnd(u, o, s, i + Width(s, i), k == Letter, k == Digit);
            && i < run.end
            && run.hasLetter == HasKind(u, o, s[i..run.end], 0, run.end - i, Letter)
            && run.hasDigit == HasKind(u, o, s[i..run.end], 0, run.end - i, Digit)
  {
    var k := KindAt(u, o, s, i);
    StepKeepsBoundary(s, i);
    var run := RunEnd(u, o, s, i + Width(s, i), k == Letter, k == Digit);
    RunFlags(u, o, s, i + Width(s, i), k == Letter, k == Digit);
    HasKindInSlice(u, o, s, i, i, run.end, Letter);
    HasKindInSlice(u, o, s, i, i, run.end, Digit);
  }

  /** Every token of r meets the contract for s. */
  predicate AllEmitted(u: Unicode, o: Options, s: seq<CodeUnit>, r: seq<Token>) {
    forall n :: 0 <= n < |r| ==> Emitted(u, o, s, r[n])
  }

  /** The positions of r are pos, pos + 1, pos + 2, ... */
  predicate Numbered(r: seq<Token>, pos: int) {
    forall n :: 0 <= n < |r| ==> r[n].position == pos + n
  }

  /** Each token of r ends before the next one starts. */
  predicate InOrder(r: seq<Token>) {
    forall n :: 0 <= n < |r| - 1 ==> r[n].end < r[n + 1].start
  }

  /** Every token of r starts at or after i. */
  predicate StartFrom(r: seq<Token>, i: int) {
    forall n :: 0 <= n < |r| ==> i <= r[n].start
  }

  /** The token of an emitted run meets the contract. */
  lemma RunToken(u: Unicode, o: Options, s: Text, i: nat, pos: nat)
    requires Boundary(s, i) && pos <= i && i < |s| && IsWord(KindAt(u, o, s, i))
    requires var k := KindAt(u, o, s, i);
             var run := RunEnd(u, o, s, i + Width(s, i), k == Letter, k == Digit);
             Emits(o, run.hasLetter, run.hasDigit, run.end - i)
    ensures var k := KindAt(u, o, s, i);
            var run := RunEnd(u, o, s, i + Width(s, i), k == Letter, k == Digit);
            && Emitted(u, o, s, Token(s[i..run.end], i, run.end, pos))
            && (run.end < |s| ==> !IsWord(KindAt(u, o, s, run.end)))
  {
    RunClass(u, o, s, i);
  }

  /** Prepending a token that meets the contract and ends before the rest
      starts keeps the scan's guarantees. */
  lemma ConsFacts(u: Unicode, o: Options, s: seq<CodeUnit>, t: Token, rest: seq<Token>)
    requires Emitted(u, o, s, t) && AllEmitted(u, o, s, rest)
    requires Numbered(rest, t.position + 1) && InOrder(rest) && StartFrom(rest, t.end + 1)
    ensures AllEmitted(u, o, s, [t] + rest)
    ensures Numbered([t] + rest, t.position)
    ensures InOrder([t] + rest)
    ensures StartFrom([t] + rest, t.start)
  {
    ConsEmitted(u, o, s, t, rest);
    ConsOrder(t, rest);
  }

  lemma ConsEmitted(u: Unicode, o: Options, s: seq<CodeUnit>, t: Token, rest: seq<Token>)
    requires Emitted(u, o, s, t) && AllEmitted(u, o, s, rest)
    ensures AllEmitted(u, o, s, [t] + rest)
  {
    var r := [t] + rest;
    forall n | 0 <= n < |r|
      ensures Emitted(u, o, s, r[n])
    {
      if n > 0 {
        assert r[n] == rest[n - 1];
      }
    }
  }

  lemma ConsOrder(t: Token, rest: seq<Token>)
    requires Tokens.Valid(t)
    requires Numbered(rest, t.position + 1) && InOrder(rest) && StartFrom(rest, t.end + 1)
    ensures Numbered([t] + rest, t.position)
    ensures InOrder([t] + rest)
    ensures StartFrom([t] + rest, t.start)
  {
    var r := [t] + rest;
    forall n | 0 <= n < |r|
      ensures r[n] == if n == 0 then t else rest[n - 1]
    {
    }
  }

  /** The scan's guarantees from boundary i: every token meets the contract
      and starts at or after i; the tokens are numbered from pos without gaps
      and come in order without overlapping; when the code point at i cannot
      start a run, every token starts after i. */
  predicate ScanOk(u: Unicode, o: Options, s: Text, i: nat, pos: nat)
    requires Boundary(s, i) && pos <= i
  {
    var r := Scan(u, o, s, i, pos);
    && AllEmitted(u, o, s, r) && Numbered(r, pos) && InOrder(r) && StartFrom(r, i)
    && (i < |s| && !IsWord(KindAt(u, o, s, i)) ==> StartFrom(r, i + 1))
  }

  /** The inductive step at a run that is emitted. */
  lemma EmittedRunOk(u: Unicode, o: Options, s: Text, i: nat, pos: nat)
    requires Boundary(s, i) && pos <= i && i < |s| && IsWord(KindAt(u, o, s, i))
    requires var k := KindAt(u, o, s, i);
             var run := RunEnd(u, o, s, i + Width(s, i), k == Letter, k == Digit);
             Emits(o, run.hasLetter, run.hasDigit, run.end - i) && ScanOk(u, o, s, run.end, pos + 1)
    ensures ScanOk(u, o, s, i, pos)
  {
    var k := KindAt(u, o, s, i);
    var run := RunEnd(u, o, s, i + Width(s, i), k == Letter, k == Digit);
    var t := Token(s[i..run.end], i, run.end, pos);
    var rest := Scan(u, o, s, run.end, pos + 1);
    RunToken(u, o, s, i, pos);
    assert StartFrom(rest, run.end + 1) by {
      if run.end == |s| {
        assert rest == [];
      }
    }
    ConsFacts(u, o, s, t, rest);
    ScanEmits(u, o, s, i, pos);
  }

  /** The inductive step at a run that is dropped. */
  lemma DroppedRunOk(u: Unicode, o: Options, s: Text, i: nat, pos: nat)
    requires Boundary(s, i) && pos <= i && i < |s| && IsWord(KindAt(u, o, s, i))
    requires var k := KindAt(u, o, s, i);
             var run := RunEnd(u, o, s, i + Width(s, i), k == Letter, k == Digit);
             !Emits(o, run.hasLetter, run.hasDigit, run.end - i) && ScanOk(u, o, s, run.end, pos)
    ensures ScanOk(u, o, s, i, pos)
  {
    ScanDrops(u, o, s, i, pos);
  }

  /** The inductive step over a code point that does not start a run. */
  lemma SkippedOk(u: Unicode, o: Options, s: Text, i: nat, pos: nat)
    requires Boundary(s, i) && pos <= i && i < |s| && !IsWord(KindAt(u, o, s, i))
    requires Boundary(s, i + Width(s, i)) && ScanOk(u, o, s, i + Width(s, i), pos)
    ensures ScanOk(u, o, s, i, pos)
  {
    ScanSkips(u, o, s, i, pos);
  }

  /** Where the scan resumes after the code point at boundary i, and the
      position it resumes with. */
  function Resume(u: Unicode, o: Options, s: Text, i: nat, pos: nat): (r: (nat, nat))
    requires Boundary(s, i) && pos <= i < |s|
    ensures i < r.0 <= |s| && Boundary(s, r.0) && pos <= r.1 <= r.0
  {
    var k := KindAt(u, o, s, i);
    StepKeepsBoundary(s, i);
    if IsWord(k) then
      var run := RunEnd(u, o, s, i + Width(s, i), k == Letter, k == Digit);
      if Emits(o, run.hasLetter, run.hasDigit, run.end - i) then (run.end, pos + 1) else (run.end, pos)
    else
      (i + Width(s, i), pos)
  }

  /** One step of the induction: ScanOk where the scan resumes gives ScanOk
      at i. */
  lemma StepOk(u: Unicode, o: Options, s: Text, i: nat, pos: nat)
    requires Boundary(s, i) && pos <= i < |s|
    requires ScanOk(u, o, s, Resume(u, o, s, i, pos).0, Resume(u, o, s, i, pos).1)
    ensures ScanOk(u, o, s, i, pos)
  {
    var k := KindAt(u, o, s, i);
    StepKeepsBoundary(s, i);
    if IsWord(k) {
      var run := RunEnd(u, o, s, i + Width(s, i), k == Letter, k == Digit);
      if Emits(o, run.hasLetter, run.hasDigit, run.end - i) {
        EmittedRunOk(u, o, s, i, pos);
      } else {
        DroppedRunOk(u, o, s, i, pos);
      }
    } else {
      SkippedOk(u, o, s, i, pos);
    }
  }

  /** ScanOk holds from every boundary, by induction on the rest of the text. */
  lemma {:induction false} ScanOkFrom(u: Unicode, o: Options, s: Text, i: nat, pos: nat)
    requires Boundary(s, i) && pos <= i
    ensures ScanOk(u, o, s, i, pos)
    decreases |s| - i
  {
    if i < |s| {
      var next := Resume(u, o, s, i, pos);
      ScanOkFrom(u, o, s, next.0, next.1);
      StepOk(u, o, s, i, pos);
    } else {
      assert Scan(u, o, s, i, pos) == [];
    }
  }

  /** What the scan from boundary i guarantees, spelled out. */
  lemma ScanFacts(u: Unicode, o: Options, s: Text, i: nat, pos: nat)
    requires Boundary(s, i) && pos <= i
    ensures AllEmitted(u, o, s, Scan(u, o, s, i, pos))
    ensures Numbered(Scan(u, o, s, i, pos), pos)
    ensures InOrder(Scan(u, o, s, i, pos))
    ensures StartFrom(Scan(u, o, s, i, pos), i)
  {
    ScanOkFrom(u, o, s, i, pos);
  }

  /** Properties 1–6 of `tokenize`: every token is valid, indexes the text
      with substring equality, does not split a surrogate pair or a base from
      its marks, has an emitted class and a length within the bounds;
      positions are 0, 1, 2, ... and tokens come in input order without
      overlapping. */
  lemma TokensMeetContract(u: Unicode, text: Option<Text>, o: Options)
    ensures text.None? ==> TokensOf(u, text, o) == []
    ensures text.Some? ==> AllEmitted(u, o, text.value, TokensOf(u, text, o))
    ensures Numbered(TokensOf(u, text, o), 0)
    ensures InOrder(TokensOf(u, text, o))
  {
    if text.Some? {
      ScanFacts(u, o, text.value, 0, 0);
    }
  }

  /** A token is only emitted under bounds some length satisfies, so crossed
      bounds (which only the unchecked build can produce) give no tokens. */
  lemma TokensNeedConsistentBounds(u: Unicode, text: Option<Text>, o: Options)
    ensures TokensOf(u, text, o) != [] ==> o.minTokenLength <= o.maxTokenLength
  {
    TokensMeetContract(u, text, o);
    var r := TokensOf(u, text, o);
    if |r| > 0 {
      assert Emitted(u, o, text.value, r[0]);
    }
  }

  /** The null/empty policy. */
  lemma TokensOfNullAndEmpty(u: Unicode, o: Options)
    ensures TokensOf(u, None, o) == []
    ensures TokensOf(u, Some([]), o) == []
  {
  }

  // ---------------------------------------------------------------------
  // Maximal runs: every selected run is emitted, and only whole runs are

  /** Where the run continuing from boundary j ends. */
  function Reach(u: Unicode, o: Options, s: seq<CodeUnit>, j: nat): (e: nat)
    requires Boundary(s, j)
    ensures j <= e <= |s| && Boundary(s, e) && !Extends(u, o, s, e)
  {
    RunEnd(u, o, s, j, false, false).end
  }

  /** Where a run ends does not depend on the classes seen so far. */
  lemma {:induction false} RunEndIgnoresFlags(u: Unicode, o: Options, s: seq<CodeUnit>, j: nat, hasLetter: bool, hasDigit: bool)
    requires Boundary(s, j)
    ensures RunEnd(u, o, s, j, hasLetter, hasDigit).end == Reach(u, o, s, j)
    decreases |s| - j
  {
    if Extends(u, o, s, j) {
      var k := KindAt(u, o, s, j);
      StepKeepsBoundary(s, j);
      RunEndIgnoresFlags(u, o, s, j + Width(s, j), hasLetter || k == Letter, hasDigit || k == Digit);
      RunEndIgnoresFlags(u, o, s, j + Width(s, j), k == Letter, k == Digit);
    }
  }

  /** Continuing a run from any boundary inside it reaches the same end. */
  lemma {:induction false} ReachInside(u: Unicode, o: Options, s: seq<CodeUnit>, j: nat, k: nat)
    requires Boundary(s, j) && Boundary(s, k) && j <= k <= Reach(u, o, s, j)
    ensures Reach(u, o, s, k) == Reach(u, o, s, j)
    decreases k - j
  {
    if j < k {
      var c := KindAt(u, o, s, j);
      StepKeepsBoundary(s, j);
      RunEndIgnoresFlags(u, o, s, j + Width(s, j), c == Letter, c == Digit);
      assert j + Width(s, j) <= k;
      ReachInside(u, o, s, j + Width(s, j), k);
    }
  }

  /** A letter or a digit starts at boundary k. */
  predicate WordAt(u: Unicode, o: Options, s: seq<CodeUnit>, k: int) {
    Boundary(s, k) && k < |s| && IsWord(KindAt(u, o, s, k))
  }

  /** No run that starts before i reaches past i. */
  predicate Clear(u: Unicode, o: Options, s: seq<CodeUnit>, i: int) {
    forall k :: 0 <= k < i && WordAt(u, o, s, k) ==> Reach(u, o, s, k) <= i
  }

  /** a starts a maximal run: a letter or digit that no earlier run covers. */
  predicate RunStart(u: Unicode, o: Options, s: seq<CodeUnit>, a: int) {
    WordAt(u, o, s, a) && Clear(u, o, s, a)
  }

  /** Every token of r is a whole maximal run. */
  ghost predicate WholeRuns(u: Unicode, o: Options, s: seq<CodeUnit>, r: seq<Token>) {
    forall n :: 0 <= n < |r| ==> RunStart(u, o, s, r[n].start) && r[n].end == Reach(u, o, s, r[n].start)
  }

  /** Every maximal run from i on whose term the options select starts a
      token of r. */
  ghost predicate SelectedFrom(u: Unicode, o: Options, s: seq<CodeUnit>, i: int, r: seq<Token>) {
    forall a :: i <= a && RunStart(u, o, s, a) && Selected(u, o, s[a..Reach(u, o, s, a)]) ==>
      exists n :: 0 <= n < |r| && r[n].start == a
  }

  /** What the scan from a clear boundary i finds: every token is a whole
      maximal run, and every maximal run from i on whose term the options
      select is a token. */
  ghost predicate Complete(u: Unicode, o: Options, s: Text, i: nat, pos: nat)
    requires Boundary(s, i) && pos <= i
  {
    var r := Scan(u, o, s, i, pos);
    WholeRuns(u, o, s, r) && SelectedFrom(u, o, s, i, r)
  }

  /** The run the scan finds at a letter or digit is the maximal run there,
      and the scan emits it exactly when its term is selected. */
  lemma RunAtStart(u: Unicode, o: Options, s: seq<CodeUnit>, i: nat)
    requires WordAt(u, o, s, i)
    ensures var k := KindAt(u, o, s, i);
            var run := RunEnd(u, o, s, i + Width(s, i), k == Letter, k == Digit);
            && run.end == Reach(u, o, s, i) && i < run.end
            && (Selected(u, o, s[i..run.end]) <==> Emits(o, run.hasLetter, run.hasDigit, run.end - i))
  {
    RunClass(u, o, s, i);
  }

  /** Skipping a code point that starts no run keeps the scan clear. */
  lemma ClearAfterSkip(u: Unicode, o: Options, s: seq<CodeUnit>, i: nat)
    requires Boundary(s, i) && i < |s| && !IsWord(KindAt(u, o, s, i)) && Clear(u, o, s, i)
    ensures Clear(u, o, s, i + Width(s, i))
  {
    forall k | 0 <= k < i + Width(s, i) && WordAt(u, o, s, k)
      ensures Reach(u, o, s, k) <= i + Width(s, i)
    {
      assert k < i;
    }
  }

  /** Passing over a whole run keeps the scan clear. */
  lemma ClearAfterRun(u: Unicode, o: Options, s: seq<CodeUnit>, i: nat)
    requires RunStart(u, o, s, i)
    ensures Clear(u, o, s, Reach(u, o, s, i))
  {
    var e := Reach(u, o, s, i);
    forall k | 0 <= k < e && WordAt(u, o, s, k)
      ensures Reach(u, o, s, k) <= e
    {
      if i <= k {
        ReachInside(u, o, s, i, k);
      }
    }
  }

  /** A token for the run at i put in front of the tokens for the rest. */
  lemma ConsWholeRun(u: Unicode, o: Options, s: seq<CodeUnit>, t: Token, rest: seq<Token>)
    requires RunStart(u, o, s, t.start) && t.end == Reach(u, o, s, t.start) && WholeRuns(u, o, s, rest)
    ensures WholeRuns(u, o, s, [t] + rest)
  {
    var r := [t] + rest;
    forall n | 0 <= n < |r|
      ensures RunStart(u, o, s, r[n].start) && r[n].end == Reach(u, o, s, r[n].start)
    {
      if n > 0 {
        assert r[n] == rest[n - 1];
      }
    }
  }

  /** The runs from i on are the one at i and those from its end on. */
  lemma ConsSelected(u: Unicode, o: Options, s: seq<CodeUnit>, t: Token, rest: seq<Token>)
    requires RunStart(u, o, s, t.start) && t.end == Reach(u, o, s, t.start)
    requires SelectedFrom(u, o, s, t.end, rest)
    ensures SelectedFrom(u, o, s, t.start, [t] + rest)
  {
    var r := [t] + rest;
    forall a | t.start <= a && RunStart(u, o, s, a) && Selected(u, o, s[a..Reach(u, o, s, a)])
      ensures exists n :: 0 <= n < |r| && r[n].start == a
    {
      if a == t.start {
        assert r[0].start == a;
      } else {
        assert WordAt(u, o, s, t.start);
        var n :| 0 <= n < |rest| && rest[n].start == a;
        assert r[n + 1].start == a;
      }
    }
  }

  /** The inductive step at a run that is emitted. */
  lemma EmittedRunComplete(u: Unicode, o: Options, s: Text, i: nat, pos: nat)
    requires RunStart(u, o, s, i) && pos <= i
    requires var k := KindAt(u, o, s, i);
             var run := RunEnd(u, o, s, i + Width(s, i), k == Letter, k == Digit);
             Emits(o, run.hasLetter, run.hasDigit, run.end - i) && Complete(u, o, s, run.end, pos + 1)
    ensures Complete(u, o, s, i, pos)
  {
    var k := KindAt(u, o, s, i);
    var run := RunEnd(u, o, s, i + Width(s, i), k == Letter, k == Digit);
    var e := run.end;
    RunAtStart(u, o, s, i);
    ScanEmits(u, o, s, i, pos);
    var t := Token(s[i..e], i, e, pos);
    var rest := Scan(u, o, s, e, pos + 1);
    ConsWholeRun(u, o, s, t, rest);
    ConsSelected(u, o, s, t, rest);
  }

  /** The inductive step at a run that is dropped. */
  lemma DroppedRunComplete(u: Unicode, o: Options, s: Text, i: nat, pos: nat)
    requires RunStart(u, o, s, i) && pos <= i
    requires var k := KindAt(u, o, s, i);
             var run := RunEnd(u, o, s, i + Width(s, i), k == Letter, k == Digit);
             !Emits(o, run.hasLetter, run.hasDigit, run.end - i) && Complete(u, o, s, run.end, pos)
    ensures Complete(u, o, s, i, pos)
  {
    RunAtStart(u, o, s, i);
    ScanDrops(u, o, s, i, pos);
    forall a | i < a && RunStart(u, o, s, a)
      ensures Reach(u, o, s, i) <= a
    {
      assert WordAt(u, o, s, i);
    }
  }

  /** The inductive step over a code point that starts no run. */
  lemma SkippedComplete(u: Unicode, o: Options, s: Text, i: nat, pos: nat)
    requires Boundary(s, i) && pos <= i < |s| && !IsWord(KindAt(u, o, s, i))
    requires Boundary(s, i + Width(s, i)) && Complete(u, o, s, i + Width(s, i), pos)
    ensures Complete(u, o, s, i, pos)
  {
    ScanSkips(u, o, s, i, pos);
    forall a | i <= a && RunStart(u, o, s, a)
      ensures i + Width(s, i) <= a
    {
      assert a != i;
    }
  }

  /** The scan resumes at a clear boundary. */
  lemma ClearAfterStep(u: Unicode, o: Options, s: Text, i: nat, pos: nat)
    requires Boundary(s, i) && pos <= i < |s| && Clear(u, o, s, i)
    ensures Clear(u, o, s, Resume(u, o, s, i, pos).0)
  {
    StepKeepsBoundary(s, i);
    if IsWord(KindAt(u, o, s, i)) {
      RunAtStart(u, o, s, i);
      ClearAfterRun(u, o, s, i);
    } else {
      ClearAfterSkip(u, o, s, i);
    }
  }

  /** One step of the induction: Complete where the scan resumes gives
      Complete at i. */
  lemma StepComplete(u: Unicode, o: Options, s: Text, i: nat, pos: nat)
    requires Boundary(s, i) && pos <= i < |s| && Clear(u, o, s, i)
    requires Complete(u, o, s, Resume(u, o, s, i, pos).0, Resume(u, o, s, i, pos).1)
    ensures Complete(u, o, s, i, pos)
  {
    var k := KindAt(u, o, s, i);
    StepKeepsBoundary(s, i);
    if IsWord(k) {
      var run := RunEnd(u, o, s, i + Width(s, i), k == Letter, k == Digit);
      if Emits(o, run.hasLetter, run.hasDigit, run.end - i) {
        EmittedRunComplete(u, o, s, i, pos);
      } else {
        DroppedRunComplete(u, o, s, i, pos);
      }
    } else {
      SkippedComplete(u, o, s, i, pos);
    }
  }

  /** Complete holds from every clear boundary, by induction on the rest of
      the text. */
  lemma {:induction false} CompleteFrom(u: Unicode, o: Options, s: Text, i: nat, pos: nat)
    requires Boundary(s, i) && pos <= i && Clear(u, o, s, i)
    ensures Complete(u, o, s, i, pos)
    decreases |s| - i
  {
    if i == |s| {
      assert Scan(u, o, s, i, pos) == [];
    } else {
      var next := Resume(u, o, s, i, pos);
      ClearAfterStep(u, o, s, i, pos);
      CompleteFrom(u, o, s, next.0, next.1);
      StepComplete(u, o, s, i, pos);
    }
  }

  /** The tokens are exactly the maximal runs the options select: each token
      starts where no earlier run reaches and ends where its run ends, and
      each maximal run whose class and length the options select is a
      token. Together with TokensMeetContract: a run is emitted if and only
      if its class flag is on and its length is within the bounds. */
  lemma TokensAreSelectedRuns(u: Unicode, s: Text, o: Options)
    ensures var r := TokensOf(u, Some(s), o);
            && (forall n :: 0 <= n < |r| ==> RunStart(u, o, s, r[n].start) && r[n].end == Reach(u, o, s, r[n].start))
            && (forall a :: RunStart(u, o, s, a) && Selected(u, o, s[a..Reach(u, o, s, a)]) ==>
                  exists n :: 0 <= n < |r| && r[n].start == a)
  {
    CompleteFrom(u, o, s, 0, 0);
  }

  /** Every letter or digit lies in a maximal run: the run start found by
      walking back from a word boundary j to the first run that reaches
      past k. */
  lemma {:induction false} FindRunStart(u: Unicode, o: Options, s: seq<CodeUnit>, k: nat, j: nat) returns (a: nat)
    requires WordAt(u, o, s, j) && j <= k < Reach(u, o, s, j)
    ensures RunStart(u, o, s, a) && a <= k < Reach(u, o, s, a)
    decreases j
  {
    if Clear(u, o, s, j) {
      a := j;
    } else {
      var j' :| 0 <= j' < j && WordAt(u, o, s, j') && Reach(u, o, s, j') > j;
      ReachInside(u, o, s, j', j);
      a := FindRunStart(u, o, s, k, j');
    }
  }

  /** Options that emit every class at every length. */
  predicate EmitsEverything(o: Options) {
    o.emitNumeric && o.emitAlpha && o.emitAlphaNumeric && o.minTokenLength <= 1 && o.maxTokenLength == INT_MAX
  }

  /** A maximal run is selected when every class and length is emitted. */
  lemma RunSelected(u: Unicode, o: Options, s: Text, a: nat)
    requires EmitsEverything(o) && WordAt(u, o, s, a)
    ensures Selected(u, o, s[a..Reach(u, o, s, a)])
  {
    var e := Reach(u, o, s, a);
    RunAtStart(u, o, s, a);
    KindAtInSlice(u, o, s, a, a, e);
  }

  /** Nothing is lost: when the options emit every class at every length,
      every letter and digit of the text lies inside a token. */
  lemma TokensCoverWords(u: Unicode, s: Text, o: Options)
    requires EmitsEverything(o)
    ensures var r := TokensOf(u, Some(s), o);
            forall k :: WordAt(u, o, s, k) ==> exists n :: 0 <= n < |r| && r[n].start <= k < r[n].end
  {
    var r := TokensOf(u, Some(s), o);
    TokensAreSelectedRuns(u, s, o);
    forall k | WordAt(u, o, s, k)
      ensures exists n :: 0 <= n < |r| && r[n].start <= k < r[n].end
    {
      RunAtStart(u, o, s, k);
      var a := FindRunStart(u, o, s, k, k);
      RunSelected(u, o, s, a);
      var n :| 0 <= n < |r| && r[n].start == a;
      assert r[n].start <= k < r[n].end;
    }
  }

  // ---------------------------------------------------------------------
  // The scanning loop

  /** The inner loop of the scan: extends the run from boundary j to its end. */
  method ScanRun(u: Unicode, o: Options, s: Text, j0: nat, hasLetter0: bool, hasDigit0: bool)
    returns (r: Run)
    requires Boundary(s, j0)
    ensures r == RunEnd(u, o, s, j0, hasLetter0, hasDigit0)
  {
    var j, hasLetter, hasDigit := j0, hasLetter0, hasDigit0;
    while Extends(u, o, s, j)
      invariant j0 <= j <= |s| && Boundary(s, j)
      invariant RunEnd(u, o, s, j, hasLetter, hasDigit) == RunEnd(u, o, s, j0, hasLetter0, hasDigit0)
      decreases |s| - j
    {
      var k := KindAt(u, o, s, j);
      hasLetter := hasLetter || k == Letter;
      hasDigit := hasDigit || k == Digit;
      StepKeepsBoundary(s, j);
      j := j + Width(s, j);
    }
    r := Run(j, hasLetter, hasDigit);
  }

  /** One iteration of the outer loop: the code point at i either starts a
      run, which is scanned to its end and possibly emitted, or is skipped. */
  method ScanStep(u: Unicode, o: Options, s: Text, i: nat, pos: nat)
    returns (emitted: Option<Token>, next: nat)
    requires Boundary(s, i) && pos <= i < |s|
    ensures i < next <= |s| && Boundary(s, next)
    ensures emitted.Some? ==> pos + 1 <= next
    ensures emitted.Some? ==> Scan(u, o, s, i, pos) == [emitted.value] + Scan(u, o, s, next, pos + 1)
    ensures emitted.None? ==> Scan(u, o, s, i, pos) == Scan(u, o, s, next, pos)
  {
    var k := KindAt(u, o, s, i);
    StepKeepsBoundary(s, i);
    if IsWord(k) {
      var run := ScanRun(u, o, s, i + Width(s, i), k == Letter, k == Digit);
      if Emits(o, run.hasLetter, run.hasDigit, run.end - i) {
        ScanEmits(u, o, s, i, pos);
        emitted := Some(Token(s[i..run.end], i, run.end, pos));
      } else {
        ScanDrops(u, o, s, i, pos);
        emitted := None;
      }
      next := run.end;
    } else {
      ScanSkips(u, o, s, i, pos);
      emitted, next := None, i + Width(s, i);
    }
  }

  /** `tokenize(text, options)`: one pass over the text that tracks the start
      of the current run, its class and the next position, appending each
      emitted token. */
  method Tokenize(u: Unicode, text: Option<Text>, o: Options) returns (r: seq<Token>)
    ensures r == TokensOf(u, text, o)
  {
    if text.None? {
      return [];
    }
    var s := text.value;
    var i, pos := 0, 0;
    r := [];
    while i < |s|
      invariant i <= |s| && Boundary(s, i) && pos <= i
      invariant r + Scan(u, o, s, i, pos) == Scan(u, o, s, 0, 0)
      decreases |s| - i
    {
      var emitted, next := ScanStep(u, o, s, i, pos);
      if emitted.Some? {
        assert (r + [emitted.value]) + Scan(u, o, s, next, pos + 1)
            == r + ([emitted.value] + Scan(u, o, s, next, pos + 1));
        r := r + [emitted.value];
        pos := pos + 1;
      }
      i := next;
    }
  }
}
