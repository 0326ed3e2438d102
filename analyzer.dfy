/** The analyzer: a pipeline of character-filter stages followed by one
    tokenizer stage, and the builder that assembles it. */
module Analyzer {
  import opened Wrappers
  import opened Utf16
  import opened Tokens
  import CF = CharFilter
  import TK = Tokenizer

  /** A CharFilter implementation: `apply(text, options)`. */
  type Filter = (Option<Text>, CF.Options) -> CF.FilterResult

  /** A Tokenizer implementation: `tokenize(text, options)`. */
  type TokenizerFn = (Option<Text>, TK.Options) -> seq<Token>

  /** `Pipeline.FilterStage`: a filter with its options. */
  datatype FilterStage = FilterStage(filter: Filter, options: CF.Options)

  /** `Pipeline.TokenStage`: a tokenizer with its options. */
  datatype TokenStage = TokenStage(tokenizer: TokenizerFn, options: TK.Options)

  /** The immutable `Pipeline`: filter stages in order, then the tokenizer. */
  datatype Pipeline = Pipeline(filters: seq<FilterStage>, tokenizer: TokenStage)

  /** `Analyzer.Result`. */
  datatype AnalysisResult = AnalysisResult(normalizedText: Option<Text>, tokens: seq<Token>)

  // ---------------------------------------------------------------------
  // The stage contracts

  /** The CharFilter null/empty policy. */
  ghost predicate FilterHonoursContract(f: Filter) {
    && (forall o :: f(None, o) == CF.FilterResult(None, false))
    && (forall o :: f(Some([]), o) == CF.FilterResult(Some([]), false))
  }

  /** The Tokenizer contract: null and empty give no tokens; every token is
      valid and is the substring of the text at its offsets; positions never
      decrease. */
  ghost predicate TokenizerHonoursContract(t: TokenizerFn) {
    && (forall o :: t(None, o) == [])
    && (forall o :: t(Some([]), o) == [])
    && (forall s: Text, o :: SpansAll(s, t(Some(s), o)))
    && (forall s: Text, o :: PositionsNonDecreasing(t(Some(s), o)))
  }

  /** Every token of r is valid and is the substring of s at its offsets. */
  predicate SpansAll(s: seq<CodeUnit>, r: seq<Token>) {
    forall n :: 0 <= n < |r| ==> Tokens.Valid(r[n]) && Spans(s, r[n])
  }

  predicate PositionsNonDecreasing(r: seq<Token>) {
    forall n :: 0 <= n < |r| - 1 ==> r[n].position <= r[n + 1].position
  }

  // ---------------------------------------------------------------------
  // Analysis

  /** The text after the filter stages, each stage receiving the previous
      stage's output, in list order. */
  function Normalized(fs: seq<FilterStage>, x: Option<Text>): Option<Text>
    decreases |fs|
  {
    if |fs| == 0 then x
    else Normalized(fs[1..], fs[0].filter(x, fs[0].options).text)
  }

  /** `analyze(text)` as a function. */
  function Analysis(p: Pipeline, text: Option<Text>): AnalysisResult {
    var normalized := Normalized(p.filters, text);
    AnalysisResult(normalized, p.tokenizer.tokenizer(normalized, p.tokenizer.options))
  }

  /** `analyze(text)`: run the filters one after another, then the tokenizer
      on the final text. */
  method Analyze(p: Pipeline, text: Option<Text>) returns (r: AnalysisResult)
    ensures r == Analysis(p, text)
  {
    var current := text;
    var i := 0;
    while i < |p.filters|
      invariant 0 <= i <= |p.filters|
      invariant Normalized(p.filters[i..], current) == Normalized(p.filters, text)
    {
      var stage := p.filters[i];
      assert p.filters[i..][1..] == p.filters[i + 1..];
      current := stage.filter(current, stage.options).text;
      i := i + 1;
    }
    r := AnalysisResult(current, p.tokenizer.tokenizer(current, p.tokenizer.options));
  }

  /** Adding a stage at the end applies it to what the earlier stages produced. */
  lemma {:induction false} NormalizedSnoc(fs: seq<FilterStage>, f: FilterStage, x: Option<Text>)
    ensures Normalized(fs + [f], x) == f.filter(Normalized(fs, x), f.options).text
    decreases |fs|
  {
    if |fs| > 0 {
      assert (fs + [f])[1..] == fs[1..] + [f];
      NormalizedSnoc(fs[1..], f, fs[0].filter(x, fs[0].options).text);
    }
  }

  /** Splitting the stage list splits the normalisation. */
  lemma {:induction false} NormalizedAppend(fs: seq<FilterStage>, gs: seq<FilterStage>, x: Option<Text>)
    ensures Normalized(fs + gs, x) == Normalized(gs, Normalized(fs, x))
    decreases |fs|
  {
    if |fs| > 0 {
      assert (fs + gs)[0] == fs[0];
      assert (fs + gs)[1..] == fs[1..] + gs;
      NormalizedAppend(fs[1..], gs, fs[0].filter(x, fs[0].options).text);
    } else {
      assert fs + gs == gs;
    }
  }

  /** The filter stages, honouring their null/empty policy, keep null null and
      empty empty. */
  lemma {:induction false} NormalizedNullAndEmpty(fs: seq<FilterStage>)
    requires forall n :: 0 <= n < |fs| ==> FilterHonoursContract(fs[n].filter)
    ensures Normalized(fs, None) == None
    ensures Normalized(fs, Some([])) == Some([])
    decreases |fs|
  {
    if |fs| > 0 {
      var f := fs[0];
      assert FilterHonoursContract(f.filter);
      assert f.filter(None, f.options) == CF.FilterResult(None, false);
      assert f.filter(Some([]), f.options) == CF.FilterResult(Some([]), false);
      NormalizedNullAndEmpty(fs[1..]);
    }
  }

  /** The analyzer null/empty policy follows from the stage contracts: null
      gives (null, []) and "" gives ("", []). */
  lemma AnalysisNullAndEmpty(p: Pipeline)
    requires forall n :: 0 <= n < |p.filters| ==> FilterHonoursContract(p.filters[n].filter)
    requires TokenizerHonoursContract(p.tokenizer.tokenizer)
    ensures Analysis(p, None) == AnalysisResult(None, [])
    ensures Analysis(p, Some([])) == AnalysisResult(Some([]), [])
  {
    NormalizedNullAndEmpty(p.filters);
  }

  /** Token offsets index the normalised text, never the raw input, and
      positions never decrease. */
  lemma AnalysisOffsets(p: Pipeline, text: Option<Text>)
    requires TokenizerHonoursContract(p.tokenizer.tokenizer)
    ensures var r := Analysis(p, text);
            && (r.normalizedText.None? ==> r.tokens == [])
            && (r.normalizedText.Some? ==> SpansAll(r.normalizedText.value, r.tokens))
            && PositionsNonDecreasing(r.tokens)
  {
    var r := Analysis(p, text);
    var t := p.tokenizer.tokenizer;
    var o := p.tokenizer.options;
    if r.normalizedText.Some? {
      assert SpansAll(r.normalizedText.value, t(Some(r.normalizedText.value), o));
      assert PositionsNonDecreasing(t(Some(r.normalizedText.value), o));
    } else {
      assert t(None, o) == [];
    }
  }

  // ---------------------------------------------------------------------
  // The reference stages honour the contracts

  /** The CharFilter of this model as a pipeline component. */
  function ReferenceFilter(u: Unicode): Filter {
    (x: Option<Text>, o: CF.Options) => CF.Apply(u, x, o)
  }

  /** The Tokenizer of this model as a pipeline component. */
  function ReferenceTokenizer(u: Unicode): TokenizerFn {
    (x: Option<Text>, o: TK.Options) => TK.TokensOf(u, x, o)
  }

  lemma ReferenceFilterHonoursContract(u: Unicode)
    requires WellFormed(u)
    ensures FilterHonoursContract(ReferenceFilter(u))
  {
    forall o: CF.Options
      ensures ReferenceFilter(u)(None, o) == CF.FilterResult(None, false)
      ensures ReferenceFilter(u)(Some([]), o) == CF.FilterResult(Some([]), false)
    {
      CF.ApplyNullAndEmpty(u, o);
    }
  }

  lemma ReferenceTokenizerHonoursContract(u: Unicode)
    ensures TokenizerHonoursContract(ReferenceTokenizer(u))
  {
    var t := ReferenceTokenizer(u);
    forall s: Text, o: TK.Options
      ensures SpansAll(s, t(Some(s), o)) && PositionsNonDecreasing(t(Some(s), o))
    {
      TK.TokensMeetContract(u, Some(s), o);
      var r := TK.TokensOf(u, Some(s), o);
      assert forall n :: 0 <= n < |r| ==> TK.Emitted(u, o, s, r[n]);
      forall n | 0 <= n < |r| - 1
        ensures r[n].position <= r[n + 1].position
      {
        assert r[n].position == n && r[n + 1].position == n + 1;
      }
    }
  }

  /** A stage of the reference filter repeated with the same options changes
      nothing more: the second application is idempotent. */
  lemma RepeatedStageIsRedundant(u: Unicode, o: CF.Options, x: Option<Text>)
    requires WellFormed(u) && CF.FormLaws(u, o.unicodeNormalization)
    requires x.Some? && o.combiningMarkPolicy == CF.CombiningMarkPolicy.StripNonspacing ==> Paired(x.value)
    ensures var stage := FilterStage(ReferenceFilter(u), o);
            Normalized([stage, stage], x) == Normalized([stage], x)
  {
    CF.Idempotent(u, o, x);
    var stage := FilterStage(ReferenceFilter(u), o);
    assert [stage, stage][1..] == [stage];
  }

  // ---------------------------------------------------------------------
  // Pipeline.Builder

  /** The mutable `Pipeline.Builder`: filter stages in call order and an
      optional tokenizer stage. */
  class Builder {
    var filters: seq<FilterStage>
    var tokenizer: Option<TokenStage>

    constructor ()
      ensures filters == [] && tokenizer == None
    {
      filters := [];
      tokenizer := None;
    }

    /** `addCharFilter(filter, options)`: appends a stage; a null filter or
        null options is a NullPointerException that leaves the builder as
        it was. */
    method AddCharFilter(filter: Option<Filter>, options: Option<CF.Options>) returns (r: Outcome)
      modifies this
      ensures r.Fail? <==> filter.None? || options.None?
      ensures r.Fail? ==> r.error == NullPointerException && filters == old(filters)
      ensures r.Pass? ==> filters == old(filters) + [FilterStage(filter.value, options.value)]
      ensures tokenizer == old(tokenizer)
    {
      if filter.None? || options.None? {
        return Fail(NullPointerException);
      }
      filters := filters + [FilterStage(filter.value, options.value)];
      r := Pass;
    }

    /** `tokenizer(tokenizer, options)`: sets (or replaces) the tokenizer
        stage; null arguments are a NullPointerException that leaves the
        builder as it was. */
    method SetTokenizer(t: Option<TokenizerFn>, options: Option<TK.Options>) returns (r: Outcome)
      modifies this
      ensures r.Fail? <==> t.None? || options.None?
      ensures r.Fail? ==> r.error == NullPointerException && tokenizer == old(tokenizer)
      ensures r.Pass? ==> tokenizer == Some(TokenStage(t.value, options.value))
      ensures filters == old(filters)
    {
      if t.None? || options.None? {
        return Fail(NullPointerException);
      }
      tokenizer := Some(TokenStage(t.value, options.value));
      r := Pass;
    }

    /** `build()`: an immutable pipeline holding a copy of the stage list, or
        IllegalStateException when no tokenizer stage was set. */
    method Build() returns (r: Result<Pipeline>)
      ensures r.Failure? <==> tokenizer.None?
      ensures r.Failure? ==> r.error == IllegalStateException
      ensures r.Success? ==> r.value.filters == filters && Some(r.value.tokenizer) == tokenizer
    {
      if tokenizer.None? {
        return Failure(IllegalStateException);
      }
      r := Success(Pipeline(filters, tokenizer.value));
    }
  }

  /** A built pipeline is a snapshot: adding a stage to the builder afterwards
      extends the builder's list but not the pipeline's. */
  method BuildThenAdd(b: Builder, f: Filter, o: CF.Options) returns (p: Result<Pipeline>)
    requires b.tokenizer.Some?
    modifies b
    ensures p.Success? && p.value.filters == old(b.filters)
    ensures b.filters == old(b.filters) + [FilterStage(f, o)]
  {
    p := b.Build();
    var _ := b.AddCharFilter(Some(f), Some(o));
  }
}
