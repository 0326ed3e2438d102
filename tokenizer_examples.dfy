/** The tokenizer on the documented examples. */
module TokenizerExamples {
  import opened Wrappers
  import opened Utf16
  import opened Tokens
  import opened Tokenizer

  /** Only alphabetic tokens are emitted. */
  function AlphaOnly(): Options {
    Standard().(emitNumeric := false, emitAlphaNumeric := false)
  }

  /** "á 🚀": the letter and its combining acute form one token, the
      space separates, and the rocket (a surrogate pair) is skipped whole. */
  lemma MarkAndSurrogateExample(u: Unicode, x: Text)
    requires WellFormed(u)
    requires u.isMark(0x301) && !u.isLetter(0x301) && !u.isDigit(0x301)
    requires !u.isLetter(0x1F680) && !u.isDigit(0x1F680)
    requires x == [0x61, 0x301, 0x20, 0xD83D, 0xDE80]
    ensures TokensOf(u, Some(x), AlphaOnly()) == [Token([0x61, 0x301], 0, 2, 0)]
  {
    var o := AlphaOnly();
    assert IsAscii(0x61) && IsAscii(0x20);
    assert KindAt(u, o, x, 0) == Letter;
    assert KindAt(u, o, x, 1) == Mark;
    assert KindAt(u, o, x, 2) == Other;
    assert CodePointAt(x, 3) == 0x1F680;
    assert !IsWord(KindAt(u, o, x, 3));
    assert RunEnd(u, o, x, 1, true, false) == Run(2, true, false);
    assert Scan(u, o, x, 3, 1) == [];
    assert Scan(u, o, x, 2, 1) == [];
    assert KindAt(u, o, x, 0) == Letter && Width(x, 0) == 1;
    ScanEmits(u, o, x, 0, 0);
    assert x[0..2] == [0x61, 0x301];
  }

  /** The code unit after m, still before e, is an ASCII letter. */
  predicate LetterNext(s: seq<CodeUnit>, m: int, e: int) {
    0 <= m && m + 1 < e <= |s| && IsAsciiLetter(s[m + 1])
  }

  /** An ASCII unit is a code point of its own, classified by its ASCII class. */
  lemma AsciiKind(u: Unicode, o: Options, s: seq<CodeUnit>, j: nat)
    requires WellFormed(u) && j < |s| && IsAscii(s[j])
    ensures Width(s, j) == 1 && CodePointAt(s, j) == s[j]
    ensures KindAt(u, o, s, j)
         == if IsAsciiLetter(s[j]) then Letter
            else if IsAsciiDigit(s[j]) then Digit
            else if IsConnector(o, s[j]) then Connector
            else Other
  {
  }

  /** A stretch [j, e) of ASCII letters, with connecting hyphens when the
      options keep them, followed by the end of the text or by an ASCII
      character that breaks runs, is one run ending at e. */
  lemma {:induction false} AsciiWordRun(u: Unicode, o: Options, s: Text, j: nat, e: nat, hasLetter: bool, hasDigit: bool)
    requires WellFormed(u)
    requires Boundary(s, j) && j <= e <= |s|
    requires forall m :: j <= m < e ==>
               IsAsciiLetter(s[m]) || (o.keepHyphens && s[m] == HYPHEN_MINUS && LetterNext(s, m, e))
    requires e < |s| ==> IsAscii(s[e]) && !IsAsciiLetter(s[e]) && !IsAsciiDigit(s[e]) && !IsConnector(o, s[e])
    ensures RunEnd(u, o, s, j, hasLetter, hasDigit) == Run(e, hasLetter || j < e, hasDigit)
    decreases e - j
  {
    if j == e {
      AsciiStop(u, o, s, e, hasLetter, hasDigit);
    } else if IsAsciiLetter(s[j]) {
      AsciiLetterStep(u, o, s, j, hasLetter, hasDigit);
      AsciiWordRun(u, o, s, j + 1, e, true, hasDigit);
    } else {
      assert LetterNext(s, j, e);
      AsciiHyphenStep(u, o, s, j, hasLetter, hasDigit);
      AsciiWordRun(u, o, s, j + 1, e, hasLetter, hasDigit);
    }
  }

  /** The run stops at the end of the text or at an ASCII character that is
      neither a letter, a digit nor a connector. */
  lemma AsciiStop(u: Unicode, o: Options, s: Text, e: nat, hasLetter: bool, hasDigit: bool)
    requires WellFormed(u) && Boundary(s, e)
    requires e < |s| ==> IsAscii(s[e]) && !IsAsciiLetter(s[e]) && !IsAsciiDigit(s[e]) && !IsConnector(o, s[e])
    ensures RunEnd(u, o, s, e, hasLetter, hasDigit) == Run(e, hasLetter, hasDigit)
  {
    if e < |s| {
      AsciiKind(u, o, s, e);
    }
  }

  /** An ASCII letter extends the run by one unit and marks it alphabetic. */
  lemma AsciiLetterStep(u: Unicode, o: Options, s: Text, j: nat, hasLetter: bool, hasDigit: bool)
    requires WellFormed(u) && Boundary(s, j) && j < |s| && IsAsciiLetter(s[j])
    ensures Boundary(s, j + 1)
    ensures RunEnd(u, o, s, j, hasLetter, hasDigit) == RunEnd(u, o, s, j + 1, true, hasDigit)
  {
    AsciiKind(u, o, s, j);
  }

  /** A kept hyphen directly followed by an ASCII letter extends the run by
      one unit. */
  lemma AsciiHyphenStep(u: Unicode, o: Options, s: Text, j: nat, hasLetter: bool, hasDigit: bool)
    requires WellFormed(u) && Boundary(s, j) && j + 1 < |s|
    requires o.keepHyphens && s[j] == HYPHEN_MINUS && IsAsciiLetter(s[j + 1])
    ensures Boundary(s, j + 1)
    ensures RunEnd(u, o, s, j, hasLetter, hasDigit) == RunEnd(u, o, s, j + 1, hasLetter, hasDigit)
  {
    AsciiKind(u, o, s, j);
    AsciiKind(u, o, s, j + 1);
  }

  /** "state-of-the-art" as UTF-16 code units. */
  predicate IsStateOfTheArt(x: Text) {
    x == [0x73, 0x74, 0x61, 0x74, 0x65, 0x2D, 0x6F, 0x66, 0x2D, 0x74, 0x68, 0x65, 0x2D, 0x61, 0x72, 0x74]
  }

  /** With hyphens kept, "state-of-the-art" is a single token spanning all
      sixteen code units, [0, 16). */
  lemma HyphensKeptExample(u: Unicode, x: Text)
    requires WellFormed(u) && IsStateOfTheArt(x)
    ensures TokensOf(u, Some(x), Standard()) == [Token(x, 0, 16, 0)]
    ensures Spans(x, Token(x, 0, 16, 0))
  {
    StateOfTheArtShape(x);
    HyphensKeptOnShape(u, x);
  }

  /** The hyphen-keeping scan of any text shaped like "state-of-the-art". */
  lemma HyphensKeptOnShape(u: Unicode, x: Text)
    requires WellFormed(u) && HyphenatedShape(x)
    ensures TokensOf(u, Some(x), Standard()) == [Token(x, 0, 16, 0)]
  {
    var o := Standard();
    AsciiKind(u, o, x, 0);
    forall m | 1 <= m < 16
      ensures IsAsciiLetter(x[m]) || (o.keepHyphens && x[m] == HYPHEN_MINUS && LetterNext(x, m, 16))
    {
      if m == 5 || m == 8 || m == 12 {
        assert IsAsciiLetter(x[m + 1]);
      }
    }
    AsciiWordRun(u, o, x, 1, 16, true, false);
    ScanEmits(u, o, x, 0, 0);
    assert x[0..16] == x;
  }

  /** A run of ASCII letters [i, e) that the options emit is one token. */
  lemma AsciiWordToken(u: Unicode, o: Options, s: Text, i: nat, e: nat, pos: nat)
    requires WellFormed(u) && Boundary(s, i) && pos <= i < e <= |s|
    requires forall m :: i <= m < e ==> IsAsciiLetter(s[m])
    requires e < |s| ==> IsAscii(s[e]) && !IsAsciiLetter(s[e]) && !IsAsciiDigit(s[e]) && !IsConnector(o, s[e])
    requires Emits(o, true, false, e - i)
    ensures Scan(u, o, s, i, pos) == [Token(s[i..e], i, e, pos)] + Scan(u, o, s, e, pos + 1)
  {
    AsciiKind(u, o, s, i);
    AsciiWordRun(u, o, s, i + 1, e, true, false);
    ScanEmits(u, o, s, i, pos);
  }

  /** An ASCII character that is neither a letter, a digit nor a connector is
      skipped. */
  lemma AsciiBreak(u: Unicode, o: Options, s: Text, i: nat, pos: nat)
    requires WellFormed(u) && Boundary(s, i) && pos <= i < |s|
    requires IsAscii(s[i]) && !IsAsciiLetter(s[i]) && !IsAsciiDigit(s[i]) && !IsConnector(o, s[i])
    ensures Boundary(s, i + 1)
    ensures Scan(u, o, s, i, pos) == Scan(u, o, s, i + 1, pos)
  {
    AsciiKind(u, o, s, i);
    ScanSkips(u, o, s, i, pos);
  }

  /** The options that break words at hyphens. */
  function HyphensBreak(): Options {
    Standard().(keepHyphens := false)
  }

  /** What the scan needs to know of "state-of-the-art": sixteen ASCII units,
      hyphens at 5, 8 and 12 and letters elsewhere. */
  predicate HyphenatedShape(x: Text) {
    && |x| == 16
    && forall m :: 0 <= m < 16 ==>
         if m == 5 || m == 8 || m == 12 then x[m] == HYPHEN_MINUS else IsAsciiLetter(x[m])
  }

  lemma StateOfTheArtShape(x: Text)
    requires IsStateOfTheArt(x)
    ensures HyphenatedShape(x)
  {
  }

  lemma StateThenRest(u: Unicode, x: Text)
    requires WellFormed(u) && HyphenatedShape(x)
    ensures Scan(u, HyphensBreak(), x, 0, 0) == [Token(x[0..5], 0, 5, 0)] + Scan(u, HyphensBreak(), x, 6, 1)
  {
    AsciiWordToken(u, HyphensBreak(), x, 0, 5, 0);
    AsciiBreak(u, HyphensBreak(), x, 5, 1);
  }

  lemma OfThenRest(u: Unicode, x: Text)
    requires WellFormed(u) && HyphenatedShape(x)
    ensures Scan(u, HyphensBreak(), x, 6, 1) == [Token(x[6..8], 6, 8, 1)] + Scan(u, HyphensBreak(), x, 9, 2)
  {
    assert Boundary(x, 6);
    AsciiWordToken(u, HyphensBreak(), x, 6, 8, 1);
    AsciiBreak(u, HyphensBreak(), x, 8, 2);
  }

  lemma TheThenRest(u: Unicode, x: Text)
    requires WellFormed(u) && HyphenatedShape(x)
    ensures Scan(u, HyphensBreak(), x, 9, 2) == [Token(x[9..12], 9, 12, 2)] + Scan(u, HyphensBreak(), x, 13, 3)
  {
    assert Boundary(x, 9);
    AsciiWordToken(u, HyphensBreak(), x, 9, 12, 2);
    AsciiBreak(u, HyphensBreak(), x, 12, 3);
  }

  lemma ArtToEnd(u: Unicode, x: Text)
    requires WellFormed(u) && HyphenatedShape(x)
    ensures Scan(u, HyphensBreak(), x, 13, 3) == [Token(x[13..16], 13, 16, 3)]
  {
    assert Boundary(x, 13);
    AsciiWordToken(u, HyphensBreak(), x, 13, 16, 3);
  }

  /** The hyphen-breaking scan of any text shaped like "state-of-the-art". */
  lemma HyphensBreakOnShape(u: Unicode, x: Text)
    requires WellFormed(u) && HyphenatedShape(x)
    ensures TokensOf(u, Some(x), HyphensBreak())
         == [Token(x[0..5], 0, 5, 0), Token(x[6..8], 6, 8, 1),
             Token(x[9..12], 9, 12, 2), Token(x[13..16], 13, 16, 3)]
  {
    StateThenRest(u, x);
    OfThenRest(u, x);
    TheThenRest(u, x);
    ArtToEnd(u, x);
  }

  /** With hyphens as breaks, "state-of-the-art" yields "state", "of", "the"
      and "art" at [0, 5), [6, 8), [9, 12) and [13, 16), numbered 0 to 3,
      each the substring at its offsets. */
  lemma HyphensBreakExample(u: Unicode, x: Text)
    requires WellFormed(u) && IsStateOfTheArt(x)
    ensures TokensOf(u, Some(x), HyphensBreak())
         == [Token(x[0..5], 0, 5, 0), Token(x[6..8], 6, 8, 1),
             Token(x[9..12], 9, 12, 2), Token(x[13..16], 13, 16, 3)]
    ensures TokensOf(u, Some(x), HyphensBreak())
         == [Token([0x73, 0x74, 0x61, 0x74, 0x65], 0, 5, 0), Token([0x6F, 0x66], 6, 8, 1),
             Token([0x74, 0x68, 0x65], 9, 12, 2), Token([0x61, 0x72, 0x74], 13, 16, 3)]
  {
    StateOfTheArtShape(x);
    HyphensBreakOnShape(u, x);
    assert x[0..5] == [0x73, 0x74, 0x61, 0x74, 0x65] && x[6..8] == [0x6F, 0x66];
    assert x[9..12] == [0x74, 0x68, 0x65] && x[13..16] == [0x61, 0x72, 0x74];
  }

  /** The span the package documentation gives for the single token,
      end = 17, overruns the sixteen-unit text, so that token cannot satisfy
      substring equality; the span [0, 16) of HyphensKeptExample does. */
  lemma DocumentedSpanOverruns(x: Text)
    requires IsStateOfTheArt(x)
    ensures |x| == 16
    ensures !Spans(x, Token(x, 0, 17, 0))
  {
  }
}
