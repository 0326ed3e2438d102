/** The CharFilter contract and a reference implementation of it: text in,
    normalised text and a `changed` flag out, under eight independent
    policies. Every stage is a single left-to-right pass over the code units. */
module CharFilter {
  import opened Wrappers
  import opened Utf16
  import opened TextOps

  datatype NewlinePolicy = Preserve | NormalizeToLf | Remove
  datatype WhitespaceCollapse = None | CollapseSequences
  datatype SpaceNormalization = None | ConvertUnicodeSpacesToAscii
  datatype UnicodeNormalization = None | Nfc | Nfkc
  datatype CombiningMarkPolicy = Preserve | StripNonspacing
  datatype JoinerHandling = Preserve | Remove | PreserveAsInnerWord
  datatype ElongationHandling = Preserve | Strip
  datatype DigitNormalization = Preserve | MapToAscii

  datatype Options = Options(
    newlinePolicy: NewlinePolicy,
    collapsePolicy: WhitespaceCollapse,
    spaceNormalization: SpaceNormalization,
    unicodeNormalization: UnicodeNormalization,
    combiningMarkPolicy: CombiningMarkPolicy,
    joinerHandling: JoinerHandling,
    elongationHandling: ElongationHandling,
    digitNormalization: DigitNormalization)

  /** The result of `apply`: the text (absent for a null input) and whether
      it differs from the input. */
  datatype FilterResult = FilterResult(text: Option<Text>, changed: bool)

  /** `Options.standard()`. */
  function Standard(): Options {
    Options(
      NewlinePolicy.Preserve,
      WhitespaceCollapse.CollapseSequences,
      SpaceNormalization.ConvertUnicodeSpacesToAscii,
      UnicodeNormalization.Nfc,
      CombiningMarkPolicy.Preserve,
      JoinerHandling.PreserveAsInnerWord,
      ElongationHandling.Strip,
      DigitNormalization.Preserve)
  }

  // ---------------------------------------------------------------------
  // Character classes

  /** Newline characters: LF, CR, NEL, LINE SEPARATOR, PARAGRAPH SEPARATOR. */
  predicate IsNewline(c: CodeUnit) {
    c == LF || c == CR || c == 0x85 || c == 0x2028 || c == 0x2029
  }

  predicate IsCarriageReturn(c: CodeUnit) { c == CR }

  /** Every newline variant other than LF. */
  predicate IsNonLfNewline(c: CodeUnit) { IsNewline(c) && c != LF }

  /** The Unicode space separators (category Zs) other than ASCII space. */
  predicate IsUnicodeSpace(c: CodeUnit) {
    c == 0xA0 || c == 0x1680 || 0x2000 <= c <= 0x200A || c == 0x202F
    || c == 0x205F || c == 0x3000
  }

  /** Non-newline whitespace that collapsing acts on: TAB, VT, FF and SPACE. */
  predicate IsInlineWhitespace(c: CodeUnit) {
    c == 0x09 || c == 0x0B || c == 0x0C || c == SPACE
  }

  /** ZERO WIDTH NON-JOINER and ZERO WIDTH JOINER. */
  predicate IsJoiner(c: CodeUnit) { c == 0x200C || c == 0x200D }

  /** ARABIC TATWEEL (kashida) and NKO LAJANYALAN. */
  predicate IsElongation(c: CodeUnit) { c == 0x0640 || c == 0x07FA }

  /** The code unit of DIGIT ZERO of the supported script whose ten digits
      contain c, or 0 when c is no supported digit. Supported: Arabic-Indic,
      Extended Arabic-Indic, Devanagari, Bengali, Thai and Fullwidth. */
  function ScriptDigitZero(c: CodeUnit): int {
    if 0x0660 <= c <= 0x0669 then 0x0660
    else if 0x06F0 <= c <= 0x06F9 then 0x06F0
    else if 0x0966 <= c <= 0x096F then 0x0966
    else if 0x09E6 <= c <= 0x09EF then 0x09E6
    else if 0x0E50 <= c <= 0x0E59 then 0x0E50
    else if 0xFF10 <= c <= 0xFF19 then 0xFF10
    else 0
  }

  predicate IsScriptDigit(c: CodeUnit) { ScriptDigitZero(c) != 0 }

  /** The ASCII digit a supported script digit maps to; other units unchanged. */
  function MapDigit(c: CodeUnit): (d: CodeUnit)
    ensures IsScriptDigit(c) ==> IsAsciiDigit(d) && d - 0x30 == c - ScriptDigitZero(c)
    ensures !IsScriptDigit(c) ==> d == c
  {
    if IsScriptDigit(c) then 0x30 + (c - ScriptDigitZero(c)) else c
  }

  /** No code point of s, read from its start as `codePointAt` reads it, is
      a non-spacing mark. */
  predicate NoMarks(u: Unicode, s: seq<CodeUnit>)
    decreases |s|
  {
    |s| == 0 || (!u.isMark(CodePointAt(s, 0)) && NoMarks(u, s[Width(s, 0)..]))
  }

  // ---------------------------------------------------------------------
  // Stages

  /** Newline handling. PRESERVE turns CRLF and CR into LF, NORMALIZE_TO_LF
      also turns NEL, LS and PS into LF, REMOVE deletes every newline. */
  function Newlines(p: NewlinePolicy, s: Text): (r: Text)
    ensures |r| <= |s|
  {
    if |s| == 0 then []
    else if s[0] == CR then
      var rest := if |s| > 1 && s[1] == LF then s[2..] else s[1..];
      (if p == NewlinePolicy.Remove then [] else [LF]) + Newlines(p, rest)
    else if p == NewlinePolicy.Remove && IsNewline(s[0]) then Newlines(p, s[1..])
    else if p == NewlinePolicy.NormalizeToLf && IsNewline(s[0]) then [LF] + Newlines(p, s[1..])
    else [s[0]] + Newlines(p, s[1..])
  }

  /** The newline variants a policy leaves none of. */
  function Banned(p: NewlinePolicy): CodeUnit -> bool {
    match p
    case Preserve => IsCarriageReturn
    case NormalizeToLf => IsNonLfNewline
    case Remove => IsNewline
  }

  /** Unicode space separators become ASCII space, one for one. */
  function ConvertSpaces(s: Text): Text
  {
    seq(|s|, i requires 0 <= i < |s| => if IsUnicodeSpace(s[i]) then SPACE else s[i])
  }

  /** Supported script digits become ASCII digits, one for one. */
  function MapDigits(s: Text): Text
  {
    seq(|s|, i requires 0 <= i < |s| => MapDigit(s[i]))
  }

  /** Every inline whitespace unit is an ASCII space and no two are adjacent. */
  predicate Collapsed(s: seq<CodeUnit>) {
    && (forall i :: 0 <= i < |s| && IsInlineWhitespace(s[i]) ==> s[i] == SPACE)
    && (forall i :: 0 < i < |s| && IsInlineWhitespace(s[i]) ==> !IsInlineWhitespace(s[i - 1]))
  }

  /** Each maximal run of inline whitespace becomes one ASCII space: a
      whitespace unit followed by another is dropped, the last of a run
      becomes SPACE. */
  function Collapse(s: Text): (r: Text)
    ensures |r| <= |s|
  {
    if |s| == 0 then []
    else if IsInlineWhitespace(s[0]) && |s| > 1 && IsInlineWhitespace(s[1]) then Collapse(s[1..])
    else if IsInlineWhitespace(s[0]) then [SPACE] + Collapse(s[1..])
    else [s[0]] + Collapse(s[1..])
  }

  /** Collapsing yields a collapsed text, starts with whitespace exactly when
      its input does, and writes no unit but SPACE. */
  lemma {:induction false} CollapseShape(s: Text)
    ensures var r := Collapse(s);
            && (|s| > 0 ==> |r| > 0 && (IsInlineWhitespace(r[0]) <==> IsInlineWhitespace(s[0])))
            && Collapsed(r)
            && (forall c :: c in r ==> c in s || c == SPACE)
  {
    if |s| > 0 {
      CollapseShape(s[1..]);
      var t := Collapse(s[1..]);
      var r := Collapse(s);
      forall c | c in t ensures c in s || c == SPACE { assert c in s[1..] || c == SPACE; }
      if !(IsInlineWhitespace(s[0]) && |s| > 1 && IsInlineWhitespace(s[1])) {
        assert r == [r[0]] + t;
        forall i | 0 < i < |r| && IsInlineWhitespace(r[i]) ensures !IsInlineWhitespace(r[i - 1]) {
          if i > 1 { assert r[i] == t[i - 1] && r[i - 1] == t[i - 2]; }
        }
      }
    }
  }

  /** The Unicode normalisation form, taken from the character data. */
  function Form(u: Unicode, f: UnicodeNormalization): Text -> Text {
    match f
    case None => (s: Text) => s
    case Nfc => u.nfc
    case Nfkc => u.nfkc
  }

  function SpaceStage(o: Options, s: Text): Text {
    if o.spaceNormalization == SpaceNormalization.ConvertUnicodeSpacesToAscii then ConvertSpaces(s) else s
  }

  /** STRIP_NONSPACING drops every code point that is a non-spacing mark,
      both units of a surrogate pair together, and keeps the rest in order. */
  function StripMarks(u: Unicode, s: Text): (r: Text)
    ensures |r| <= |s|
    ensures forall c :: c in r ==> c in s
    decreases |s|
  {
    if |s| == 0 then []
    else
      var w := Width(s, 0);
      var rest := StripMarks(u, s[w..]);
      assert forall c :: c in rest ==> c in s[w..];
      (if u.isMark(CodePointAt(s, 0)) then [] else s[..w]) + rest
  }

  function MarkStage(u: Unicode, o: Options, s: Text): Text {
    if o.combiningMarkPolicy == CombiningMarkPolicy.StripNonspacing then StripMarks(u, s) else s
  }

  /** PRESERVE_AS_INNER_WORD keeps the joiners: the tokenizer's own option
      decides whether they connect words. */
  function JoinerStage(o: Options, s: Text): Text {
    if o.joinerHandling == JoinerHandling.Remove then Delete(s, IsJoiner) else s
  }

  function ElongationStage(o: Options, s: Text): Text {
    if o.elongationHandling == ElongationHandling.Strip then Delete(s, IsElongation) else s
  }

  function DigitStage(o: Options, s: Text): Text {
    if o.digitNormalization == DigitNormalization.MapToAscii then MapDigits(s) else s
  }

  function CollapseStage(o: Options, s: Text): Text {
    if o.collapsePolicy == WhitespaceCollapse.CollapseSequences then Collapse(s) else s
  }

  /** What the deletion stages receive: newline handling, then Unicode-space
      conversion, then the normalisation form. */
  function Prepared(u: Unicode, o: Options, s: Text): Text {
    Form(u, o.unicodeNormalization)(SpaceStage(o, Newlines(o.newlinePolicy, s)))
  }

  /** What the deleting stages leave: marks, then joiners, then elongation
      characters, each as its policy says. */
  function Stripped(u: Unicode, o: Options, s: Text): Text {
    ElongationStage(o, JoinerStage(o, MarkStage(u, o, Prepared(u, o, s))))
  }

  /** The whole normalisation. Newline handling and space conversion come
      before collapsing, and the normalisation form before the character-class
      policies. Deleting a unit can bring a base next to a combining mark
      that composes with it, so the form is applied once more after the
      deleting stages. Collapsing runs last, after every stage that deletes or
      rewrites units, so that its output stays collapsed. */
  function Normalize(u: Unicode, o: Options, s: Text): Text {
    CollapseStage(o, DigitStage(o, Form(u, o.unicodeNormalization)(Stripped(u, o, s))))
  }

  /** `CharFilter.apply(text, options)`. A null text gives a null result. */
  function Apply(u: Unicode, text: Option<Text>, o: Options): (r: FilterResult)
    ensures text.None? ==> r == FilterResult(Option.None, false)
    ensures text.Some? ==> r.text.Some? && (r.changed <==> r.text.value != text.value)
  {
    match text
    case None => FilterResult(Option.None, false)
    case Some(s) =>
      var out := Normalize(u, o, s);
      FilterResult(Some(out), out != s)
  }

  // ---------------------------------------------------------------------
  // What each stage guarantees

  /** After newline handling no newline variant the policy bans is left:
      no CR under PRESERVE, only LF under NORMALIZE_TO_LF, none under REMOVE. */
  lemma {:induction false} NewlinesLeaveNoBanned(p: NewlinePolicy, s: Text)
    ensures NoneOf(Newlines(p, s), Banned(p))
    decreases |s|
  {
    if |s| > 0 {
      if s[0] == CR {
        var rest := if |s| > 1 && s[1] == LF then s[2..] else s[1..];
        NewlinesLeaveNoBanned(p, rest);
      } else {
        NewlinesLeaveNoBanned(p, s[1..]);
      }
    }
  }

  /** Newline handling leaves a text alone that has none of the banned variants. */
  lemma {:induction false} NewlinesFixpoint(p: NewlinePolicy, s: Text)
    requires NoneOf(s, Banned(p))
    ensures Newlines(p, s) == s
  {
    if |s| > 0 {
      assert s[0] in s;
      assert NoneOf(s[1..], Banned(p)) by {
        forall c | c in s[1..] ensures !Banned(p)(c) { assert c in s; }
      }
      NewlinesFixpoint(p, s[1..]);
      assert s == [s[0]] + s[1..];
    }
  }

  predicate IsCrOrLf(c: CodeUnit) { c == CR || c == LF }

  /** Newline handling touches newlines only: PRESERVE keeps every unit but CR
      and LF, NORMALIZE_TO_LF every unit but the newlines, in order, and
      REMOVE is exactly the deletion of the newlines. */
  lemma {:induction false} NewlinesKeepOthers(p: NewlinePolicy, s: Text)
    ensures p == NewlinePolicy.Preserve ==>
              Delete(Newlines(p, s), IsCrOrLf) == Delete(s, IsCrOrLf)
    ensures p == NewlinePolicy.NormalizeToLf ==>
              Delete(Newlines(p, s), IsNewline) == Delete(s, IsNewline)
    ensures p == NewlinePolicy.Remove ==> Newlines(p, s) == Delete(s, IsNewline)
    decreases |s|
  {
    if |s| > 0 {
      var r := Newlines(p, s);
      if s[0] == CR {
        var rest := if |s| > 1 && s[1] == LF then s[2..] else s[1..];
        NewlinesKeepOthers(p, rest);
        if |s| > 1 && s[1] == LF {
          assert s[1..][0] == LF && s[1..][1..] == s[2..];
        }
        if p != NewlinePolicy.Remove {
          assert r == [LF] + Newlines(p, rest);
          assert r[1..] == Newlines(p, rest);
        }
      } else {
        NewlinesKeepOthers(p, s[1..]);
        if p == NewlinePolicy.NormalizeToLf && IsNewline(s[0]) {
          assert r[1..] == Newlines(p, s[1..]);
        } else if !(p == NewlinePolicy.Remove && IsNewline(s[0])) {
          assert r[0] == s[0] && r[1..] == Newlines(p, s[1..]);
        }
      }
    }
  }

  /** What newline handling writes for the unit at i, and how many units
      it consumes there. */
  function NewlineOut(p: NewlinePolicy, s: Text, i: nat): (r: (seq<CodeUnit>, nat))
    requires i < |s|
    ensures 1 <= r.1 <= |s| - i
  {
    if s[i] == CR then
      ((if p == NewlinePolicy.Remove then [] else [LF]), if i + 1 < |s| && s[i + 1] == LF then 2 else 1)
    else if p == NewlinePolicy.Remove && IsNewline(s[i]) then ([], 1)
    else if p == NewlinePolicy.NormalizeToLf && IsNewline(s[i]) then ([LF], 1)
    else ([s[i]], 1)
  }

  /** One step of newline handling from index i. */
  lemma NewlinesStep(p: NewlinePolicy, s: Text, i: nat)
    requires i < |s|
    ensures Newlines(p, s[i..]) == NewlineOut(p, s, i).0 + Newlines(p, s[i + NewlineOut(p, s, i).1..])
  {
    var rest := s[i..];
    assert rest[0] == s[i];
    assert rest[1..] == s[i + 1..];
    if |rest| > 1 {
      assert rest[1] == s[i + 1] && rest[2..] == s[i + 2..];
    }
  }

  /** Newline handling works piecewise across any cut that does not fall
      between the CR and the LF of a CRLF pair. */
  lemma {:induction false} NewlinesSplit(p: NewlinePolicy, a: Text, b: Text)
    requires |a + b| <= INT_MAX
    requires !(|a| > 0 && a[|a| - 1] == CR && |b| > 0 && b[0] == LF)
    ensures Newlines(p, a + b) == Newlines(p, a) + Newlines(p, b)
    decreases |a|
  {
    if |a| == 0 {
      assert a + b == b;
    } else {
      var tail := a[NewlineOut(p, a, 0).1..];
      SplitHead(p, a, b);
      NewlinesSplit(p, tail, b);
      SplitJoin(p, a, b);
    }
  }

  /** One step of the induction behind NewlinesSplit: if the cut is piecewise
      for what the first step of a leaves, it is piecewise for a. */
  lemma SplitJoin(p: NewlinePolicy, a: Text, b: Text)
    requires |a + b| <= INT_MAX && |a| > 0
    requires !(a[|a| - 1] == CR && |b| > 0 && b[0] == LF)
    requires var tail := a[NewlineOut(p, a, 0).1..];
             Newlines(p, tail + b) == Newlines(p, tail) + Newlines(p, b)
    ensures Newlines(p, a + b) == Newlines(p, a) + Newlines(p, b)
  {
    var out := NewlineOut(p, a, 0);
    var tail := a[out.1..];
    SplitHead(p, a, b);
    HeadStep(p, a + b);
    HeadStep(p, a);
    Regroup(out.0, Newlines(p, tail), Newlines(p, b));
  }

  lemma Regroup(x: seq<CodeUnit>, y: seq<CodeUnit>, z: seq<CodeUnit>)
    ensures x + (y + z) == (x + y) + z
  {
  }

  /** Newline handling of a text is its first step followed by the handling
      of what that step leaves. */
  lemma HeadStep(p: NewlinePolicy, a: Text)
    requires |a| > 0
    ensures Newlines(p, a) == NewlineOut(p, a, 0).0 + Newlines(p, a[NewlineOut(p, a, 0).1..])
  {
    NewlinesStep(p, a, 0);
    assert a[0..] == a;
  }

  /** The first step of newline handling on a + b is the first step on a,
      unless it would join a final CR of a with an initial LF of b. */
  lemma SplitHead(p: NewlinePolicy, a: Text, b: Text)
    requires |a + b| <= INT_MAX && |a| > 0
    requires !(a[|a| - 1] == CR && |b| > 0 && b[0] == LF)
    ensures NewlineOut(p, a + b, 0) == NewlineOut(p, a, 0)
    ensures var tail := a[NewlineOut(p, a, 0).1..];
            && (a + b)[NewlineOut(p, a, 0).1..] == tail + b
            && (|tail| > 0 ==> tail[|tail| - 1] == a[|a| - 1])
  {
    assert (a + b)[0] == a[0];
    assert |a| > 1 ==> (a + b)[1] == a[1];
  }

  /** Under PRESERVE and NORMALIZE_TO_LF a CRLF pair anywhere in the text
      becomes one LF, and so does a CR not followed by LF; under REMOVE both
      disappear. The text around them is handled as if they were not there. */
  lemma CrLfBecomesOneLf(p: NewlinePolicy, a: Text, b: Text)
    requires |a| + 2 + |b| <= INT_MAX
    ensures var lf := if p == NewlinePolicy.Remove then [] else [LF];
            && Newlines(p, a + ([CR, LF] + b)) == Newlines(p, a) + (lf + Newlines(p, b))
            && (|b| == 0 || b[0] != LF ==>
                  Newlines(p, a + ([CR] + b)) == Newlines(p, a) + (lf + Newlines(p, b)))
  {
    var pair: Text := [CR, LF] + b;
    NewlinesSplit(p, a, pair);
    assert pair[1..][1..] == b;
    if |b| == 0 || b[0] != LF {
      var lone: Text := [CR] + b;
      NewlinesSplit(p, a, lone);
      assert lone[1..] == b;
    }
  }

  lemma ConvertSpacesLeavesNone(s: Text)
    ensures NoneOf(ConvertSpaces(s), IsUnicodeSpace)
  {
  }

  lemma ConvertSpacesFixpoint(s: Text)
    requires NoneOf(s, IsUnicodeSpace)
    ensures ConvertSpaces(s) == s
  {
    forall i | 0 <= i < |s| ensures ConvertSpaces(s)[i] == s[i] { assert s[i] in s; }
  }

  lemma MapDigitsLeavesNone(s: Text)
    ensures NoneOf(MapDigits(s), IsScriptDigit)
    ensures forall c :: c in MapDigits(s) ==> c in s || IsAsciiDigit(c)
  {
    var r := MapDigits(s);
    forall c | c in r ensures !IsScriptDigit(c) && (c in s || IsAsciiDigit(c)) {
      var i :| 0 <= i < |r| && r[i] == c;
    }
  }

  lemma MapDigitsFixpoint(s: Text)
    requires NoneOf(s, IsScriptDigit)
    ensures MapDigits(s) == s
  {
    forall i | 0 <= i < |s| ensures MapDigits(s)[i] == s[i] { assert s[i] in s; }
  }

  /** Collapsing leaves an already collapsed text alone. */
  lemma {:induction false} CollapseFixpoint(s: Text)
    requires Collapsed(s)
    ensures Collapse(s) == s
  {
    if |s| > 0 {
      assert Collapsed(s[1..]) by {
        forall i | 0 < i < |s[1..]| && IsInlineWhitespace(s[1..][i])
          ensures !IsInlineWhitespace(s[1..][i - 1])
        {
          assert s[1..][i] == s[i + 1] && s[1..][i - 1] == s[i];
        }
      }
      if IsInlineWhitespace(s[0]) && |s| > 1 {
        assert !IsInlineWhitespace(s[1]);
      }
      CollapseFixpoint(s[1..]);
      assert s == [s[0]] + s[1..];
    }
  }

  /** Collapsing changes whitespace only: the other units survive, in order. */
  lemma {:induction false} CollapseKeepsContent(s: Text)
    ensures Delete(Collapse(s), IsInlineWhitespace) == Delete(s, IsInlineWhitespace)
  {
    if |s| > 0 {
      CollapseKeepsContent(s[1..]);
      var r := Collapse(s);
      if IsInlineWhitespace(s[0]) && |s| > 1 && IsInlineWhitespace(s[1]) {
      } else {
        assert r[1..] == Collapse(s[1..]);
      }
    }
  }

  // ---------------------------------------------------------------------
  // What the whole filter guarantees

  /** What the model relies on about a normalisation form F. Each law holds
      of no form at all (IdentityLaws) and is a property of Unicode NFC and
      NFKC: normalising twice is normalising once; no newline and no Unicode
      space separator is introduced; digit mapping and whitespace collapsing,
      which only exchange or drop units that take part in no composition,
      keep a normalised text normalised; renormalising what is left of a
      normalised text after units were deleted creates no joiner, elongation
      character or non-spacing mark, since composition produces none of
      them; and well-formed UTF-16 stays well-formed. */
  ghost predicate NormaliserLaws(u: Unicode, F: Text -> Text) {
    && (forall s: Text {:trigger F(F(s))} :: F(F(s)) == F(s))
    && (forall s: Text, c: CodeUnit :: c in F(s) && IsNewline(c) ==> c in s)
    && (forall s: Text :: NoneOf(s, IsUnicodeSpace) ==> NoneOf(F(s), IsUnicodeSpace))
    && (forall s: Text {:trigger F(MapDigits(s))} :: F(s) == s ==> F(MapDigits(s)) == MapDigits(s))
    && (forall s: Text {:trigger F(Collapse(s))} :: F(s) == s ==> F(Collapse(s)) == Collapse(s))
    && (forall r: Text, s: Text :: IsSubsequence(s, F(r)) && NoneOf(s, IsJoiner) ==> NoneOf(F(s), IsJoiner))
    && (forall r: Text, s: Text :: IsSubsequence(s, F(r)) && NoneOf(s, IsElongation) ==> NoneOf(F(s), IsElongation))
    && (forall r: Text, s: Text :: IsSubsequence(s, F(r)) && Paired(s) && NoMarks(u, s) ==> NoMarks(u, F(s)))
    && (forall s: Text :: Paired(s) ==> Paired(F(s)))
  }

  ghost predicate FormLaws(u: Unicode, f: UnicodeNormalization) {
    NormaliserLaws(u, Form(u, f))
  }

  /** Without a normalisation form there is nothing to rely on. */
  lemma IdentityLaws(u: Unicode)
    ensures FormLaws(u, UnicodeNormalization.None)
  {
  }

  /** The output properties every policy promises, taken together. */
  predicate Normal(u: Unicode, o: Options, y: Text) {
    && NoneOf(y, Banned(o.newlinePolicy))
    && (o.spaceNormalization == SpaceNormalization.ConvertUnicodeSpacesToAscii ==> NoneOf(y, IsUnicodeSpace))
    && (o.combiningMarkPolicy == CombiningMarkPolicy.StripNonspacing ==> NoMarks(u, y))
    && (o.joinerHandling == JoinerHandling.Remove ==> NoneOf(y, IsJoiner))
    && (o.elongationHandling == ElongationHandling.Strip ==> NoneOf(y, IsElongation))
    && (o.digitNormalization == DigitNormalization.MapToAscii ==> NoneOf(y, IsScriptDigit))
    && (o.collapsePolicy == WhitespaceCollapse.CollapseSequences ==> Collapsed(y))
  }

  /** The only units the stages after the second normalisation write. */
  predicate IsProduced(c: CodeUnit) { c == SPACE || IsAsciiDigit(c) }

  /** Every unit of r comes from s or is one that a stage writes. */
  predicate DrawsFrom(r: seq<CodeUnit>, s: seq<CodeUnit>) {
    forall c :: c in r ==> c in s || IsProduced(c)
  }

  lemma Transfer(r: seq<CodeUnit>, s: seq<CodeUnit>, p: CodeUnit -> bool)
    requires DrawsFrom(r, s) && NoneOf(s, p)
    requires !p(SPACE) && forall d: CodeUnit :: IsAsciiDigit(d) ==> !p(d)
    ensures NoneOf(r, p)
  {
  }

  // Reading code points at the front of a text.

  lemma ConsUnit(u: Unicode, c: CodeUnit, x: seq<CodeUnit>)
    requires !IsSurrogate(c)
    ensures Paired([c] + x) <==> Paired(x)
    ensures NoMarks(u, [c] + x) <==> !u.isMark(c) && NoMarks(u, x)
  {
    assert ([c] + x)[1..] == x;
  }

  lemma ConsPair(u: Unicode, s: seq<CodeUnit>, x: seq<CodeUnit>)
    requires PairAt(s, 0)
    ensures Paired(s[..2] + x) <==> Paired(x)
    ensures NoMarks(u, s[..2] + x) <==> !u.isMark(CodePointAt(s, 0)) && NoMarks(u, x)
  {
    var t := s[..2] + x;
    assert t[2..] == x;
    assert t[0] == s[0] && t[1] == s[1] && PairAt(t, 0);
    assert CodePointAt(t, 0) == CodePointAt(s, 0);
  }

  /** A well-formed text starting with a high surrogate starts with a pair. */
  lemma PairedHead(s: seq<CodeUnit>)
    requires Paired(s) && |s| > 0
    ensures IsHighSurrogate(s[0]) ==> (PairAt(s, 0) && Paired(s[2..]) && s == s[..2] + s[2..])
    ensures !IsHighSurrogate(s[0]) ==> (!IsSurrogate(s[0]) && Paired(s[1..]) && s == [s[0]] + s[1..])
  {
  }

  // Which stages keep the text well-formed and free of marks.

  lemma {:induction false} NewlinesKeepPaired(p: NewlinePolicy, s: Text)
    requires Paired(s)
    ensures Paired(Newlines(p, s))
    decreases |s|
  {
    if |s| > 0 {
      PairedHead(s);
      if s[0] == CR {
        var rest := if |s| > 1 && s[1] == LF then s[2..] else s[1..];
        if |s| > 1 && s[1] == LF {
          PairedHead(s[1..]);
          assert s[1..][1..] == s[2..];
        }
        NewlinesKeepPaired(p, rest);
        NewlinesPairedAtCr(p, s);
      } else if IsHighSurrogate(s[0]) {
        NewlinesKeepPaired(p, s[2..]);
        NewlinesPairedAtPair(p, s);
      } else {
        NewlinesKeepPaired(p, s[1..]);
        NewlinesPairedAtUnit(p, s);
      }
    }
  }

  lemma NewlinesPairedAtCr(p: NewlinePolicy, s: Text)
    requires |s| > 0 && s[0] == CR
    requires Paired(Newlines(p, if |s| > 1 && s[1] == LF then s[2..] else s[1..]))
    ensures Paired(Newlines(p, s))
  {
    var rest := if |s| > 1 && s[1] == LF then s[2..] else s[1..];
    var u := Unicode(s => s, s => s, c => false, c => false, c => false);
    if p == NewlinePolicy.Remove {
      assert Newlines(p, s) == Newlines(p, rest);
    } else {
      ConsUnit(u, LF, Newlines(p, rest));
    }
  }

  lemma NewlinesPairedAtPair(p: NewlinePolicy, s: Text)
    requires PairAt(s, 0) && Paired(Newlines(p, s[2..]))
    ensures Paired(Newlines(p, s))
  {
    var u := Unicode(s => s, s => s, c => false, c => false, c => false);
    var t := s[1..];
    assert t[0] == s[1] && t[1..] == s[2..];
    assert Newlines(p, t) == [s[1]] + Newlines(p, s[2..]);
    assert Newlines(p, s) == s[..2] + Newlines(p, s[2..]);
    ConsPair(u, s, Newlines(p, s[2..]));
  }

  lemma NewlinesPairedAtUnit(p: NewlinePolicy, s: Text)
    requires |s| > 0 && !IsSurrogate(s[0]) && s[0] != CR && Paired(Newlines(p, s[1..]))
    ensures Paired(Newlines(p, s))
  {
    var u := Unicode(s => s, s => s, c => false, c => false, c => false);
    if !IsNewline(s[0]) || p == NewlinePolicy.Preserve {
      ConsUnit(u, s[0], Newlines(p, s[1..]));
    } else if p == NewlinePolicy.NormalizeToLf {
      ConsUnit(u, LF, Newlines(p, s[1..]));
    }
  }

  /** A one-for-one rewriting that leaves surrogates alone and writes no
      surrogate keeps the text well-formed, and when every unit it writes is
      no mark it keeps a text free of marks. */
  lemma {:induction false} PointwiseKeeps(u: Unicode, s: seq<CodeUnit>, r: seq<CodeUnit>)
    requires |r| == |s| && Paired(s)
    requires forall i :: 0 <= i < |s| ==>
               if IsSurrogate(s[i]) then r[i] == s[i]
               else !IsSurrogate(r[i]) && (r[i] == s[i] || !u.isMark(r[i]))
    ensures Paired(r)
    ensures NoMarks(u, s) ==> NoMarks(u, r)
    decreases |s|
  {
    if |s| > 0 {
      PairedHead(s);
      if IsHighSurrogate(s[0]) {
        PointwiseKeeps(u, s[2..], r[2..]);
        assert r == s[..2] + r[2..];
        ConsPair(u, s, s[2..]);
        ConsPair(u, s, r[2..]);
      } else {
        PointwiseKeeps(u, s[1..], r[1..]);
        assert r == [r[0]] + r[1..];
        ConsUnit(u, s[0], s[1..]);
        ConsUnit(u, r[0], r[1..]);
      }
    }
  }

  lemma ConvertSpacesKeepPaired(u: Unicode, s: Text)
    requires Paired(s)
    ensures Paired(ConvertSpaces(s))
  {
    PointwiseKeeps(Unicode(s => s, s => s, c => false, c => false, c => false), s, ConvertSpaces(s));
  }

  lemma MapDigitsKeep(u: Unicode, s: Text)
    requires WellFormed(u) && Paired(s)
    ensures Paired(MapDigits(s)) && (NoMarks(u, s) ==> NoMarks(u, MapDigits(s)))
  {
    PointwiseKeeps(u, s, MapDigits(s));
  }

  /** Deleting units that are never surrogates keeps the text well-formed and
      free of marks. */
  lemma {:induction false} DeleteKeeps(u: Unicode, s: Text, p: CodeUnit -> bool)
    requires Paired(s)
    requires forall c: CodeUnit :: p(c) ==> !IsSurrogate(c)
    ensures Paired(Delete(s, p))
    ensures NoMarks(u, s) ==> NoMarks(u, Delete(s, p))
    decreases |s|
  {
    if |s| > 0 {
      PairedHead(s);
      if IsHighSurrogate(s[0]) {
        DeleteKeeps(u, s[2..], p);
        var t := s[1..];
        assert t[0] == s[1] && t[1..] == s[2..];
        assert Delete(s, p) == s[..2] + Delete(s[2..], p);
        ConsPair(u, s, s[2..]);
        ConsPair(u, s, Delete(s[2..], p));
      } else {
        DeleteKeeps(u, s[1..], p);
        ConsUnit(u, s[0], s[1..]);
        if !p(s[0]) {
          ConsUnit(u, s[0], Delete(s[1..], p));
        }
      }
    }
  }

  /** Collapsing keeps the text well-formed and free of marks. */
  lemma {:induction false} CollapseKeeps(u: Unicode, s: Text)
    requires WellFormed(u) && Paired(s)
    ensures Paired(Collapse(s))
    ensures NoMarks(u, s) ==> NoMarks(u, Collapse(s))
    decreases |s|
  {
    if |s| > 0 {
      PairedHead(s);
      if IsHighSurrogate(s[0]) {
        CollapseKeeps(u, s[2..]);
        var t := s[1..];
        assert t[0] == s[1] && t[1..] == s[2..];
        assert Collapse(s) == s[..2] + Collapse(s[2..]);
        ConsPair(u, s, s[2..]);
        ConsPair(u, s, Collapse(s[2..]));
      } else {
        CollapseKeeps(u, s[1..]);
        ConsUnit(u, s[0], s[1..]);
        if !(IsInlineWhitespace(s[0]) && |s| > 1 && IsInlineWhitespace(s[1])) {
          if IsInlineWhitespace(s[0]) {
            ConsUnit(u, SPACE, Collapse(s[1..]));
          } else {
            ConsUnit(u, s[0], Collapse(s[1..]));
          }
        }
      }
    }
  }

  /** Stripping marks from well-formed text leaves no mark and keeps it
      well-formed. */
  lemma {:induction false} StripMarksLeavesNone(u: Unicode, s: Text)
    requires Paired(s)
    ensures Paired(StripMarks(u, s)) && NoMarks(u, StripMarks(u, s))
    decreases |s|
  {
    if |s| > 0 {
      PairedHead(s);
      if IsHighSurrogate(s[0]) {
        StripMarksLeavesNone(u, s[2..]);
        ConsPair(u, s, StripMarks(u, s[2..]));
        if u.isMark(CodePointAt(s, 0)) {
          assert StripMarks(u, s) == StripMarks(u, s[2..]);
        }
      } else {
        StripMarksLeavesNone(u, s[1..]);
        assert s[..1] == [s[0]];
        ConsUnit(u, s[0], StripMarks(u, s[1..]));
        if u.isMark(s[0]) {
          assert StripMarks(u, s) == StripMarks(u, s[1..]);
        }
      }
    }
  }

  /** Stripping marks from a text without marks changes nothing. */
  lemma {:induction false} StripMarksFixpoint(u: Unicode, s: Text)
    requires NoMarks(u, s)
    ensures StripMarks(u, s) == s
    decreases |s|
  {
    if |s| > 0 {
      var w := Width(s, 0);
      StripMarksFixpoint(u, s[w..]);
      assert s == s[..w] + s[w..];
    }
  }

  /** Stripping marks only deletes. */
  lemma {:induction false} StripMarksSubsequence(u: Unicode, s: Text)
    ensures IsSubsequence(StripMarks(u, s), s)
    decreases |s|
  {
    if |s| > 0 {
      var w := Width(s, 0);
      var rest := StripMarks(u, s[w..]);
      StripMarksSubsequence(u, s[w..]);
      assert s == s[..w] + s[w..];
      if u.isMark(CodePointAt(s, 0)) {
        SubsequenceSkip(rest, s[..w], s[w..]);
        assert StripMarks(u, s) == rest;
      } else {
        SubsequenceKeep(rest, s[..w], s[w..]);
      }
    }
  }

  /** An unpaired high and low surrogate around a mark fuse into one code
      point once the mark is stripped: "\uD834\u0301\uDD67" becomes
      U+1D167, itself a non-spacing mark, so stripping is only complete on
      well-formed text. */
  lemma StripFusesUnpairedSurrogates(u: Unicode)
    requires u.isMark(0x0301) && u.isMark(0x1D167)
    requires !u.isMark(0xD834) && !u.isMark(0xDD67)
    ensures var r := StripMarks(u, [0xD834, 0x0301, 0xDD67]);
            r == [0xD834, 0xDD67] && !NoMarks(u, r)
  {
    var s: Text := [0xD834, 0x0301, 0xDD67];
    assert !PairAt(s, 0) && CodePointAt(s, 0) == 0xD834;
    assert s[1..] == [0x0301, 0xDD67];
    assert CodePointAt(s[1..], 0) == 0x0301;
    assert s[1..][1..] == [0xDD67];
    assert StripMarks(u, [0xDD67]) == [0xDD67];
    var r: seq<CodeUnit> := [0xD834, 0xDD67];
    assert PairAt(r, 0) && CodePointAt(r, 0) == 0x1D167;
  }

  // The guarantees, stage group by stage group.

  /** What the deletion stages receive: no banned newline, no Unicode space
      after conversion, the normal form, and well-formed UTF-16 if the input
      was. */
  lemma PreparedFacts(u: Unicode, o: Options, s: Text)
    requires FormLaws(u, o.unicodeNormalization)
    ensures var t := Prepared(u, o, s);
            && NoneOf(t, Banned(o.newlinePolicy))
            && (o.spaceNormalization == SpaceNormalization.ConvertUnicodeSpacesToAscii ==> NoneOf(t, IsUnicodeSpace))
            && (Paired(s) ==> Paired(t))
  {
    var F := Form(u, o.unicodeNormalization);
    var a := Newlines(o.newlinePolicy, s);
    var b := SpaceStage(o, a);
    NewlinesLeaveNoBanned(o.newlinePolicy, s);
    ConvertSpacesLeavesNone(a);
    assert NoneOf(b, Banned(o.newlinePolicy));
    var t := F(b);
    forall x | x in t ensures !Banned(o.newlinePolicy)(x) {
      if IsNewline(x) {
        assert x in b;
      }
    }
    if Paired(s) {
      NewlinesKeepPaired(o.newlinePolicy, s);
      ConvertSpacesKeepPaired(u, a);
    }
  }

  /** The deletion stages only delete, and leave none of what they delete. */
  lemma StrippedFacts(u: Unicode, o: Options, s: Text)
    requires FormLaws(u, o.unicodeNormalization)
    ensures var t := Prepared(u, o, s);
            var v := Stripped(u, o, s);
            && IsSubsequence(v, t)
            && (forall c :: c in v ==> c in t)
            && (o.joinerHandling == JoinerHandling.Remove ==> NoneOf(v, IsJoiner))
            && (o.elongationHandling == ElongationHandling.Strip ==> NoneOf(v, IsElongation))
            && (o.combiningMarkPolicy == CombiningMarkPolicy.StripNonspacing && Paired(s) ==>
                  Paired(v) && NoMarks(u, v))
  {
    var t := Prepared(u, o, s);
    var m := MarkStage(u, o, t);
    var j := JoinerStage(o, m);
    var v := ElongationStage(o, j);
    if o.combiningMarkPolicy == CombiningMarkPolicy.StripNonspacing {
      StripMarksSubsequence(u, t);
    } else {
      SubsequenceRefl(t);
    }
    if o.joinerHandling != JoinerHandling.Remove {
      SubsequenceRefl(m);
    }
    if o.elongationHandling != ElongationHandling.Strip {
      SubsequenceRefl(j);
    }
    SubsequenceTrans(j, m, t);
    SubsequenceTrans(v, j, t);
    if o.combiningMarkPolicy == CombiningMarkPolicy.StripNonspacing && Paired(s) {
      PreparedFacts(u, o, s);
      StripMarksLeavesNone(u, t);
      if o.joinerHandling == JoinerHandling.Remove {
        DeleteKeeps(u, m, IsJoiner);
      }
      if o.elongationHandling == ElongationHandling.Strip {
        DeleteKeeps(u, j, IsElongation);
      }
    }
  }

  /** After the second normalisation: still none of what the earlier stages
      removed, and in normal form. */
  lemma RecomposedFacts(u: Unicode, o: Options, s: Text)
    requires FormLaws(u, o.unicodeNormalization)
    ensures var F := Form(u, o.unicodeNormalization);
            var z := F(Stripped(u, o, s));
            && F(z) == z
            && NoneOf(z, Banned(o.newlinePolicy))
            && (o.spaceNormalization == SpaceNormalization.ConvertUnicodeSpacesToAscii ==> NoneOf(z, IsUnicodeSpace))
            && (o.joinerHandling == JoinerHandling.Remove ==> NoneOf(z, IsJoiner))
            && (o.elongationHandling == ElongationHandling.Strip ==> NoneOf(z, IsElongation))
            && (o.combiningMarkPolicy == CombiningMarkPolicy.StripNonspacing && Paired(s) ==>
                  Paired(z) && NoMarks(u, z))
  {
    var F := Form(u, o.unicodeNormalization);
    var b := SpaceStage(o, Newlines(o.newlinePolicy, s));
    var t := Prepared(u, o, s);
    assert t == F(b);
    var v := Stripped(u, o, s);
    var z := F(v);
    PreparedFacts(u, o, s);
    StrippedFacts(u, o, s);
    assert IsSubsequence(v, F(b));
    forall x | x in z ensures !Banned(o.newlinePolicy)(x) {
      if IsNewline(x) {
        assert x in v;
      }
    }
    if o.spaceNormalization == SpaceNormalization.ConvertUnicodeSpacesToAscii {
      assert NoneOf(v, IsUnicodeSpace);
    }
  }

  /** The stages after the second normalisation: digit mapping and
      collapsing write only SPACE and ASCII digits, keep the normal form and
      keep a well-formed text free of marks. */
  lemma TailFacts(u: Unicode, o: Options, z: Text)
    requires WellFormed(u) && FormLaws(u, o.unicodeNormalization)
    requires Form(u, o.unicodeNormalization)(z) == z
    ensures var g := DigitStage(o, z);
            var y := CollapseStage(o, g);
            && DrawsFrom(y, z) && DrawsFrom(y, g)
            && Form(u, o.unicodeNormalization)(y) == y
            && (o.digitNormalization == DigitNormalization.MapToAscii ==> NoneOf(y, IsScriptDigit))
            && (o.collapsePolicy == WhitespaceCollapse.CollapseSequences ==> Collapsed(y))
            && (Paired(z) && NoMarks(u, z) ==> NoMarks(u, y))
  {
    var g := DigitStage(o, z);
    var y := CollapseStage(o, g);
    MapDigitsLeavesNone(z);
    CollapseShape(g);
    if Paired(z) && NoMarks(u, z) {
      if o.digitNormalization == DigitNormalization.MapToAscii {
        MapDigitsKeep(u, z);
      }
      if o.collapsePolicy == WhitespaceCollapse.CollapseSequences {
        CollapseKeeps(u, g);
      }
    }
  }

  /** The filter's output meets every promise of the options: no banned
      newline variant, no Unicode space after conversion, no stripped mark,
      joiner, elongation character or script digit, and collapsed
      whitespace; and it is in the chosen normalisation form. Marks are
      stripped completely from well-formed UTF-16. */
  lemma ApplyGuarantees(u: Unicode, o: Options, s: Text)
    requires WellFormed(u) && FormLaws(u, o.unicodeNormalization)
    requires o.combiningMarkPolicy == CombiningMarkPolicy.StripNonspacing ==> Paired(s)
    ensures var y := Apply(u, Some(s), o).text.value;
            Normal(u, o, y) && Form(u, o.unicodeNormalization)(y) == y
  {
    var F := Form(u, o.unicodeNormalization);
    var z := F(Stripped(u, o, s));
    var g := DigitStage(o, z);
    var y := CollapseStage(o, g);
    assert y == Normalize(u, o, s);
    RecomposedFacts(u, o, s);
    TailFacts(u, o, z);
    TransferDeleted(o, y, z);
  }

  /** What the stages before digit mapping removed stays removed. */
  lemma TransferDeleted(o: Options, y: Text, z: Text)
    requires DrawsFrom(y, z) && NoneOf(z, Banned(o.newlinePolicy))
    requires o.spaceNormalization == SpaceNormalization.ConvertUnicodeSpacesToAscii ==> NoneOf(z, IsUnicodeSpace)
    requires o.joinerHandling == JoinerHandling.Remove ==> NoneOf(z, IsJoiner)
    requires o.elongationHandling == ElongationHandling.Strip ==> NoneOf(z, IsElongation)
    ensures NoneOf(y, Banned(o.newlinePolicy))
    ensures o.spaceNormalization == SpaceNormalization.ConvertUnicodeSpacesToAscii ==> NoneOf(y, IsUnicodeSpace)
    ensures o.joinerHandling == JoinerHandling.Remove ==> NoneOf(y, IsJoiner)
    ensures o.elongationHandling == ElongationHandling.Strip ==> NoneOf(y, IsElongation)
  {
    Transfer(y, z, Banned(o.newlinePolicy));
    if o.spaceNormalization == SpaceNormalization.ConvertUnicodeSpacesToAscii {
      Transfer(y, z, IsUnicodeSpace);
    }
    if o.joinerHandling == JoinerHandling.Remove {
      Transfer(y, z, IsJoiner);
    }
    if o.elongationHandling == ElongationHandling.Strip {
      Transfer(y, z, IsElongation);
    }
  }

  /** A text that meets every promise and is in the chosen normal form
      passes through the filter unchanged. */
  lemma NormalIsFixed(u: Unicode, o: Options, y: Text)
    requires Normal(u, o, y)
    requires Form(u, o.unicodeNormalization)(y) == y
    ensures Normalize(u, o, y) == y
  {
    NewlinesFixpoint(o.newlinePolicy, y);
    if o.spaceNormalization == SpaceNormalization.ConvertUnicodeSpacesToAscii {
      ConvertSpacesFixpoint(y);
    }
    assert Prepared(u, o, y) == y;
    if o.combiningMarkPolicy == CombiningMarkPolicy.StripNonspacing {
      StripMarksFixpoint(u, y);
    }
    if o.joinerHandling == JoinerHandling.Remove {
      DeleteFixpoint(y, IsJoiner);
    }
    if o.elongationHandling == ElongationHandling.Strip {
      DeleteFixpoint(y, IsElongation);
    }
    assert Stripped(u, o, y) == y;
    if o.digitNormalization == DigitNormalization.MapToAscii {
      MapDigitsFixpoint(y);
    }
    if o.collapsePolicy == WhitespaceCollapse.CollapseSequences {
      CollapseFixpoint(y);
    }
  }

  /** Idempotence, `apply(apply(x).text) == Result(apply(x).text, false)`,
      for every policy and either normalisation form, given the laws of the
      form; when marks are stripped the input must be well-formed UTF-16. */
  lemma Idempotent(u: Unicode, o: Options, text: Option<Text>)
    requires WellFormed(u) && FormLaws(u, o.unicodeNormalization)
    requires text.Some? && o.combiningMarkPolicy == CombiningMarkPolicy.StripNonspacing ==> Paired(text.value)
    ensures Apply(u, Apply(u, text, o).text, o) == FilterResult(Apply(u, text, o).text, false)
  {
    if text.Some? {
      var y := Normalize(u, o, text.value);
      ApplyGuarantees(u, o, text.value);
      NormalIsFixed(u, o, y);
    }
  }

  /** Idempotence with no normalisation form, with nothing assumed of the
      character data beyond ASCII. */
  lemma IdempotentWithoutForm(u: Unicode, o: Options, text: Option<Text>)
    requires WellFormed(u)
    requires o.unicodeNormalization == UnicodeNormalization.None
    requires text.Some? && o.combiningMarkPolicy == CombiningMarkPolicy.StripNonspacing ==> Paired(text.value)
    ensures Apply(u, Apply(u, text, o).text, o) == FilterResult(Apply(u, text, o).text, false)
  {
    IdentityLaws(u);
    Idempotent(u, o, text);
  }

  /** The null/empty policy: null gives (null, false), "" gives ("", false). */
  lemma ApplyNullAndEmpty(u: Unicode, o: Options)
    requires WellFormed(u)
    ensures Apply(u, Option.None, o) == FilterResult(Option.None, false)
    ensures Apply(u, Some([]), o) == FilterResult(Some([]), false)
  {
    var e: Text := [];
    assert AllAscii(e);
    assert Form(u, o.unicodeNormalization)(e) == e;
  }

  // ---------------------------------------------------------------------
  // Precedence

  /** "foo\t  bar\n  baz" as UTF-16 code units. */
  predicate IsPrecedenceInput(x: Text) {
    x == [0x66, 0x6F, 0x6F] + (([0x09, 0x20, 0x20] + [0x62, 0x61, 0x72, 0x0A]) + ([0x20, 0x20] + [0x62, 0x61, 0x7A]))
  }

  /** "foo bar\n baz" as UTF-16 code units. */
  predicate IsPrecedenceOutput(y: Text) {
    y == [0x66, 0x6F, 0x6F] + (([SPACE] + [0x62, 0x61, 0x72, 0x0A]) + ([SPACE] + [0x62, 0x61, 0x7A]))
  }

  /** With the standard options, "foo\t  bar\n  baz" becomes "foo bar\n baz":
      the newline is kept and each side's whitespace collapses on its own. */
  lemma StandardPrecedenceExample(u: Unicode, x: Text)
    requires WellFormed(u) && IsPrecedenceInput(x)
    ensures var r := Apply(u, Some(x), Standard());
            r.text.Some? && IsPrecedenceOutput(r.text.value) && r.changed
  {
    var o := Standard();
    PrecedenceInputIsPlain(x);
    NewlinesFixpoint(o.newlinePolicy, x);
    ConvertSpacesFixpoint(x);
    assert Prepared(u, o, x) == x;
    DeleteFixpoint(x, IsElongation);
    assert Normalize(u, o, x) == Collapse(x);
    CollapseStandardExample(x);
  }

  /** The example input is ASCII and holds no carriage return, Unicode space
      or elongation character. */
  lemma PrecedenceInputIsPlain(x: Text)
    requires IsPrecedenceInput(x)
    ensures AllAscii(x)
    ensures NoneOf(x, Banned(NewlinePolicy.Preserve)) && NoneOf(x, IsUnicodeSpace) && NoneOf(x, IsElongation)
  {
    assert forall c :: c in x ==> c < 0x80;
  }

  /** Collapsing works piecewise across a cut that follows a non-whitespace unit. */
  lemma {:induction false} CollapseAppend(a: Text, b: Text)
    requires |a| > 0 && !IsInlineWhitespace(a[|a| - 1]) && |a + b| <= INT_MAX
    ensures Collapse(a + b) == Collapse(a) + Collapse(b)
  {
    assert (a + b)[0] == a[0];
    assert (a + b)[1..] == a[1..] + b;
    if |a| > 1 {
      CollapseAppend(a[1..], b);
      assert (a + b)[1] == a[1];
    }
  }

  /** A run of inline whitespace before a non-whitespace unit (or the end)
      collapses to one SPACE. */
  lemma {:induction false} CollapseRun(w: Text, rest: Text)
    requires |w| > 0 && |w + rest| <= INT_MAX
    requires forall i :: 0 <= i < |w| ==> IsInlineWhitespace(w[i])
    requires |rest| > 0 ==> !IsInlineWhitespace(rest[0])
    ensures Collapse(w + rest) == [SPACE] + Collapse(rest)
    decreases |w|
  {
    assert (w + rest)[0] == w[0];
    assert (w + rest)[1..] == w[1..] + rest;
    if |w| > 1 {
      assert (w + rest)[1] == w[1];
      CollapseRun(w[1..], rest);
    } else {
      assert w[1..] + rest == rest;
    }
  }

  /** A text with no inline whitespace is left as it is. */
  lemma CollapsePlain(s: Text)
    requires forall i :: 0 <= i < |s| ==> !IsInlineWhitespace(s[i])
    ensures Collapse(s) == s
  {
    CollapseFixpoint(s);
  }

  lemma CollapseWordAfterRun(w: Text, b: Text)
    requires |w| > 0 && |w + b| <= INT_MAX
    requires forall i :: 0 <= i < |w| ==> IsInlineWhitespace(w[i])
    requires forall i :: 0 <= i < |b| ==> !IsInlineWhitespace(b[i])
    ensures Collapse(w + b) == [SPACE] + b
  {
    CollapseRun(w, b);
    CollapsePlain(b);
  }

  /** A word, a whitespace run, a word ending in a newline, another run and a
      final word: each run becomes one SPACE and nothing else changes. */
  lemma CollapseTwoRuns(a: Text, w1: Text, b: Text, w2: Text, c: Text)
    requires |a + ((w1 + b) + (w2 + c))| <= INT_MAX
    requires |a| > 0 && |w1| > 0 && |b| > 0 && |w2| > 0
    requires forall i :: 0 <= i < |a| ==> !IsInlineWhitespace(a[i])
    requires forall i :: 0 <= i < |b| ==> !IsInlineWhitespace(b[i])
    requires forall i :: 0 <= i < |c| ==> !IsInlineWhitespace(c[i])
    requires forall i :: 0 <= i < |w1| ==> IsInlineWhitespace(w1[i])
    requires forall i :: 0 <= i < |w2| ==> IsInlineWhitespace(w2[i])
    ensures Collapse(a + ((w1 + b) + (w2 + c))) == a + (([SPACE] + b) + ([SPACE] + c))
  {
    CollapseAppend(a, (w1 + b) + (w2 + c));
    assert (w1 + b)[|w1 + b| - 1] == b[|b| - 1];
    CollapseAppend(w1 + b, w2 + c);
    CollapsePlain(a);
    CollapseWordAfterRun(w1, b);
    CollapseWordAfterRun(w2, c);
  }

  lemma CollapseStandardExample(x: Text)
    requires IsPrecedenceInput(x)
    ensures IsPrecedenceOutput(Collapse(x))
  {
    CollapseTwoRuns([0x66, 0x6F, 0x6F], [0x09, 0x20, 0x20], [0x62, 0x61, 0x72, 0x0A], [0x20, 0x20], [0x62, 0x61, 0x7A]);
  }

  /** Why collapsing runs last: collapsing before stripping elongation leaves
      "a \u0640 b" (any two non-space units around a spaced elongation
      character) as "a  b", which is not collapsed, so a second pass would
      change it again. */
  lemma CollapseBeforeStripIsNotStable(a: CodeUnit, e: CodeUnit, b: CodeUnit)
    requires !IsInlineWhitespace(a) && !IsInlineWhitespace(b) && IsElongation(e)
    requires !IsElongation(a) && !IsElongation(b)
    ensures var once := Delete(Collapse([a, SPACE, e, SPACE, b]), IsElongation);
            once == [a, SPACE, SPACE, b] && !Collapsed(once)
  {
    var x: Text := [a, SPACE, e, SPACE, b];
    assert Collapse([b]) == [b];
    assert Collapse([SPACE, b]) == [SPACE, b];
    assert Collapse([e, SPACE, b]) == [e, SPACE, b];
    assert Collapse([SPACE, e, SPACE, b]) == [SPACE, e, SPACE, b];
    assert Collapse(x) == x;
    assert x[1..] == [SPACE, e, SPACE, b] && x[1..][1..] == [e, SPACE, b];
    assert [e, SPACE, b][1..] == [SPACE, b] && [SPACE, b][1..] == [b] && [b][1..] == [];
    assert Delete([b], IsElongation) == [b];
    assert Delete([SPACE, b], IsElongation) == [SPACE, b];
    assert Delete([e, SPACE, b], IsElongation) == [SPACE, b];
    assert Delete([SPACE, e, SPACE, b], IsElongation) == [SPACE, SPACE, b];
    var once := Delete(x, IsElongation);
    assert once == [a, SPACE, SPACE, b];
  }

  /** Under the standard options "e\u0640\u0301", which NFC leaves alone,
      loses its tatweel and nothing else in the deleting stages. */
  lemma StandardStripsTatweel(u: Unicode)
    requires u.nfc([0x65, 0x0640, 0x0301]) == [0x65, 0x0640, 0x0301]
    ensures Stripped(u, Standard(), [0x65, 0x0640, 0x0301]) == [0x65, 0x0301]
  {
    var x: Text := [0x65, 0x0640, 0x0301];
    assert Newlines(NewlinePolicy.Preserve, [0x0301]) == [0x0301];
    assert Newlines(NewlinePolicy.Preserve, [0x0640, 0x0301]) == [0x0640, 0x0301];
    assert Newlines(NewlinePolicy.Preserve, x) == x;
    assert ConvertSpaces(x) == x;
    assert Delete([0x0301], IsElongation) == [0x0301];
    assert Delete([0x0640, 0x0301], IsElongation) == [0x0301];
  }

  /** Under the standard options "\u00E9", which NFC leaves alone, passes
      through every stage unchanged. */
  lemma StandardKeepsComposed(u: Unicode)
    requires u.nfc([0xE9]) == [0xE9]
    ensures Stripped(u, Standard(), [0xE9]) == [0xE9]
    ensures Normalize(u, Standard(), [0xE9]) == [0xE9]
  {
    assert Newlines(NewlinePolicy.Preserve, [0xE9]) == [0xE9];
    assert ConvertSpaces([0xE9]) == [0xE9];
    assert Delete([0xE9], IsElongation) == [0xE9];
    assert Collapse([0xE9]) == [0xE9];
  }

  /** Why the form is applied again after the deleting stages: with the
      standard options "e\u0640\u0301" (e, tatweel, combining acute) loses
      its tatweel and the second NFC composes what is left into "\u00E9",
      which the filter then leaves alone. */
  lemma RecomposeExample(u: Unicode)
    requires u.nfc([0x65, 0x0640, 0x0301]) == [0x65, 0x0640, 0x0301]
    requires u.nfc([0x65, 0x0301]) == [0xE9] && u.nfc([0xE9]) == [0xE9]
    ensures Apply(u, Some([0x65, 0x0640, 0x0301]), Standard()) == FilterResult(Some([0xE9]), true)
    ensures Apply(u, Some([0xE9]), Standard()) == FilterResult(Some([0xE9]), false)
  {
    StandardStripsTatweel(u);
    StandardKeepsComposed(u);
    assert Collapse([0xE9]) == [0xE9];
  }

  /** Normalising once, before the deleting stages, is not idempotent: the
      standard pipeline without its second NFC turns "e\u0640\u0301" into
      "e\u0301", and a second pass turns that into "\u00E9". */
  lemma SingleFormIsNotStable(u: Unicode)
    requires u.nfc([0x65, 0x0640, 0x0301]) == [0x65, 0x0640, 0x0301]
    requires u.nfc([0x65, 0x0301]) == [0xE9] && u.nfc([0xE9]) == [0xE9]
    ensures var o := Standard();
            var once := CollapseStage(o, DigitStage(o, Stripped(u, o, [0x65, 0x0640, 0x0301])));
            once == [0x65, 0x0301] && CollapseStage(o, DigitStage(o, Stripped(u, o, once))) == [0xE9]
  {
    StandardStripsTatweel(u);
    assert Collapse([0x0301]) == [0x0301];
    assert Collapse([0x65, 0x0301]) == [0x65, 0x0301];
    var once: Text := [0x65, 0x0301];
    assert Newlines(NewlinePolicy.Preserve, [0x0301]) == [0x0301];
    assert Newlines(NewlinePolicy.Preserve, once) == once;
    assert ConvertSpaces(once) == once;
    assert Delete([0xE9], IsElongation) == [0xE9];
    assert Collapse([0xE9]) == [0xE9];
  }

  // ---------------------------------------------------------------------
  // Options.Builder

  /** The builder's fields: Java enum references, any of which a setter may
      have set to null. */
  datatype Draft = Draft(
    newlinePolicy: Option<NewlinePolicy>,
    collapsePolicy: Option<WhitespaceCollapse>,
    spaceNormalization: Option<SpaceNormalization>,
    unicodeNormalization: Option<UnicodeNormalization>,
    combiningMarkPolicy: Option<CombiningMarkPolicy>,
    joinerHandling: Option<JoinerHandling>,
    elongationHandling: Option<ElongationHandling>,
    digitNormalization: Option<DigitNormalization>)

  /** Every field of the draft is set. */
  predicate Complete(d: Draft) {
    && d.newlinePolicy.Some? && d.collapsePolicy.Some? && d.spaceNormalization.Some?
    && d.unicodeNormalization.Some? && d.combiningMarkPolicy.Some? && d.joinerHandling.Some?
    && d.elongationHandling.Some? && d.digitNormalization.Some?
  }

  /** The draft of a given Options value. */
  function DraftOf(o: Options): (d: Draft)
    ensures Complete(d)
  {
    Draft(Some(o.newlinePolicy), Some(o.collapsePolicy), Some(o.spaceNormalization),
          Some(o.unicodeNormalization), Some(o.combiningMarkPolicy), Some(o.joinerHandling),
          Some(o.elongationHandling), Some(o.digitNormalization))
  }

  /** What `build()` makes of the fields: the Options they hold, or
      NullPointerException when one of them is null. */
  function Finish(d: Draft): (r: Result<Options>)
    ensures r.Success? <==> Complete(d)
    ensures r.Failure? ==> r.error == NullPointerException
    ensures r.Success? ==> DraftOf(r.value) == d
  {
    if !Complete(d) then Failure(NullPointerException)
    else Success(Options(
      d.newlinePolicy.value, d.collapsePolicy.value, d.spaceNormalization.value,
      d.unicodeNormalization.value, d.combiningMarkPolicy.value, d.joinerHandling.value,
      d.elongationHandling.value, d.digitNormalization.value))
  }

  /** Building the draft of an Options value gives that value back. */
  lemma FinishDraftOf(o: Options)
    ensures Finish(DraftOf(o)) == Success(o)
  {
  }

  /** The mutable builder for Options; its fields start at the standard values. */
  class Builder {
    var newlinePolicy: Option<NewlinePolicy>
    var collapsePolicy: Option<WhitespaceCollapse>
    var spaceNormalization: Option<SpaceNormalization>
    var unicodeNormalization: Option<UnicodeNormalization>
    var combiningMarkPolicy: Option<CombiningMarkPolicy>
    var joinerHandling: Option<JoinerHandling>
    var elongationHandling: Option<ElongationHandling>
    var digitNormalization: Option<DigitNormalization>

    /** The fields as a value. */
    function Fields(): Draft
      reads this
    {
      Draft(newlinePolicy, collapsePolicy, spaceNormalization, unicodeNormalization,
            combiningMarkPolicy, joinerHandling, elongationHandling, digitNormalization)
    }

    /** The field defaults are exactly `Options.standard()`. */
    constructor ()
      ensures Fields() == DraftOf(Standard())
    {
      newlinePolicy := Some(NewlinePolicy.Preserve);
      collapsePolicy := Some(WhitespaceCollapse.CollapseSequences);
      spaceNormalization := Some(SpaceNormalization.ConvertUnicodeSpacesToAscii);
      unicodeNormalization := Some(UnicodeNormalization.Nfc);
      combiningMarkPolicy := Some(CombiningMarkPolicy.Preserve);
      joinerHandling := Some(JoinerHandling.PreserveAsInnerWord);
      elongationHandling := Some(ElongationHandling.Strip);
      digitNormalization := Some(DigitNormalization.Preserve);
    }

    method SetNewlinePolicy(v: Option<NewlinePolicy>)
      modifies this
      ensures Fields() == old(Fields()).(newlinePolicy := v)
    {
      newlinePolicy := v;
    }

    method SetCollapsePolicy(v: Option<WhitespaceCollapse>)
      modifies this
      ensures Fields() == old(Fields()).(collapsePolicy := v)
    {
      collapsePolicy := v;
    }

    method SetSpaceNormalization(v: Option<SpaceNormalization>)
      modifies this
      ensures Fields() == old(Fields()).(spaceNormalization := v)
    {
      spaceNormalization := v;
    }

    method SetUnicodeNormalization(v: Option<UnicodeNormalization>)
      modifies this
      ensures Fields() == old(Fields()).(unicodeNormalization := v)
    {
      unicodeNormalization := v;
    }

    method SetCombiningMarkPolicy(v: Option<CombiningMarkPolicy>)
      modifies this
      ensures Fields() == old(Fields()).(combiningMarkPolicy := v)
    {
      combiningMarkPolicy := v;
    }

    method SetJoinerHandling(v: Option<JoinerHandling>)
      modifies this
      ensures Fields() == old(Fields()).(joinerHandling := v)
    {
      joinerHandling := v;
    }

    method SetElongationHandling(v: Option<ElongationHandling>)
      modifies this
      ensures Fields() == old(Fields()).(elongationHandling := v)
    {
      elongationHandling := v;
    }

    method SetDigitNormalization(v: Option<DigitNormalization>)
      modifies this
      ensures Fields() == old(Fields()).(digitNormalization := v)
    {
      digitNormalization := v;
    }

    /** `build()`: an immutable Options value carrying the current fields,
        which later setter calls do not affect, or NullPointerException when
        a field is null. */
    method Build() returns (r: Result<Options>)
      ensures r.Success? <==> Complete(Fields())
      ensures r.Failure? ==> r.error == NullPointerException
      ensures r.Success? ==> DraftOf(r.value) == Fields()
    {
      if newlinePolicy.None? || collapsePolicy.None? || spaceNormalization.None?
         || unicodeNormalization.None? || combiningMarkPolicy.None? || joinerHandling.None?
         || elongationHandling.None? || digitNormalization.None? {
        return Failure(NullPointerException);
      }
      r := Success(Options(newlinePolicy.value, collapsePolicy.value, spaceNormalization.value,
                           unicodeNormalization.value, combiningMarkPolicy.value, joinerHandling.value,
                           elongationHandling.value, digitNormalization.value));
    }

    /** `build()` as written: the Options constructor copies the fields,
        null or not, and checks nothing. */
    method BuildAsWritten() returns (r: Draft)
      ensures r == Fields()
    {
      r := Draft(newlinePolicy, collapsePolicy, spaceNormalization, unicodeNormalization,
                 combiningMarkPolicy, joinerHandling, elongationHandling, digitNormalization);
    }
  }

  /** `Options.standard()`: a fresh builder with every policy set explicitly. */
  method BuildStandard() returns (r: Result<Options>)
    ensures r == Success(Standard())
    ensures r.value.newlinePolicy == NewlinePolicy.Preserve
    ensures r.value.collapsePolicy == WhitespaceCollapse.CollapseSequences
    ensures r.value.spaceNormalization == SpaceNormalization.ConvertUnicodeSpacesToAscii
    ensures r.value.unicodeNormalization == UnicodeNormalization.Nfc
    ensures r.value.combiningMarkPolicy == CombiningMarkPolicy.Preserve
    ensures r.value.joinerHandling == JoinerHandling.PreserveAsInnerWord
    ensures r.value.elongationHandling == ElongationHandling.Strip
    ensures r.value.digitNormalization == DigitNormalization.Preserve
  {
    var b := new Builder();
    b.SetNewlinePolicy(Some(NewlinePolicy.Preserve));
    b.SetCollapsePolicy(Some(WhitespaceCollapse.CollapseSequences));
    b.SetSpaceNormalization(Some(SpaceNormalization.ConvertUnicodeSpacesToAscii));
    b.SetUnicodeNormalization(Some(UnicodeNormalization.Nfc));
    b.SetCombiningMarkPolicy(Some(CombiningMarkPolicy.Preserve));
    b.SetJoinerHandling(Some(JoinerHandling.PreserveAsInnerWord));
    b.SetElongationHandling(Some(ElongationHandling.Strip));
    b.SetDigitNormalization(Some(DigitNormalization.Preserve));
    r := b.Build();
  }

  /** A builder whose field was set to null refuses to build. */
  method BuildRejectsNull() returns (r: Result<Options>)
    ensures r == Failure(NullPointerException)
  {
    var b := new Builder();
    b.SetDigitNormalization(Option.None);
    r := b.Build();
  }

  /** The unchecked `build()` lets a null field through: the Options it
      returns carries a null digit policy, which the documentation says must
      be rejected with NullPointerException. */
  method AsWrittenBuildAcceptsNull() returns (r: Draft)
    ensures r.digitNormalization.None? && !Complete(r)
    ensures r == DraftOf(Standard()).(digitNormalization := Option.None)
  {
    var b := new Builder();
    b.SetDigitNormalization(Option.None);
    r := b.BuildAsWritten();
  }
}
