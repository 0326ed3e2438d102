/** The CharFilter stages as single left-to-right passes that append to an
    output buffer, each proved to compute its specification function, and
    `apply` as the chain of those passes. */
module CharFilterScan {
  import opened Wrappers
  import opened Utf16
  import opened TextOps
  import opened CharFilter

  /** The loop invariant of ScanNewlines carried across one step. */
  lemma NewlinesAdvance(p: NewlinePolicy, s: Text, i: nat, out: seq<CodeUnit>)
    requires i < |s| && out + Newlines(p, s[i..]) == Newlines(p, s)
    ensures (out + NewlineOut(p, s, i).0) + Newlines(p, s[i + NewlineOut(p, s, i).1..]) == Newlines(p, s)
  {
    NewlinesStep(p, s, i);
  }

  /** Newline handling in one pass: a CR swallows a following LF. */
  method ScanNewlines(p: NewlinePolicy, s: Text) returns (r: Text)
    ensures r == Newlines(p, s)
  {
    var out: seq<CodeUnit> := [];
    var i := 0;
    while i < |s|
      invariant 0 <= i <= |s|
      invariant out + Newlines(p, s[i..]) == Newlines(p, s)
      decreases |s| - i
    {
      var written, step := NewlineOut(p, s, i).0, NewlineOut(p, s, i).1;
      NewlinesAdvance(p, s, i, out);
      out := out + written;
      i := i + step;
    }
    assert s[i..] == [];
    r := out;
  }

  /** Rewrites every unit through `f`, one for one. */
  method ScanMap(s: Text, f: CodeUnit -> CodeUnit) returns (r: Text)
    ensures |r| == |s|
    ensures forall i :: 0 <= i < |s| ==> r[i] == f(s[i])
  {
    var out: seq<CodeUnit> := [];
    var i := 0;
    while i < |s|
      invariant 0 <= i <= |s| && |out| == i
      invariant forall k :: 0 <= k < i ==> out[k] == f(s[k])
    {
      out := out + [f(s[i])];
      i := i + 1;
    }
    r := out;
  }

  /** Drops the units of class `p`, keeping the rest in order. */
  method ScanDelete(s: Text, p: CodeUnit -> bool) returns (r: Text)
    ensures r == Delete(s, p)
  {
    var out: seq<CodeUnit> := [];
    var i := 0;
    while i < |s|
      invariant 0 <= i <= |s|
      invariant out + Delete(s[i..], p) == Delete(s, p)
      decreases |s| - i
    {
      assert s[i..][1..] == s[i + 1..];
      if !p(s[i]) {
        out := out + [s[i]];
      }
      i := i + 1;
    }
    assert s[i..] == [];
    r := out;
  }

  /** One code point of StripMarks, read at offset i. */
  lemma StripMarksStep(u: Unicode, s: Text, i: nat)
    requires i < |s|
    ensures i + Width(s, i) <= |s|
    ensures StripMarks(u, s[i..]) == Kept(u, s, i) + StripMarks(u, s[i + Width(s, i)..])
  {
    var w := Width(s, i);
    var rest := s[i..];
    assert rest[0] == s[i] && (|rest| > 1 ==> rest[1] == s[i + 1]);
    assert Width(rest, 0) == w && CodePointAt(rest, 0) == CodePointAt(s, i);
    assert rest[w..] == s[i + w..] && rest[..w] == s[i..i + w];
  }

  /** The units StripMarks keeps of the code point at offset i. */
  function Kept(u: Unicode, s: Text, i: nat): seq<CodeUnit>
    requires i < |s|
  {
    if u.isMark(CodePointAt(s, i)) || i + Width(s, i) > |s| then [] else s[i..i + Width(s, i)]
  }

  /** The loop invariant of ScanStripMarks carried across one step. */
  lemma StripMarksAdvance(u: Unicode, s: Text, i: nat, out: seq<CodeUnit>)
    requires i < |s| && out + StripMarks(u, s[i..]) == StripMarks(u, s)
    ensures i + Width(s, i) <= |s|
    ensures (out + Kept(u, s, i)) + StripMarks(u, s[i + Width(s, i)..]) == StripMarks(u, s)
  {
    StripMarksStep(u, s, i);
  }

  /** Stripping marks in one pass over the code points: a code point is
      copied, one or two units, unless it is a non-spacing mark. */
  method ScanStripMarks(u: Unicode, s: Text) returns (r: Text)
    ensures r == StripMarks(u, s)
  {
    var out: seq<CodeUnit> := [];
    var i := 0;
    while i < |s|
      invariant 0 <= i <= |s|
      invariant out + StripMarks(u, s[i..]) == StripMarks(u, s)
      decreases |s| - i
    {
      StripMarksAdvance(u, s, i, out);
      var w := Width(s, i);
      var kept := if u.isMark(CodePointAt(s, i)) then [] else s[i..i + w];
      assert kept == Kept(u, s, i);
      out := out + kept;
      i := i + w;
    }
    assert s[i..] == [];
    r := out;
  }

  /** Collapsing in one pass: a whitespace unit is written, as SPACE, only
      when the next unit is not whitespace too. */
  method ScanCollapse(s: Text) returns (r: Text)
    ensures r == Collapse(s)
  {
    var out: seq<CodeUnit> := [];
    var i := 0;
    while i < |s|
      invariant 0 <= i <= |s|
      invariant out + Collapse(s[i..]) == Collapse(s)
      decreases |s| - i
    {
      var rest := s[i..];
      assert rest[1..] == s[i + 1..];
      if IsInlineWhitespace(s[i]) && i + 1 < |s| && IsInlineWhitespace(s[i + 1]) {
        assert rest[1] == s[i + 1];
      } else if IsInlineWhitespace(s[i]) {
        out := out + [SPACE];
      } else {
        out := out + [s[i]];
      }
      i := i + 1;
    }
    assert s[i..] == [];
    r := out;
  }

  function SpaceToAscii(c: CodeUnit): CodeUnit {
    if IsUnicodeSpace(c) then SPACE else c
  }

  /** `apply(text, options)`: the passes in order — newlines, Unicode spaces,
      normalisation form, marks, joiners, elongation, digits, collapsing —
      and the `changed` flag from comparing output and input. */
  method ApplyScan(u: Unicode, text: Option<Text>, o: Options) returns (r: FilterResult)
    ensures r == Apply(u, text, o)
  {
    if text.None? {
      return FilterResult(Option.None, false);
    }
    var s := text.value;
    var t := ScanNewlines(o.newlinePolicy, s);
    if o.spaceNormalization == SpaceNormalization.ConvertUnicodeSpacesToAscii {
      var a := t;
      t := ScanMap(a, SpaceToAscii);
      assert t == ConvertSpaces(a);
    }
    t := Form(u, o.unicodeNormalization)(t);
    assert t == Prepared(u, o, s);
    if o.combiningMarkPolicy == CombiningMarkPolicy.StripNonspacing {
      t := ScanStripMarks(u, t);
    }
    if o.joinerHandling == JoinerHandling.Remove {
      t := ScanDelete(t, IsJoiner);
    }
    if o.elongationHandling == ElongationHandling.Strip {
      t := ScanDelete(t, IsElongation);
    }
    assert t == Stripped(u, o, s);
    t := Form(u, o.unicodeNormalization)(t);
    if o.digitNormalization == DigitNormalization.MapToAscii {
      var a := t;
      t := ScanMap(a, MapDigit);
      assert t == MapDigits(a);
    }
    if o.collapsePolicy == WhitespaceCollapse.CollapseSequences {
      t := ScanCollapse(t);
    }
    r := FilterResult(Some(t), t != s);
  }
}
