/** UTF-16 text as Java stores it, 32-bit integers, and the Unicode
    character data that the analysis stages consult but that is not part
    of this model (it is passed in as a `Unicode` value). */
module Utf16 {

  const INT_MIN: int := -0x8000_0000
  const INT_MAX: int := 0x7fff_ffff

  /** A Java `int`. */
  type Int32 = x: int | INT_MIN <= x <= INT_MAX

  /** A UTF-16 code unit (a Java `char`). */
  type CodeUnit = u: int | 0 <= u < 0x1_0000

  /** A Java `String`: its length is an `int`, so at most INT_MAX units. */
  type Text = s: seq<CodeUnit> | |s| <= INT_MAX

  const LF: CodeUnit := 0x0A
  const CR: CodeUnit := 0x0D
  const SPACE: CodeUnit := 0x20

  predicate IsHighSurrogate(u: int) { 0xD800 <= u <= 0xDBFF }
  predicate IsLowSurrogate(u: int) { 0xDC00 <= u <= 0xDFFF }
  predicate IsSurrogate(u: int) { 0xD800 <= u <= 0xDFFF }

  /** A surrogate pair starts at index i. */
  predicate PairAt(s: seq<CodeUnit>, i: int) {
    0 <= i && i + 1 < |s| && IsHighSurrogate(s[i]) && IsLowSurrogate(s[i + 1])
  }

  /** Number of code units of the code point that starts at i. */
  function Width(s: seq<CodeUnit>, i: int): (w: nat)
    ensures w == 1 || w == 2
  {
    if PairAt(s, i) then 2 else 1
  }

  /** The code point that starts at index i; an unpaired surrogate stands for itself. */
  function CodePointAt(s: seq<CodeUnit>, i: int): (cp: int)
    requires 0 <= i < |s|
    ensures 0 <= cp <= 0x10FFFF
    ensures PairAt(s, i) ==> 0x10000 <= cp
    ensures !PairAt(s, i) ==> cp == s[i]
  {
    if PairAt(s, i) then 0x10000 + (s[i] as int - 0xD800) * 0x400 + (s[i + 1] as int - 0xDC00)
    else s[i] as int
  }

  /** Offset k does not fall between the two halves of a surrogate pair. */
  predicate Boundary(s: seq<CodeUnit>, k: int) {
    0 <= k <= |s| && !(0 < k < |s| && IsHighSurrogate(s[k - 1]) && IsLowSurrogate(s[k]))
  }

  /** Stepping over one code point from a boundary lands on a boundary. */
  lemma StepKeepsBoundary(s: seq<CodeUnit>, i: int)
    requires Boundary(s, i) && i < |s|
    ensures Boundary(s, i + Width(s, i))
  {
  }

  /** Well-formed UTF-16: every high surrogate is followed by a low one and
      every low surrogate follows a high one. */
  predicate Paired(s: seq<CodeUnit>)
    decreases |s|
  {
    if |s| == 0 then true
    else if IsHighSurrogate(s[0]) then |s| >= 2 && IsLowSurrogate(s[1]) && Paired(s[2..])
    else !IsLowSurrogate(s[0]) && Paired(s[1..])
  }

  predicate IsAscii(u: int) { 0 <= u < 0x80 }
  predicate IsAsciiLetter(u: int) { 0x41 <= u <= 0x5A || 0x61 <= u <= 0x7A }
  predicate IsAsciiDigit(u: int) { 0x30 <= u <= 0x39 }

  predicate AllAscii(s: seq<CodeUnit>) { forall i :: 0 <= i < |s| ==> IsAscii(s[i]) }

  /** Unicode character data, which lives outside the model: the NFC and NFKC
      normalisers and the general-category tests (letter L*, decimal digit Nd,
      non-spacing mark Mn), all on code points. */
  datatype Unicode = Unicode(
    nfc: Text -> Text,
    nfkc: Text -> Text,
    isLetter: int -> bool,
    isDigit: int -> bool,
    isMark: int -> bool)

  /** The facts about the real tables this model relies on: the normalisers
      leave ASCII text alone, and on ASCII the categories are the obvious ones. */
  ghost predicate WellFormed(u: Unicode) {
    && (forall s: Text {:trigger u.nfc(s)} :: AllAscii(s) ==> u.nfc(s) == s)
    && (forall s: Text {:trigger u.nfkc(s)} :: AllAscii(s) ==> u.nfkc(s) == s)
    && (forall c :: IsAscii(c) ==> (u.isLetter(c) <==> IsAsciiLetter(c)))
    && (forall c :: IsAscii(c) ==> (u.isDigit(c) <==> IsAsciiDigit(c)))
    && (forall c :: IsAscii(c) ==> !u.isMark(c))
  }
}
