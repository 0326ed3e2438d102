/** The immutable `Token` record: a term with half-open UTF-16 offsets
    [start, end) into the normalised text and a zero-based position. */
module Tokens {
  import opened Wrappers
  import opened Utf16

  datatype Token = Token(term: Text, start: Int32, end: Int32, position: Int32)

  /** The invariants the canonical constructor enforces. */
  predicate Valid(t: Token) {
    |t.term| > 0 && 0 <= t.start < t.end && t.position >= 0
  }

  /** The token's offsets lie in s and its term is `s.substring(start, end)`. */
  predicate Spans(s: seq<CodeUnit>, t: Token) {
    0 <= t.start < t.end <= |s| && t.term == s[t.start..t.end]
  }

  /** The canonical constructor: a null term is a NullPointerException; the
      token is built when the invariants hold, and IllegalArgumentException
      is thrown otherwise. */
  function Make(term: Option<Text>, start: Int32, end: Int32, position: Int32): (r: Result<Token>)
    ensures r.Success? <==> term.Some? && |term.value| > 0 && 0 <= start < end && position >= 0
    ensures r.Success? ==> Valid(r.value)
    ensures r.Success? ==> r.value.term == term.value && r.value.start == start
                           && r.value.end == end && r.value.position == position
    ensures term.None? ==> r == Failure(NullPointerException)
    ensures term.Some? && r.Failure? ==> r.error == IllegalArgumentException
  {
    match term
    case None => Failure(NullPointerException)
    case Some(t) =>
      if |t| == 0 || start < 0 || end <= start || position < 0 then
        Failure(IllegalArgumentException)
      else
        Success(Token(t, start, end, position))
  }

  /** The span length `end - start`, in code units. */
  function Length(t: Token): (n: Int32)
    requires Valid(t)
    ensures n >= 1
    ensures t.start + n == t.end
  {
    t.end - t.start
  }

  /** A new token with the same offsets and position and a different term;
      a null term is a NullPointerException, an empty one an
      IllegalArgumentException. */
  function WithTerm(t: Token, newTerm: Option<Text>): (r: Result<Token>)
    requires Valid(t)
    ensures r.Success? <==> newTerm.Some? && |newTerm.value| > 0
    ensures newTerm.None? ==> r == Failure(NullPointerException)
    ensures newTerm.Some? && r.Failure? ==> r.error == IllegalArgumentException
    ensures r.Success? ==> Valid(r.value) && r.value.term == newTerm.value
    ensures r.Success? ==> r.value.start == t.start && r.value.end == t.end
                           && r.value.position == t.position
  {
    Make(newTerm, t.start, t.end, t.position)
  }

  /** Java's `int` addition: the exact sum reduced to 32 bits, two's complement. */
  function Wrap32(x: int): (r: Int32)
    ensures INT_MIN <= x <= INT_MAX ==> r == x
    ensures INT_MAX < x <= 2 * INT_MAX + 1 ==> r == x - 0x1_0000_0000
  {
    (x - INT_MIN) % 0x1_0000_0000 + INT_MIN
  }

  /** Both offsets moved by `delta` with Java `int` arithmetic, the result
      passed through the constructor's checks. The shift fails exactly when
      the exact shifted span leaves [0, INT_MAX]. */
  function Shift(t: Token, delta: Int32): (r: Result<Token>)
    requires Valid(t)
    ensures r.Success? <==> 0 <= t.start + delta && t.end + delta <= INT_MAX
    ensures r.Failure? ==> r.error == IllegalArgumentException
    ensures r.Success? ==> Valid(r.value)
    ensures r.Success? ==> r.value.start == t.start + delta && r.value.end == t.end + delta
    ensures r.Success? ==> r.value.term == t.term && r.value.position == t.position
                           && Length(r.value) == Length(t)
  {
    Make(Some(t.term), Wrap32(t.start + delta), Wrap32(t.end + delta), t.position)
  }

  /** Shifting back undoes a shift. */
  lemma ShiftRoundTrip(t: Token, delta: Int32)
    requires Valid(t) && Shift(t, delta).Success? && -delta <= INT_MAX
    ensures Shift(Shift(t, delta).value, -delta) == Success(t)
  {
  }
}
