/** Generic operations on code-unit sequences used by the normalisation
    stages: deleting the units of a class, and the facts that pin down what
    a deletion leaves. */
module TextOps {
  import opened Utf16

  /** No unit of class p occurs in s. */
  predicate NoneOf(s: seq<CodeUnit>, p: CodeUnit -> bool) {
    forall c :: c in s ==> !p(c)
  }

  /** Number of units of class p in s. */
  function Count(s: seq<CodeUnit>, p: CodeUnit -> bool): (n: nat)
    ensures n <= |s|
  {
    if |s| == 0 then 0 else (if p(s[0]) then 1 else 0) + Count(s[1..], p)
  }

  /** a can be obtained from b by dropping elements. */
  predicate IsSubsequence(a: seq<CodeUnit>, b: seq<CodeUnit>)
    decreases |b|
  {
    if |a| == 0 then true
    else if |b| == 0 then false
    else (a[0] == b[0] && IsSubsequence(a[1..], b[1..])) || IsSubsequence(a, b[1..])
  }

  /** The units of s outside class p, in their original order. The result is
      free of p, is a subsequence of s, and is exactly as long as the units of
      s outside p, which together determine it. */
  function Delete(s: Text, p: CodeUnit -> bool): (r: Text)
    ensures NoneOf(r, p)
    ensures IsSubsequence(r, s)
    ensures |r| == |s| - Count(s, p)
    ensures forall c :: c in r ==> c in s
  {
    if |s| == 0 then []
    else if p(s[0]) then Delete(s[1..], p)
    else [s[0]] + Delete(s[1..], p)
  }

  /** Deleting a class a text is already free of changes nothing. */
  lemma {:induction false} DeleteFixpoint(s: Text, p: CodeUnit -> bool)
    requires NoneOf(s, p)
    ensures Delete(s, p) == s
  {
    if |s| > 0 {
      assert s[0] in s;
      assert NoneOf(s[1..], p) by {
        forall c | c in s[1..] ensures !p(c) { assert c in s; }
      }
      DeleteFixpoint(s[1..], p);
      assert s == [s[0]] + s[1..];
    }
  }

  /** Deletion distributes over concatenation. */
  lemma {:induction false} DeleteAppend(a: Text, b: Text, p: CodeUnit -> bool)
    requires |a + b| <= INT_MAX
    ensures Delete(a + b, p) == Delete(a, p) + Delete(b, p)
  {
    if |a| > 0 {
      assert (a + b)[0] == a[0];
      assert (a + b)[1..] == a[1..] + b;
      DeleteAppend(a[1..], b, p);
    } else {
      assert a + b == b;
    }
  }
  /** Every sequence is a subsequence of itself. */
  lemma {:induction false} SubsequenceRefl(a: seq<CodeUnit>)
    ensures IsSubsequence(a, a)
    decreases |a|
  {
    if |a| > 0 {
      SubsequenceRefl(a[1..]);
    }
  }

  /** Units in front of the larger sequence may be skipped. */
  lemma {:induction false} SubsequenceSkip(a: seq<CodeUnit>, p: seq<CodeUnit>, b: seq<CodeUnit>)
    requires IsSubsequence(a, b)
    ensures IsSubsequence(a, p + b)
    decreases |p|
  {
    if |p| > 0 {
      assert (p + b)[1..] == p[1..] + b;
      SubsequenceSkip(a, p[1..], b);
    } else {
      assert p + b == b;
    }
  }

  /** A common prefix may be kept on both sides. */
  lemma {:induction false} SubsequenceKeep(a: seq<CodeUnit>, p: seq<CodeUnit>, b: seq<CodeUnit>)
    requires IsSubsequence(a, b)
    ensures IsSubsequence(p + a, p + b)
    decreases |p|
  {
    if |p| > 0 {
      assert (p + a)[0] == (p + b)[0];
      assert (p + a)[1..] == p[1..] + a && (p + b)[1..] == p[1..] + b;
      SubsequenceKeep(a, p[1..], b);
    } else {
      assert p + a == a && p + b == b;
    }
  }

  /** Deleting in two rounds is deleting. */
  lemma {:induction false} SubsequenceTrans(a: seq<CodeUnit>, b: seq<CodeUnit>, c: seq<CodeUnit>)
    requires IsSubsequence(a, b) && IsSubsequence(b, c)
    ensures IsSubsequence(a, c)
    decreases |c|
  {
    if |a| > 0 && |b| > 0 && |c| > 0 {
      if b[0] == c[0] && IsSubsequence(b[1..], c[1..]) {
        if a[0] == b[0] && IsSubsequence(a[1..], b[1..]) {
          SubsequenceTrans(a[1..], b[1..], c[1..]);
        } else {
          SubsequenceTrans(a, b[1..], c[1..]);
        }
      } else {
        SubsequenceTrans(a, b, c[1..]);
      }
    }
  }
}
