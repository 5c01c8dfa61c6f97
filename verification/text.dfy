/** The two string primitives the chat client relies on: ECMAScript's
    `String.prototype.trim` and `String.prototype.includes`. */
module Text {

  /** The characters `trim` removes: ECMAScript's WhiteSpace (TAB, VT, FF,
      SPACE, NBSP, ZWNBSP and every Unicode "Zs" space separator) together
      with its LineTerminators (LF, CR, LS, PS). */
  const Whitespace: set<char> := {
    '\t', '\n', '\U{000B}', '\U{000C}', '\r', ' ', '\U{00A0}', '\U{1680}',
    '\U{2000}', '\U{2001}', '\U{2002}', '\U{2003}', '\U{2004}', '\U{2005}',
    '\U{2006}', '\U{2007}', '\U{2008}', '\U{2009}', '\U{200A}',
    '\U{2028}', '\U{2029}', '\U{202F}', '\U{205F}', '\U{3000}', '\U{FEFF}'
  }

  predicate IsWhitespace(c: char) {
    c in Whitespace
  }

  /** Every character of `s` is whitespace. */
  ghost predicate AllWhitespace(s: string) {
    forall i :: 0 <= i < |s| ==> IsWhitespace(s[i])
  }

  /** Some character of `s` is not whitespace. */
  predicate HasVisible(s: string) {
    |s| > 0 && (!IsWhitespace(s[0]) || HasVisible(s[1..]))
  }

  /** A string has a visible character exactly when it is not all
      whitespace. */
  lemma {:induction false} VisibleIffNotAllWhitespace(s: string)
    ensures HasVisible(s) <==> !AllWhitespace(s)
  {
    if |s| > 0 {
      VisibleIffNotAllWhitespace(s[1..]);
      assert AllWhitespace(s) <==> IsWhitespace(s[0]) && AllWhitespace(s[1..]) by {
        if IsWhitespace(s[0]) && AllWhitespace(s[1..]) {
          forall i | 0 <= i < |s| ensures IsWhitespace(s[i]) {
            if i > 0 {
              assert s[i] == s[1..][i - 1];
            }
          }
        }
      }
    }
  }

  /** The number of whitespace characters `s` starts with. */
  function LeadingWhitespace(s: string): (n: nat)
    ensures n <= |s|
  {
    if |s| > 0 && IsWhitespace(s[0]) then 1 + LeadingWhitespace(s[1..]) else 0
  }

  /** The leading run is whitespace, and what follows it is not. */
  lemma {:induction false} LeadingRun(s: string)
    ensures forall i :: 0 <= i < LeadingWhitespace(s) ==> IsWhitespace(s[i])
    ensures LeadingWhitespace(s) == |s| || !IsWhitespace(s[LeadingWhitespace(s)])
  {
    if |s| > 0 && IsWhitespace(s[0]) {
      LeadingRun(s[1..]);
    }
  }

  /** The number of whitespace characters `s` ends with. */
  function TrailingWhitespace(s: string): (n: nat)
    ensures n <= |s|
  {
    if |s| > 0 && IsWhitespace(s[|s| - 1]) then 1 + TrailingWhitespace(s[..|s| - 1]) else 0
  }

  /** The trailing run is whitespace, and what precedes it is not. */
  lemma {:induction false} TrailingRun(s: string)
    ensures forall i :: |s| - TrailingWhitespace(s) <= i < |s| ==> IsWhitespace(s[i])
    ensures TrailingWhitespace(s) == |s| || !IsWhitespace(s[|s| - TrailingWhitespace(s) - 1])
  {
    if |s| > 0 && IsWhitespace(s[|s| - 1]) {
      TrailingRun(s[..|s| - 1]);
    }
  }

  /** `s.trim()`: `s` without its leading and its trailing whitespace, so
      what is left neither starts nor ends with whitespace. */
  function Trim(s: string): (r: string)
    ensures |r| <= |s|
    ensures r == [] || (!IsWhitespace(r[0]) && !IsWhitespace(r[|r| - 1]))
  {
    var t := s[LeadingWhitespace(s)..];
    LeadingRun(s);
    TrailingRun(t);
    t[..|t| - TrailingWhitespace(t)]
  }

  /** `trim()` yields the empty string exactly when `s` consists of
      whitespace alone (the empty string included). */
  lemma TrimEmptyIffWhitespace(s: string)
    ensures Trim(s) == [] <==> AllWhitespace(s)
  {
    var t := s[LeadingWhitespace(s)..];
    LeadingRun(s);
    TrailingRun(t);
    if t != [] {
      assert !IsWhitespace(t[0]);
      assert |t| - TrailingWhitespace(t) > 0;
    }
  }

  /** What `trim` keeps is an infix of `s` preceded and followed only by
      whitespace, and it neither starts nor ends with whitespace itself. */
  lemma TrimStripsOnlyWhitespace(s: string)
    ensures exists k :: StrippedAt(s, Trim(s), k)
    ensures var r := Trim(s); r == [] || (!IsWhitespace(r[0]) && !IsWhitespace(r[|r| - 1]))
  {
    var k := LeadingWhitespace(s);
    var t := s[k..];
    var r := Trim(s);
    LeadingRun(s);
    TrailingRun(t);
    assert r == s[k..k + |r|];
    assert IsInfixAt(s, r, k);
    forall i | 0 <= i < k ensures IsWhitespace(s[..k][i]) {
      assert s[..k][i] == s[i];
    }
    var tail := s[k + |r|..];
    forall i | 0 <= i < |tail| ensures IsWhitespace(tail[i]) {
      assert tail[i] == t[|r| + i];
    }
    assert StrippedAt(s, r, k);
    if r != [] {
      assert r[0] == t[0];
      assert r[|r| - 1] == t[|t| - TrailingWhitespace(t) - 1];
    }
  }

  /** `r` sits in `s` at index `k`, with only whitespace before and after. */
  ghost predicate StrippedAt(s: string, r: string, k: int) {
    IsInfixAt(s, r, k) && AllWhitespace(s[..k]) && AllWhitespace(s[k + |r|..])
  }

  /** `r` occurs in `s` starting at index `k`. */
  ghost predicate IsInfixAt(s: string, r: string, k: int) {
    0 <= k && k + |r| <= |s| && s[k..k + |r|] == r
  }

  /** `s.includes(sub)`: a case-sensitive, character-exact substring test.
      The empty string is contained in every string. */
  function Contains(s: string, sub: string): (b: bool)
    ensures b <==> exists k :: IsInfixAt(s, sub, k)
    decreases |s|
  {
    if |sub| <= |s| && s[..|sub|] == sub then
      assert IsInfixAt(s, sub, 0);
      true
    else if |s| == 0 then
      false
    else
      DropFirstInfix(s, sub);
      Contains(s[1..], sub)
  }

  /** When `sub` does not start `s`, its occurrences in `s` are those in
      `s[1..]`, shifted by one. */
  lemma DropFirstInfix(s: string, sub: string)
    requires |s| > 0 && !(|sub| <= |s| && s[..|sub|] == sub)
    ensures (exists k :: IsInfixAt(s[1..], sub, k)) <==> (exists k :: IsInfixAt(s, sub, k))
  {
    if k :| IsInfixAt(s[1..], sub, k) {
      assert s[1..][k..k + |sub|] == s[k + 1..k + 1 + |sub|];
      assert IsInfixAt(s, sub, k + 1);
    }
    if k :| IsInfixAt(s, sub, k) {
      assert s[1..][k - 1..k - 1 + |sub|] == s[k..k + |sub|];
      assert IsInfixAt(s[1..], sub, k - 1);
    }
  }

  /** A needle one of whose characters never appears in `s` is not contained
      in `s`. Useful for showing that matching is case-sensitive. */
  lemma MissingCharNotContained(s: string, sub: string, j: int)
    requires 0 <= j < |sub| && sub[j] !in s
    ensures !Contains(s, sub)
  {
  }

  /** A needle placed anywhere inside a string is contained in it. */
  lemma {:induction false} ContainsInfix(pre: string, sub: string, post: string)
    ensures Contains(pre + sub + post, sub)
  {
    var s := pre + sub + post;
    assert s[|pre|..|pre| + |sub|] == sub;
    assert IsInfixAt(s, sub, |pre|);
  }
}
