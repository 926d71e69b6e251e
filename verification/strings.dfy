/** String operations the application relies on: the code-unit order of
    JavaScript's default comparison, ASCII case folding, `includes`,
    `startsWith`, `trim` and `replace` of the first occurrence. */
module Strings {

  /** Lexicographic order on code units: `a < b` in JavaScript. A proper
      prefix is smaller than the string it starts. */
  predicate Less(a: string, b: string)
    decreases |a|
  {
    |b| > 0 && (|a| == 0 || a[0] < b[0] || (a[0] == b[0] && Less(a[1..], b[1..])))
  }

  lemma {:induction false} LessIrreflexive(a: string)
    ensures !Less(a, a)
  {
    if |a| > 0 {
      LessIrreflexive(a[1..]);
    }
  }

  lemma {:induction false} LessTransitive(a: string, b: string, c: string)
    requires Less(a, b) && Less(b, c)
    ensures Less(a, c)
  {
    if |a| > 0 && a[0] == b[0] && b[0] == c[0] {
      LessTransitive(a[1..], b[1..], c[1..]);
    }
  }

  lemma {:induction false} LessTotal(a: string, b: string)
    ensures a == b || Less(a, b) || Less(b, a)
  {
    if |a| > 0 && |b| > 0 && a[0] == b[0] {
      LessTotal(a[1..], b[1..]);
      assert a == [a[0]] + a[1..];
      assert b == [b[0]] + b[1..];
    }
  }

  lemma LessAsymmetric(a: string, b: string)
    requires Less(a, b)
    ensures !Less(b, a)
  {
    if Less(b, a) {
      LessTransitive(a, b, a);
      LessIrreflexive(a);
    }
  }

  function LowerChar(c: char): char
  {
    if 'A' <= c <= 'Z' then (c as int + 32) as char else c
  }

  /** `toLowerCase`, restricted to ASCII letters. */
  function Lower(s: string): (r: string)
    ensures |r| == |s|
    ensures forall i :: 0 <= i < |s| ==> r[i] == LowerChar(s[i])
  {
    seq(|s|, i requires 0 <= i < |s| => LowerChar(s[i]))
  }

  /** `s.startsWith(p)`. */
  predicate StartsWith(s: string, p: string)
  {
    |p| <= |s| && s[..|p|] == p
  }

  /** `s.includes(p)`: `p` occurs at some position of `s`. */
  predicate Contains(s: string, p: string)
    decreases |s|
  {
    StartsWith(s, p) || (|s| > 0 && Contains(s[1..], p))
  }

  lemma {:induction false} ContainsAt(s: string, p: string, i: nat)
    requires i + |p| <= |s| && s[i..i + |p|] == p
    ensures Contains(s, p)
  {
    if i > 0 {
      assert s[1..][i - 1..i - 1 + |p|] == s[i..i + |p|];
      ContainsAt(s[1..], p, i - 1);
    }
  }

  /** The characters `String.prototype.trim` removes: white space and line
      terminators (the space separators of Unicode category Zs included). */
  predicate IsSpace(c: char)
  {
    || c == ' ' || c == '\t' || c == '\n' || c == '\r'
    || c == '\U{B}' || c == '\U{C}' || c == '\U{A0}' || c == '\U{1680}'
    || ('\U{2000}' <= c <= '\U{200A}')
    || c == '\U{2028}' || c == '\U{2029}' || c == '\U{202F}' || c == '\U{205F}'
    || c == '\U{3000}' || c == '\U{FEFF}'
  }

  /** How many white-space characters `s` starts with. */
  function LeadingSpaces(s: string): (n: nat)
    ensures n <= |s|
    ensures forall i :: 0 <= i < n ==> IsSpace(s[i])
    ensures n == |s| || !IsSpace(s[n])
    decreases |s|
  {
    if |s| > 0 && IsSpace(s[0]) then 1 + LeadingSpaces(s[1..]) else 0
  }

  /** How many white-space characters `s` ends with. */
  function TrailingSpaces(s: string): (n: nat)
    ensures n <= |s|
    ensures forall i :: |s| - n <= i < |s| ==> IsSpace(s[i])
    ensures n == |s| || !IsSpace(s[|s| - n - 1])
    decreases |s|
  {
    if |s| > 0 && IsSpace(s[|s| - 1]) then 1 + TrailingSpaces(s[..|s| - 1]) else 0
  }

  /** `s` without its leading white space. */
  function TrimStart(s: string): (r: string)
    ensures |r| <= |s| && r == s[|s| - |r|..]
    ensures forall i :: 0 <= i < |s| - |r| ==> IsSpace(s[i])
    ensures r == [] || !IsSpace(r[0])
  {
    s[LeadingSpaces(s)..]
  }

  /** `s` without its trailing white space. */
  function TrimEnd(s: string): (r: string)
    ensures |r| <= |s| && r == s[..|r|]
    ensures forall i :: |r| <= i < |s| ==> IsSpace(s[i])
    ensures r == [] || !IsSpace(r[|r| - 1])
  {
    s[..|s| - TrailingSpaces(s)]
  }

  /** `s.trim()`: the part of `s` left when the white space at both ends is
      cut off, and only that white space. */
  function Trim(s: string): (r: string)
    ensures |r| <= |s|
    ensures r == [] || (!IsSpace(r[0]) && !IsSpace(r[|r| - 1]))
    ensures |s| - |TrimStart(s)| + |r| <= |s|
    ensures r == s[|s| - |TrimStart(s)|..|s| - |TrimStart(s)| + |r|]
    ensures forall i :: 0 <= i < |s| - |TrimStart(s)| ==> IsSpace(s[i])
    ensures forall i :: |s| - |TrimStart(s)| + |r| <= i < |s| ==> IsSpace(s[i])
  {
    TrimEnds(s);
    TrimSlice(s);
    TrimSuffixSpace(s);
    TrimEnd(TrimStart(s))
  }

  /** The trimmed text neither starts nor ends with white space. */
  lemma TrimEnds(s: string)
    ensures var r := TrimEnd(TrimStart(s));
      r == [] || (!IsSpace(r[0]) && !IsSpace(r[|r| - 1]))
  {
    var t := TrimStart(s);
    var r := TrimEnd(t);
    if r != [] {
      assert r[0] == t[0];
    }
  }

  /** The trimmed text is the slice of `s` that starts after the leading
      white space. */
  lemma TrimSlice(s: string)
    ensures var t := TrimStart(s); var r := TrimEnd(t); var a := |s| - |t|;
      a + |r| <= |s| && r == s[a..a + |r|]
  {
    var t := TrimStart(s);
    PrefixOfSuffix(s, t, TrimEnd(t));
  }

  /** A prefix of a suffix of `s` is a slice of `s`. */
  lemma PrefixOfSuffix(s: string, t: string, r: string)
    requires |t| <= |s| && t == s[|s| - |t|..]
    requires |r| <= |t| && r == t[..|r|]
    ensures r == s[|s| - |t|..|s| - |t| + |r|]
  {
    assert s[|s| - |t|..][..|r|] == s[|s| - |t|..|s| - |t| + |r|];
  }

  /** Only white space follows the trimmed text in `s`. */
  lemma TrimSuffixSpace(s: string)
    ensures var t := TrimStart(s); var r := TrimEnd(t); var a := |s| - |t|;
      forall i :: a + |r| <= i < |s| ==> IsSpace(s[i])
  {
    var t := TrimStart(s);
    var r := TrimEnd(t);
    var a := |s| - |t|;
    forall i | a + |r| <= i < |s|
      ensures IsSpace(s[i])
    {
      assert s[i] == t[i - a];
    }
  }

  /** Trimming a trimmed string changes nothing. */
  lemma TrimIdempotent(s: string)
    ensures Trim(Trim(s)) == Trim(s)
  {
    var t := Trim(s);
    assert TrimStart(t) == t;
    assert TrimEnd(t) == t;
  }

  /** `pat` occurs in `s` at position `k` and at no earlier position. */
  predicate FirstAt(s: string, pat: string, k: nat)
  {
    && k + |pat| <= |s| && s[k..k + |pat|] == pat
    && forall j :: 0 <= j < k ==> !StartsWith(s[j..], pat)
  }

  /** The first occurrence of the pattern, wherever it is, is the one
      replaced; what comes before and after it is kept. */
  lemma {:induction false} ReplaceFirstAt(s: string, pat: string, rep: string, k: nat)
    requires FirstAt(s, pat, k)
    ensures ReplaceFirst(s, pat, rep) == s[..k] + rep + s[k + |pat|..]
    decreases k
  {
    if k == 0 {
      assert s[0..|pat|] == s[..|pat|];
    } else {
      FirstAtTail(s, pat, k);
      ReplaceFirstAt(s[1..], pat, rep, k - 1);
      ReplaceFirstStep(s, pat, rep, k);
    }
  }

  /** Where the pattern does not start the text, the replacement in the rest
      is the replacement in the whole, behind the first character. */
  lemma ReplaceFirstStep(s: string, pat: string, rep: string, k: nat)
    requires 0 < k && k + |pat| <= |s| && !StartsWith(s, pat)
    requires ReplaceFirst(s[1..], pat, rep) == s[1..][..k - 1] + rep + s[1..][k - 1 + |pat|..]
    ensures ReplaceFirst(s, pat, rep) == s[..k] + rep + s[k + |pat|..]
  {
    assert ReplaceFirst(s, pat, rep) == [s[0]] + ReplaceFirst(s[1..], pat, rep);
    ConsSlices(s, rep, k, |pat|);
  }

  /** Dropping the first character moves a later first occurrence one place
      earlier. */
  lemma FirstAtTail(s: string, pat: string, k: nat)
    requires FirstAt(s, pat, k) && k > 0
    ensures !StartsWith(s, pat) && FirstAt(s[1..], pat, k - 1)
  {
    var t := s[1..];
    assert !StartsWith(s[0..], pat);
    assert s[0..] == s;
    assert t[k - 1..k - 1 + |pat|] == s[k..k + |pat|];
    forall j | 0 <= j < k - 1
      ensures !StartsWith(t[j..], pat)
    {
      assert !StartsWith(s[j + 1..], pat);
      assert t[j..] == s[j + 1..];
    }
  }

  /** Putting the first character back in front of the pieces of the rest. */
  lemma ConsSlices(s: string, rep: string, k: nat, n: nat)
    requires 0 < k && k + n <= |s|
    ensures [s[0]] + (s[1..][..k - 1] + rep + s[1..][k - 1 + n..]) == s[..k] + rep + s[k + n..]
  {
    assert s[1..][..k - 1] == s[1..k];
    assert s[1..][k - 1 + n..] == s[k + n..];
    assert [s[0]] + s[1..k] == s[..k];
  }

  /** `s.replace(pat, rep)` with a string pattern: only the first occurrence
      is replaced, wherever it is. */
  function ReplaceFirst(s: string, pat: string, rep: string): (r: string)
    ensures StartsWith(s, pat) ==> r == rep + s[|pat|..]
    ensures !Contains(s, pat) ==> r == s
    decreases |s|
  {
    if StartsWith(s, pat) then rep + s[|pat|..]
    else if |s| == 0 then s
    else [s[0]] + ReplaceFirst(s[1..], pat, rep)
  }
}
