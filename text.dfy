/** Character-level string helpers of Java and Python, for ASCII text. */
module Text {

  /** Java `Character`-style upper-casing of one ASCII letter; every other character is kept. */
  function UpperChar(c: char): (r: char)
    ensures 'a' <= c <= 'z' ==> 'A' <= r <= 'Z'
    ensures !('a' <= c <= 'z') ==> r == c
  {
    if 'a' <= c <= 'z' then (c as int - 'a' as int + 'A' as int) as char else c
  }

  function LowerChar(c: char): (r: char)
    ensures 'A' <= c <= 'Z' ==> 'a' <= r <= 'z'
    ensures !('A' <= c <= 'Z') ==> r == c
  {
    if 'A' <= c <= 'Z' then (c as int - 'A' as int + 'a' as int) as char else c
  }

  /** String.toUpperCase, restricted to ASCII letters. */
  function ToUpper(s: string): (r: string)
    ensures |r| == |s|
    ensures forall i :: 0 <= i < |s| ==> r[i] == UpperChar(s[i])
  {
    if s == [] then [] else [UpperChar(s[0])] + ToUpper(s[1..])
  }

  /** String.toLowerCase, restricted to ASCII letters. */
  function ToLower(s: string): (r: string)
    ensures |r| == |s|
    ensures forall i :: 0 <= i < |s| ==> r[i] == LowerChar(s[i])
  {
    if s == [] then [] else [LowerChar(s[0])] + ToLower(s[1..])
  }

  /** Upper-casing an upper-case string changes nothing. */
  lemma {:induction false} ToUpperIdempotent(s: string)
    ensures ToUpper(ToUpper(s)) == ToUpper(s)
  {
    if s != [] {
      ToUpperIdempotent(s[1..]);
      assert ToUpper(s)[1..] == ToUpper(s[1..]);
    }
  }

  /** Lower-casing a lower-case string changes nothing. */
  lemma {:induction false} ToLowerIdempotent(s: string)
    ensures ToLower(ToLower(s)) == ToLower(s)
  {
    if s != [] {
      ToLowerIdempotent(s[1..]);
      assert ToLower(s)[1..] == ToLower(s[1..]);
    }
  }

  /** What Java's String.trim removes: every character up to and including the space. */
  predicate JavaBlank(c: char)
  {
    c <= ' '
  }

  function JavaTrimLeading(s: string): (r: string)
    ensures |r| <= |s|
    ensures r == [] || !JavaBlank(r[0])
  {
    if s != [] && JavaBlank(s[0]) then JavaTrimLeading(s[1..]) else s
  }

  function JavaTrimTrailing(s: string): (r: string)
    ensures |r| <= |s|
    ensures r == [] || !JavaBlank(r[|r| - 1])
  {
    if s != [] && JavaBlank(s[|s| - 1]) then JavaTrimTrailing(s[..|s| - 1]) else s
  }

  /** String.trim: the longest middle part that neither starts nor ends with a blank. */
  function JavaTrim(s: string): (r: string)
    ensures |r| <= |s|
  {
    JavaTrimTrailing(JavaTrimLeading(s))
  }

  /** A trimmed string neither starts nor ends with a blank. */
  lemma JavaTrimEnds(s: string)
    ensures var r := JavaTrim(s); r == [] || (!JavaBlank(r[0]) && !JavaBlank(r[|r| - 1]))
  {
    JavaTrimTrailingIsPrefix(JavaTrimLeading(s));
  }

  lemma {:induction false} JavaTrimLeadingIsSuffix(s: string)
    ensures JavaTrimLeading(s) == s[|s| - |JavaTrimLeading(s)|..]
  {
    if s != [] && JavaBlank(s[0]) {
      JavaTrimLeadingIsSuffix(s[1..]);
    }
  }

  lemma {:induction false} JavaTrimTrailingIsPrefix(s: string)
    ensures JavaTrimTrailing(s) == s[..|JavaTrimTrailing(s)|]
  {
    if s != [] && JavaBlank(s[|s| - 1]) {
      JavaTrimTrailingIsPrefix(s[..|s| - 1]);
    }
  }

  /** What trim keeps is one contiguous slice of the input. */
  lemma JavaTrimIsSlice(s: string) returns (i: int, j: int)
    ensures 0 <= i <= j <= |s| && JavaTrim(s) == s[i..j]
  {
    var front := JavaTrimLeading(s);
    JavaTrimLeadingIsSuffix(s);
    JavaTrimTrailingIsPrefix(front);
    i := |s| - |front|;
    j := i + |JavaTrim(s)|;
  }

  /** Trimming is idempotent: a trimmed string has nothing left to trim. */
  lemma JavaTrimIdempotent(s: string)
    ensures JavaTrim(JavaTrim(s)) == JavaTrim(s)
  {
    var r := JavaTrim(s);
    JavaTrimEnds(s);
    assert JavaTrimLeading(r) == r;
  }

  /** Lower-casing keeps blanks blank and non-blanks non-blank, so trim and toLowerCase commute. */
  lemma {:induction false} TrimLeadingLower(s: string)
    ensures JavaTrimLeading(ToLower(s)) == ToLower(JavaTrimLeading(s))
  {
    if s != [] && JavaBlank(s[0]) {
      assert ToLower(s)[1..] == ToLower(s[1..]);
      TrimLeadingLower(s[1..]);
    }
  }

  lemma {:induction false} TrimTrailingLower(s: string)
    ensures JavaTrimTrailing(ToLower(s)) == ToLower(JavaTrimTrailing(s))
  {
    if s != [] && JavaBlank(s[|s| - 1]) {
      assert ToLower(s)[..|s| - 1] == ToLower(s[..|s| - 1]);
      TrimTrailingLower(s[..|s| - 1]);
    }
  }

  lemma TrimLowerCommute(s: string)
    ensures JavaTrim(ToLower(s)) == ToLower(JavaTrim(s))
  {
    TrimLeadingLower(s);
    TrimTrailingLower(JavaTrimLeading(s));
  }

  /** Blanks in front of a string make no difference to what trim keeps of its start. */
  lemma {:induction false} TrimLeadingBlankPrefix(pre: string, t: string)
    requires forall i :: 0 <= i < |pre| ==> JavaBlank(pre[i])
    ensures JavaTrimLeading(pre + t) == JavaTrimLeading(t)
  {
    if pre == [] {
      assert pre + t == t;
    } else {
      assert (pre + t)[0] == pre[0] && (pre + t)[1..] == pre[1..] + t;
      TrimLeadingBlankPrefix(pre[1..], t);
    }
  }

  lemma {:induction false} TrimTrailingBlankSuffix(t: string, post: string)
    requires forall i :: 0 <= i < |post| ==> JavaBlank(post[i])
    ensures JavaTrimTrailing(t + post) == JavaTrimTrailing(t)
  {
    if post == [] {
      assert t + post == t;
    } else {
      assert (t + post)[|t + post| - 1] == post[|post| - 1];
      assert (t + post)[..|t + post| - 1] == t + post[..|post| - 1];
      TrimTrailingBlankSuffix(t, post[..|post| - 1]);
    }
  }

  /** Trimming the start of a string with a non-blank in it never reaches what follows it. */
  lemma {:induction false} TrimLeadingKeepsTail(s: string, post: string)
    requires exists i :: 0 <= i < |s| && !JavaBlank(s[i])
    ensures JavaTrimLeading(s + post) == JavaTrimLeading(s) + post
  {
    if JavaBlank(s[0]) {
      assert (s + post)[1..] == s[1..] + post;
      var i :| 0 <= i < |s| && !JavaBlank(s[i]);
      assert !JavaBlank(s[1..][i - 1]);
      TrimLeadingKeepsTail(s[1..], post);
    }
  }

  /** Surrounding blanks make no difference to String.trim. */
  lemma JavaTrimIgnoresSurroundingBlanks(pre: string, s: string, post: string)
    requires forall i :: 0 <= i < |pre| ==> JavaBlank(pre[i])
    requires forall i :: 0 <= i < |post| ==> JavaBlank(post[i])
    ensures JavaTrim(pre + s + post) == JavaTrim(s)
  {
    assert pre + s + post == pre + (s + post);
    TrimLeadingBlankPrefix(pre, s + post);
    if exists i :: 0 <= i < |s| && !JavaBlank(s[i]) {
      TrimLeadingKeepsTail(s, post);
      TrimTrailingBlankSuffix(JavaTrimLeading(s), post);
    } else {
      TrimLeadingBlankPrefix(s, post);
      TrimLeadingBlankPrefix(post, []);
      TrimLeadingBlankPrefix(s, []);
      assert s + [] == s && post + [] == post;
    }
  }

  /** Python's str.isspace, for the characters below U+0100. */
  predicate PyBlank(c: char)
  {
    c == ' ' || 9 <= c as int <= 13 || 28 <= c as int <= 31 || c as int == 0x85 || c as int == 0xa0
  }

  function PyStripLeading(s: string): (r: string)
    ensures |r| <= |s|
    ensures r == [] || !PyBlank(r[0])
  {
    if s != [] && PyBlank(s[0]) then PyStripLeading(s[1..]) else s
  }

  function PyStripTrailing(s: string): (r: string)
    ensures |r| <= |s|
    ensures r == [] || !PyBlank(r[|r| - 1])
  {
    if s != [] && PyBlank(s[|s| - 1]) then PyStripTrailing(s[..|s| - 1]) else s
  }

  /** Python's str.strip() with no argument, for the characters below U+0100. */
  function PyStrip(s: string): (r: string)
    ensures |r| <= |s|
  {
    PyStripTrailing(PyStripLeading(s))
  }

  /** String.indexOf of one character: the first position holding it, or -1. */
  function IndexOf(s: string, c: char): (i: int)
    ensures -1 <= i < |s|
    ensures i == -1 <==> c !in s
    ensures i >= 0 ==> s[i] == c && c !in s[..i]
  {
    if s == [] then -1
    else if s[0] == c then 0
    else var k := IndexOf(s[1..], c); if k == -1 then -1 else k + 1
  }

}
