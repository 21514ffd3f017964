/**
 * `sanitizeInput` of the contact route: remove every `<` and `>`, trim
 * surrounding whitespace, then keep at most the first 1000 characters.
 */
module Sanitize {
  import opened Text

  /** The length cap applied by `substring(0, 1000)`. */
  const MaxLength: nat := 1000

  /** `replace(/[<>]/g, '')`: every character that is not an angle bracket, in order. */
  function StripBrackets(s: string): (r: string)
    ensures |r| <= |s|
    ensures NoBrackets(r)
    ensures forall c :: c in r <==> c in s && !IsBracket(c)
    ensures NoBrackets(s) ==> r == s
  {
    if s == [] then []
    else
      var rest := StripBrackets(s[1..]);
      assert s == [s[0]] + s[1..];
      (if IsBracket(s[0]) then [] else [s[0]]) + rest
  }

  lemma {:induction false} StripBracketsAppend(a: string, b: string)
    ensures StripBrackets(a + b) == StripBrackets(a) + StripBrackets(b)
  {
    if a != [] {
      assert (a + b)[1..] == a[1..] + b;
      StripBracketsAppend(a[1..], b);
    } else {
      assert a + b == b;
    }
  }

  /** Drop leading whitespace: the longest suffix of `s` that does not start with whitespace. */
  function TrimStart(s: string): (r: string)
    ensures |r| <= |s| && r == s[|s| - |r|..]
    ensures AllWhitespace(s[..|s| - |r|])
    ensures r == [] || !IsWhitespace(r[0])
  {
    if s != [] && IsWhitespace(s[0]) then TrimStart(s[1..]) else s
  }

  /** Drop trailing whitespace: the longest prefix of `s` that does not end with whitespace. */
  function TrimEnd(s: string): (r: string)
    ensures |r| <= |s| && r == s[..|r|]
    ensures AllWhitespace(s[|r|..])
    ensures r == [] || !IsWhitespace(r[|r| - 1])
  {
    if s != [] && IsWhitespace(s[|s| - 1]) then
      var r := TrimEnd(s[..|s| - 1]);
      assert s[|r|..] == s[..|s| - 1][|r|..] + [s[|s| - 1]];
      r
    else s
  }

  /** `trim()`: the part of `s` between its leading and its trailing whitespace. */
  function Trim(s: string): (r: string)
    ensures r == [] || (!IsWhitespace(r[0]) && !IsWhitespace(r[|r| - 1]))
    ensures r == [] <==> AllWhitespace(s)
    ensures |s| == 0 || (!IsWhitespace(s[0]) && !IsWhitespace(s[|s| - 1])) ==> r == s
    ensures exists i :: 0 <= i <= |s| - |r| && r == s[i..i + |r|]
                        && AllWhitespace(s[..i]) && AllWhitespace(s[i + |r|..])
  {
    var t := TrimStart(s);
    assert t != [] ==> t[0] == s[|s| - |t|];
    var r := TrimEnd(t);
    var i := |s| - |t|;
    SliceOfSuffix(s, i, r);
    assert AllWhitespace(s[i + |r|..]);
    r
  }

  /** A prefix of the suffix of `s` from `i` is the slice of `s` from `i`. */
  lemma SliceOfSuffix(s: string, i: nat, r: string)
    requires i <= |s| && |r| <= |s| - i && r == s[i..][..|r|]
    ensures r == s[i..i + |r|] && s[i + |r|..] == s[i..][|r|..]
  {
  }

  /** `sanitizeInput(input)` of the contact route. */
  function SanitizeInput(s: string): (r: string)
    ensures |r| <= MaxLength
    ensures NoBrackets(r)
    ensures r == [] || !IsWhitespace(r[0])
    ensures |r| < MaxLength ==> r == [] || !IsWhitespace(r[|r| - 1])
    ensures var t := Trim(StripBrackets(s));
      |r| == (if |t| < MaxLength then |t| else MaxLength) && r == t[..|r|]
  {
    var t := Trim(StripBrackets(s));
    TrimKeepsNoBrackets(StripBrackets(s));
    Cap(t)
  }

  /** `substring(0, 1000)`: the first `MaxLength` characters, or all of them. */
  function Cap(t: string): (r: string)
    ensures |r| == (if |t| < MaxLength then |t| else MaxLength) && r == t[..|r|]
    ensures |r| < MaxLength ==> r == t
    ensures NoBrackets(t) ==> NoBrackets(r)
    ensures t != [] ==> r != [] && r[0] == t[0]
  {
    if |t| <= MaxLength then
      assert t == t[..|t|];
      t
    else
      var r := t[..MaxLength];
      assert NoBrackets(t) ==> NoBrackets(r) by {
        if NoBrackets(t) { NoBracketsSlice(t, 0, r); }
      }
      r
  }

  /** Trimming cannot bring back a bracket. */
  lemma TrimKeepsNoBrackets(u: string)
    requires NoBrackets(u)
    ensures NoBrackets(Trim(u))
  {
    var front := TrimStart(u);
    NoBracketsSlice(u, |u| - |front|, front);
    var t := TrimEnd(front);
    NoBracketsSlice(front, 0, t);
  }

  lemma NoBracketsSlice(u: string, i: nat, t: string)
    requires NoBrackets(u) && i + |t| <= |u| && t == u[i..i + |t|]
    ensures NoBrackets(t)
  {
    assert forall k :: 0 <= k < |t| ==> t[k] == u[i + k];
  }

  /** Below the cap, sanitizing is stripping and trimming. */
  lemma SanitizeUncapped(s: string)
    requires |Trim(StripBrackets(s))| <= MaxLength
    ensures SanitizeInput(s) == Trim(StripBrackets(s))
  {
  }

  /**
   * A string that is already bracket-free, trimmed and short enough is left
   * exactly as it is.
   */
  lemma SanitizeFixedPoint(s: string)
    requires NoBrackets(s)
    requires |s| <= MaxLength
    requires s == [] || (!IsWhitespace(s[0]) && !IsWhitespace(s[|s| - 1]))
    ensures SanitizeInput(s) == s
  {
    assert StripBrackets(s) == s;
    assert Trim(s) == s;
    SanitizeUncapped(s);
  }

  /** Once truncation plays no part, sanitizing twice is the same as sanitizing once. */
  lemma SanitizeIdempotentWhenShort(s: string)
    requires |SanitizeInput(s)| < MaxLength
    ensures SanitizeInput(SanitizeInput(s)) == SanitizeInput(s)
  {
    SanitizeFixedPoint(SanitizeInput(s));
  }

  /** A clean string longer than the cap is simply cut at the cap. */
  lemma SanitizeCleanLong(s: string)
    requires |s| > MaxLength && NoBrackets(s)
    requires !IsWhitespace(s[0]) && !IsWhitespace(s[|s| - 1])
    ensures SanitizeInput(s) == s[..MaxLength]
  {
    assert StripBrackets(s) == s;
    assert Trim(s) == s;
    var r := SanitizeInput(s);
    assert |r| == MaxLength && r == s[..|r|];
  }

  /** Trailing whitespace after a clean string is all that trimming removes. */
  lemma SanitizeCleanWithTrailingSpace(a: string, w: char)
    requires 0 < |a| < MaxLength && NoBrackets(a) && !IsBracket(w) && IsWhitespace(w)
    requires !IsWhitespace(a[0]) && !IsWhitespace(a[|a| - 1])
    ensures SanitizeInput(a + [w]) == a
  {
    var t := a + [w];
    assert NoBrackets(t) by {
      forall i | 0 <= i < |t| ensures !IsBracket(t[i]) {
        if i < |a| { assert t[i] == a[i]; }
      }
    }
    assert StripBrackets(t) == t;
    assert TrimStart(t) == t by { assert t[0] == a[0]; }
    assert t[..|t| - 1] == a;
    assert TrimEnd(t) == TrimEnd(a);
    assert TrimEnd(a) == a;
    assert Trim(t) == a;
    SanitizeUncapped(t);
  }

  /**
   * Sanitizing is not idempotent in general: cutting a 1001-character string at
   * 1000 can leave a trailing space, which a second pass trims away. Any 999
   * plain characters followed by " b" show it.
   */
  lemma TruncationBreaksIdempotence(a: string)
    requires |a| == MaxLength - 1
    requires NoBrackets(a) && NoWhitespace(a)
    ensures SanitizeInput(a + " b") == a + " "
    ensures SanitizeInput(a + " ") == a
  {
    TruncationLeavesSpace(a);
    TrailingSpaceTrimmed(a);
  }

  lemma TrailingSpaceTrimmed(a: string)
    requires |a| == MaxLength - 1
    requires NoBrackets(a) && NoWhitespace(a)
    ensures SanitizeInput(a + " ") == a
  {
    assert a + " " == a + [' '];
    assert !IsWhitespace(a[0]) && !IsWhitespace(a[|a| - 1]);
    SanitizeCleanWithTrailingSpace(a, ' ');
  }

  lemma TruncationLeavesSpace(a: string)
    requires |a| == MaxLength - 1
    requires NoBrackets(a) && NoWhitespace(a)
    ensures SanitizeInput(a + " b") == a + " "
  {
    var s := a + " b";
    assert !IsWhitespace(s[0]) by { assert s[0] == a[0]; }
    assert NoBrackets(s) by {
      forall i | 0 <= i < |s| ensures !IsBracket(s[i]) {
        if i < |a| { assert s[i] == a[i]; }
      }
    }
    SanitizeCleanLong(s);
    assert s[..MaxLength] == a + " ";
  }

  /**
   * A value made only of whitespace and angle brackets sanitizes to the empty
   * string, even though it is non-empty (and so passes a truthiness test).
   */
  lemma OnlyBracketsAndSpaceSanitizeToEmpty(s: string)
    requires forall i :: 0 <= i < |s| ==> IsBracket(s[i]) || IsWhitespace(s[i])
    ensures SanitizeInput(s) == []
  {
    var t := StripBrackets(s);
    forall i | 0 <= i < |t| ensures IsWhitespace(t[i]) {
      assert t[i] in t;
    }
  }
}
