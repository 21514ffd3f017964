/**
 * The route's e-mail test `/^[^\s@]+@[^\s@]+\.[^\s@]+$/`, first as the language
 * the regular expression denotes, then as the scan the route relies on, with a
 * proof that the two accept exactly the same strings.
 */
module EmailShape {
  import opened Text

  /** The class `[^\s@]`. */
  predicate IsLabelChar(c: char) {
    !IsWhitespace(c) && c != '@'
  }

  /** `[^\s@]+` without the `+`: every character of `s` is in the class. */
  predicate AllLabelChars(s: string) {
    forall i :: 0 <= i < |s| ==> IsLabelChar(s[i])
  }

  /**
   * `s` is in the language of the regular expression: `s = L @ D . T` with
   * `L`, `D` and `T` non-empty runs of `[^\s@]`; `at` and `dot` are the
   * positions of the literal `@` and `.`.
   */
  ghost predicate MatchesAt(s: string, at: int, dot: int) {
    && 0 < at && at + 1 < dot && dot + 1 < |s|
    && s[at] == '@' && s[dot] == '.'
    && AllLabelChars(s[..at]) && AllLabelChars(s[at + 1..dot]) && AllLabelChars(s[dot + 1..])
  }

  ghost predicate MatchesEmailPattern(s: string) {
    exists at, dot :: MatchesAt(s, at, dot)
  }

  /** Position of the first occurrence of `c` in `s`. */
  function IndexOf(s: string, c: char): (i: nat)
    requires c in s
    ensures i < |s| && s[i] == c && c !in s[..i]
  {
    if s[0] == c then 0
    else
      assert c in s[1..] by { assert s == [s[0]] + s[1..]; }
      var j := IndexOf(s[1..], c);
      assert s[..j + 1] == [s[0]] + s[1..][..j];
      1 + j
  }

  /** Some `.` in `d` that is neither its first nor its last character. */
  predicate HasInnerDot(d: string) {
    exists k :: 0 < k < |d| - 1 && d[k] == '.'
  }

  /**
   * The test as the route applies it: no whitespace anywhere, exactly one `@`,
   * something before it, and after it a `.` that is neither first nor last.
   */
  function IsEmailShape(s: string): (ok: bool)
    ensures ok ==> 5 <= |s| && NoWhitespace(s) && s[0] != '@' && s[|s| - 1] != '@'
  {
    if NoWhitespace(s) && '@' in s && CountChar(s, '@') == 1 then
      var at := IndexOf(s, '@');
      if at > 0 && HasInnerDot(s[at + 1..]) then
        SingleAt(s, at);
        assert s[0] in s[..at] && s[|s| - 1] in s[at + 1..];
        true
      else
        false
    else
      false
  }

  /** Splitting `s` at one `@` that occurs once: neither side holds another `@`. */
  lemma SingleAt(s: string, at: int)
    requires 0 <= at < |s| && s[at] == '@'
    ensures CountChar(s, '@') == 1 <==> '@' !in s[..at] && '@' !in s[at + 1..]
  {
    assert s == s[..at] + ([s[at]] + s[at + 1..]);
    CountCharAppend(s[..at], [s[at]] + s[at + 1..], '@');
    CountCharAppend([s[at]], s[at + 1..], '@');
    CountCharZero(s[..at], '@');
    CountCharZero(s[at + 1..], '@');
  }

  /** The scan accepts exactly the strings the regular expression matches. */
  lemma EmailShapeIsPattern(s: string)
    ensures IsEmailShape(s) <==> MatchesEmailPattern(s)
  {
    if IsEmailShape(s) {
      ShapeMatches(s);
    }
    if MatchesEmailPattern(s) {
      var at, dot :| MatchesAt(s, at, dot);
      MatchHasShape(s, at, dot);
    }
  }

  lemma ShapeMatches(s: string)
    requires IsEmailShape(s)
    ensures MatchesEmailPattern(s)
  {
    var at := IndexOf(s, '@');
    SingleAt(s, at);
    var d := s[at + 1..];
    var k :| 0 < k < |d| - 1 && d[k] == '.';
    var dot := at + 1 + k;
    assert AllLabelChars(d) by {
      forall i | 0 <= i < |d| ensures IsLabelChar(d[i]) {
        assert d[i] in d;
        assert d[i] == s[at + 1 + i];
      }
    }
    assert s[at + 1..dot] == d[..k];
    assert s[dot + 1..] == d[k + 1..];
    assert AllLabelChars(s[..at]) by {
      forall i | 0 <= i < at ensures IsLabelChar(s[..at][i]) {
        assert s[..at][i] in s[..at];
      }
    }
    assert MatchesAt(s, at, dot);
  }

  lemma MatchHasShape(s: string, at: int, dot: int)
    requires MatchesAt(s, at, dot)
    ensures IsEmailShape(s)
  {
    var d := s[at + 1..];
    assert '@' !in s[..at] by {
      forall i | 0 <= i < at ensures s[..at][i] != '@' { }
    }
    assert '@' !in d by {
      forall i | 0 <= i < |d| ensures d[i] != '@' {
        if i < dot - at - 1 {
          assert d[i] == s[at + 1..dot][i];
        } else if i > dot - at - 1 {
          assert d[i] == s[dot + 1..][i - (dot - at)];
        }
      }
    }
    SingleAt(s, at);
    assert IndexOf(s, '@') == at;
    assert NoWhitespace(s) by {
      forall i | 0 <= i < |s| ensures !IsWhitespace(s[i]) {
        if i < at {
          assert s[i] == s[..at][i];
        } else if at < i < dot {
          assert s[i] == s[at + 1..dot][i - at - 1];
        } else if i > dot {
          assert s[i] == s[dot + 1..][i - dot - 1];
        }
      }
    }
    assert d[dot - at - 1] == '.';
    assert HasInnerDot(d);
  }
}
