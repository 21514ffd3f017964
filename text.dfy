/**
 * Character classes and small string functions shared by the server route and
 * the client form. Strings are sequences of Unicode scalar values.
 */
module Text {

  /**
   * The characters that JavaScript's `String.prototype.trim` removes and that the
   * regular-expression class `\s` matches: the ECMAScript WhiteSpace and
   * LineTerminator code points.
   */
  predicate IsWhitespace(c: char) {
    || c == ' ' || c == '\t' || c == '\n' || c == '\r'
    || c == '\U{000B}' || c == '\U{000C}' || c == '\U{00A0}' || c == '\U{1680}'
    || ('\U{2000}' <= c <= '\U{200A}')
    || c == '\U{2028}' || c == '\U{2029}' || c == '\U{202F}' || c == '\U{205F}'
    || c == '\U{3000}' || c == '\U{FEFF}'
  }

  /** The two characters the route strips to keep markup out of the e-mail. */
  predicate IsBracket(c: char) {
    c == '<' || c == '>'
  }

  predicate NoBrackets(s: string) {
    forall i :: 0 <= i < |s| ==> !IsBracket(s[i])
  }

  predicate AllWhitespace(s: string) {
    forall i :: 0 <= i < |s| ==> IsWhitespace(s[i])
  }

  predicate NoWhitespace(s: string) {
    forall i :: 0 <= i < |s| ==> !IsWhitespace(s[i])
  }

  /** Number of occurrences of `c` in `s`. */
  function CountChar(s: string, c: char): nat {
    if s == [] then 0 else (if s[0] == c then 1 else 0) + CountChar(s[1..], c)
  }

  lemma {:induction false} CountCharAppend(a: string, b: string, c: char)
    ensures CountChar(a + b, c) == CountChar(a, c) + CountChar(b, c)
  {
    if a == [] {
      assert a + b == b;
    } else {
      assert (a + b)[1..] == a[1..] + b;
      CountCharAppend(a[1..], b, c);
    }
  }

  lemma {:induction false} CountCharZero(s: string, c: char)
    ensures CountChar(s, c) == 0 <==> c !in s
  {
    if s != [] {
      CountCharZero(s[1..], c);
      assert s == [s[0]] + s[1..];
    }
  }

  /** The combined length of the strings in `xs`. */
  function TotalLength(xs: seq<string>): nat {
    if xs == [] then 0 else |xs[0]| + TotalLength(xs[1..])
  }

  /**
   * Array.prototype.join: the elements of `xs` with `sep` between consecutive
   * ones. The result starts with the first element, ends with the last, and
   * holds every element's characters plus one separator per gap.
   */
  function Join(xs: seq<string>, sep: string): (r: string)
    ensures xs == [] ==> r == ""
    ensures |xs| > 0 ==> |r| == TotalLength(xs) + (|xs| - 1) * |sep|
    ensures |xs| > 0 ==> |xs[0]| <= |r| && r[..|xs[0]|] == xs[0]
    ensures |xs| > 0 ==> |xs[|xs| - 1]| <= |r| && r[|r| - |xs[|xs| - 1]|..] == xs[|xs| - 1]
    ensures |xs| > 1 ==> |xs[0]| + |sep| <= |r| && r[|xs[0]|..|xs[0]| + |sep|] == sep
  {
    if xs == [] then ""
    else if |xs| == 1 then xs[0]
    else
      var rest := Join(xs[1..], sep);
      assert xs[1..][|xs[1..]| - 1] == xs[|xs| - 1];
      xs[0] + sep + rest
  }

  /** Regrouping a concatenation; stated once so the solver need not search for it. */
  lemma ConcatAssoc<T>(a: seq<T>, b: seq<T>, c: seq<T>)
    ensures a + (b + c) == a + b + c
  {
  }

  /** Joining one more element adds the separator and then that element at the end. */
  lemma {:induction false} JoinSnoc(xs: seq<string>, x: string, sep: string)
    requires xs != []
    ensures Join(xs + [x], sep) == Join(xs, sep) + sep + x
  {
    var ys := xs + [x];
    assert ys[0] == xs[0] && |ys| > 1;
    if |xs| == 1 {
      assert ys[1..] == [x];
      assert Join(ys, sep) == xs[0] + sep + x;
    } else {
      assert ys[1..] == xs[1..] + [x];
      JoinSnoc(xs[1..], x, sep);
      var head, tail := xs[0] + sep, Join(xs[1..], sep);
      assert Join(ys, sep) == head + (tail + sep + x);
      ConcatAssoc(head, tail + sep, x);
      ConcatAssoc(head, tail, sep);
      assert Join(xs, sep) == head + tail;
    }
  }

  /** `t` occurs in `s` starting at position `i`. */
  predicate OccursAt(t: string, s: string, i: int) {
    0 <= i <= |s| - |t| && s[i..i + |t|] == t
  }

  /** `t` occurs in `s` as a contiguous piece (`s.includes(t)`). */
  ghost predicate Occurs(t: string, s: string) {
    exists i :: OccursAt(t, s, i)
  }

  lemma OccursWithin(a: string, t: string, b: string)
    ensures Occurs(t, a + t + b)
  {
    assert OccursAt(t, a + t + b, |a|);
  }

  /** Whatever occurs in `s` still occurs once text is put before it. */
  lemma OccursAfter(p: string, s: string)
    ensures forall t :: Occurs(t, s) ==> Occurs(t, p + s)
  {
    forall t | Occurs(t, s) ensures Occurs(t, p + s) {
      var i :| OccursAt(t, s, i);
      assert (p + s)[|p| + i..|p| + i + |t|] == s[i..i + |t|];
      assert OccursAt(t, p + s, |p| + i);
    }
  }

  lemma OccursTrans(t: string, u: string, s: string)
    requires Occurs(t, u) && Occurs(u, s)
    ensures Occurs(t, s)
  {
    var i :| OccursAt(t, u, i);
    var j :| OccursAt(u, s, j);
    forall k | 0 <= k < |t| ensures s[j + i..j + i + |t|][k] == t[k] {
      assert t[k] == u[i + k] == s[j + i + k];
    }
    assert s[j + i..j + i + |t|] == t;
    assert OccursAt(t, s, j + i);
  }

  /** Whatever occurs in `u` occurs in any text `u` occurs in. */
  lemma OccursTransAll(u: string, s: string)
    requires Occurs(u, s)
    ensures forall t :: Occurs(t, u) ==> Occurs(t, s)
  {
    forall t | Occurs(t, u) ensures Occurs(t, s) {
      OccursTrans(t, u, s);
    }
  }

  /** Both parts of a concatenation occur in it. */
  lemma OccursInConcat(first: string, rest: string)
    ensures Occurs(first, first + rest)
    ensures forall t :: Occurs(t, rest) ==> Occurs(t, first + rest)
  {
    assert (first + rest)[0..|first|] == first;
    assert OccursAt(first, first + rest, 0);
    OccursAfter(first, rest);
  }

  /** Whatever occurs in `u` occurs in `p + u + q`. */
  lemma OccursInMiddle(p: string, u: string, q: string)
    ensures forall t :: Occurs(t, u) ==> Occurs(t, p + u + q)
  {
    OccursWithin(p, u, q);
    OccursTransAll(u, p + u + q);
  }
}
