/** The pieces of Ruby string behaviour the edit pipeline relies on: slicing
    by start and count, slicing to the end and `blank?`; and substring
    occurrence, which the handlers do not call but the line-ending lemmas
    are stated with. Strings are sequences of characters, as Ruby indexes
    them. */
module RubyText {
  import opened Optional

  function Min(a: int, b: int): int { if a <= b then a else b }

  function Max(a: int, b: int): int { if a <= b then b else a }

  /** `s[0, n]` for a count n >= 0: at most the first n characters. Start 0 is
      always in range, so the result is never nil. */
  function Take(s: string, n: nat): (r: string)
    ensures |r| == Min(n, |s|)
    ensures r <= s
  {
    if n <= |s| then s[..n] else s
  }

  /** `[s[k .. -1]].join` for k >= 0: the characters from index k on. Ruby
      answers nil once k > |s|, and `join` turns that nil into "". */
  function DropFrom(s: string, k: nat): (r: string)
    ensures |r| == Max(0, |s| - k)
    ensures r == [] || r == s[k..]
  {
    if k <= |s| then s[k..] else []
  }

  /** Slicing to a count and slicing from it split a string in two. */
  lemma TakeDropFrom(s: string, k: nat)
    ensures Take(s, k) + DropFrom(s, k) == s
  {
  }

  /** pat occurs somewhere in s. Used to state what line-ending
      normalisation leaves behind. */
  predicate Contains(s: string, pat: string)
  {
    exists i :: 0 <= i <= |s| && pat <= s[i..]
  }

  /** Adding one character in front of a string adds exactly the occurrences
      that start at that character. */
  lemma ContainsCons(c: char, t: string, pat: string)
    ensures Contains([c] + t, pat) <==> pat <= [c] + t || Contains(t, pat)
  {
    var s := [c] + t;
    if pat <= s {
      assert s[0..] == s;
    }
    if Contains(s, pat) && !(pat <= s) {
      var i :| 0 <= i <= |s| && pat <= s[i..];
      assert i != 0;
      assert s[i..] == t[i - 1..];
    }
    if Contains(t, pat) {
      var i :| 0 <= i <= |t| && pat <= t[i..];
      assert s[i + 1..] == t[i..];
    }
  }

  /** ASCII white space: space, tab, line feed, vertical tab, form feed and
      carriage return. */
  predicate IsSpace(c: char)
  {
    c == ' ' || c == '\t' || c == '\n' || c == '\U{000B}' || c == '\U{000C}' || c == '\r'
  }

  /** `x.blank?` for a parameter that is a string or nil: nil, or nothing but
      white space. */
  predicate Blank(x: Option<string>)
  {
    match x
    case None => true
    case Some(s) => forall i :: 0 <= i < |s| ==> IsSpace(s[i])
  }
}
