/** The new page content that post_edit computes: either the submitted text
    as a whole, or the submitted text spliced over a range of the old content
    given by a start position and a length. */
module Splice {
  import opened Optional
  import opened RubyText

  /** `[content[0, pos], submitted, content[pos + len .. -1]].join`. */
  function SpliceRange(content: string, pos: nat, len: nat, submitted: string): (r: string)
    ensures |r| == Min(pos, |content|) + |submitted| + Max(0, |content| - pos - len)
    ensures Take(content, pos) + submitted <= r
  {
    Take(content, pos) + submitted + DropFrom(content, pos + len)
  }

  /** The text a splice replaces: the characters from min(pos, |content|) up
      to min(pos + len, |content|). */
  function Removed(content: string, pos: nat, len: nat): (r: string)
    ensures |r| == Min(pos + len, |content|) - Min(pos, |content|)
  {
    content[Min(pos, |content|)..Min(pos + len, |content|)]
  }

  /** The content post_edit assigns to the page: a splice when a position was
      submitted, otherwise the submitted text itself. */
  function NewContent(content: string, pos: Option<nat>, len: nat, submitted: string): (r: string)
    ensures pos.None? ==> r == submitted
    ensures pos.Some? ==> |r| == Min(pos.value, |content|) + |submitted| + Max(0, |content| - pos.value - len)
  {
    match pos
    case None => submitted
    case Some(p) => SpliceRange(content, p, len, submitted)
  }

  /** The three parts of a splice: the old prefix up to min(pos, |content|),
      then the submitted text, then the old content from pos + len on (empty
      past the end). */
  lemma SpliceLayout(content: string, pos: nat, len: nat, submitted: string)
    ensures var r, m := SpliceRange(content, pos, len, submitted), Min(pos, |content|);
      && |r| == m + |submitted| + Max(0, |content| - pos - len)
      && r[..m] == content[..m]
      && r[m..m + |submitted|] == submitted
      && r[m + |submitted|..] == (if pos + len <= |content| then content[pos + len..] else [])
  {
    var r, m := SpliceRange(content, pos, len, submitted), Min(pos, |content|);
    var head, tail := Take(content, pos), DropFrom(content, pos + len);
    assert r == head + submitted + tail;
    assert r[..m] == head;
    assert r[m..m + |submitted|] == submitted;
    assert r[m + |submitted|..] == tail;
  }

  /** With length 0 the splice is a pure insertion: cutting the submitted text
      back out of the result gives the old content, character for character. */
  lemma InsertKeepsContent(content: string, pos: nat, submitted: string)
    ensures var r, m := SpliceRange(content, pos, 0, submitted), Min(pos, |content|);
      r[..m] + r[m + |submitted|..] == content
  {
    var m := Min(pos, |content|);
    SpliceLayout(content, pos, 0, submitted);
    if pos <= |content| {
      assert content[..m] + content[pos..] == content;
    }
  }

  /** A position at or past the end appends, whatever the length. */
  lemma SplicePastEndAppends(content: string, pos: nat, len: nat, submitted: string)
    requires pos >= |content|
    ensures SpliceRange(content, pos, len, submitted) == content + submitted
  {
  }

  /** The splice in terms of plain slices of the old content. */
  lemma SpliceParts(content: string, pos: nat, len: nat, submitted: string)
    ensures SpliceRange(content, pos, len, submitted)
            == content[..Min(pos, |content|)] + submitted + content[Min(pos + len, |content|)..]
  {
  }

  /** Slicing a three-part string at the ends of its middle part. */
  lemma SliceAround(head: string, middle: string, tail: string)
    ensures Take(head + middle + tail, |head|) == head
    ensures DropFrom(head + middle + tail, |head| + |middle|) == tail
  {
    var x := head + middle + tail;
    assert x[..|head|] == head;
    assert x[|head| + |middle|..] == tail;
  }

  /** Splicing the removed text back over the submitted text, at the clamped
      position, restores the old content: every splice can be undone. */
  lemma SpliceUndo(content: string, pos: nat, len: nat, submitted: string)
    ensures var m := Min(pos, |content|);
      SpliceRange(SpliceRange(content, pos, len, submitted), m, |submitted|, Removed(content, pos, len)) == content
  {
    var m, e := Min(pos, |content|), Min(pos + len, |content|);
    SpliceParts(content, pos, len, submitted);
    SliceAround(content[..m], submitted, content[e..]);
    assert content[..m] + content[m..e] + content[e..] == content;
  }

  /** Submitting exactly the text a range already holds leaves the content as
      it was. */
  lemma SpliceSameTextIsIdentity(content: string, pos: nat, len: nat)
    ensures SpliceRange(content, pos, len, Removed(content, pos, len)) == content
  {
    var m, e := Min(pos, |content|), Min(pos + len, |content|);
    assert Take(content, pos) == content[..m];
    assert DropFrom(content, pos + len) == content[e..];
    assert content[..m] + content[m..e] + content[e..] == content;
  }

  /** A patch of offset 5 and length 3 over "Hello World" keeps "Hello",
      replaces " Wo" and keeps "rld". */
  lemma HelloWorldPatch()
    ensures SpliceRange("Hello World", 5, 3, "XYZ") == "HelloXYZrld"
  {
  }
}
