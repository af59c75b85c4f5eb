/** The commit message post_edit passes to the store: the localised "page
    edited" text, followed by " - " and the editor's comment when the comment
    is not blank. */
module Messages {
  import opened Optional
  import opened RubyText

  const Separator: string := " - "

  function CommitMessage(base: string, comment: Option<string>): (m: string)
    ensures base <= m
    ensures m != base <==> !Blank(comment)
    ensures m != base ==> m[|base|..] == Separator + comment.value
  {
    if Blank(comment) then base else base + Separator + comment.value
  }

  /** Reads the comment back out of a message built on the given base text. */
  function CommentOf(base: string, m: string): (c: Option<string>)
    requires base <= m
    ensures c.Some? ==> m == base + Separator + c.value
  {
    if |m| >= |base| + |Separator| && m[|base|..|base| + |Separator|] == Separator
    then Some(m[|base| + |Separator|..])
    else None
  }

  /** The comment is recoverable from the message exactly when it was kept,
      and a blank comment leaves no trace. */
  lemma CommentRoundTrip(base: string, comment: Option<string>)
    ensures CommentOf(base, CommitMessage(base, comment)) == (if Blank(comment) then None else comment)
  {
    var m := CommitMessage(base, comment);
    if !Blank(comment) {
      assert m[|base|..|base| + |Separator|] == Separator;
      assert m[|base| + |Separator|..] == comment.value;
    }
  }
}
