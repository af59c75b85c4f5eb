/** How `post '/(:path)'` reads its action parameter:
    `params[:action].to_s.split('-', 2)` gives the handler name and, after
    the first dash, the close flag; the name selects `post_<name>`. */
module Actions {
  import opened Optional

  /** The two values the split is destructured into. Either may be nil. */
  datatype ParsedAction = ParsedAction(name: Option<string>, close: Option<string>)

  /** The handlers this model covers: post_edit, post_upload, post_attributes. */
  datatype Handler = Edit | Upload | Attributes

  /** Splits at the first dash, if there is one. */
  function SplitAtDash(s: string): (p: (string, Option<string>))
    ensures '-' !in p.0
    ensures p.1.None? ==> p.0 == s
    ensures p.1.Some? ==> s == p.0 + "-" + p.1.value
  {
    if s == [] then ([], None)
    else if s[0] == '-' then ([], Some(s[1..]))
    else
      var (h, t) := SplitAtDash(s[1..]);
      ([s[0]] + h, t)
  }

  /** `s.split('-', 2)` destructured into two variables. The empty string
      splits into no fields at all, so both are nil; a trailing dash gives an
      empty (and so still truthy) close flag. */
  function ParseAction(s: string): (r: ParsedAction)
    ensures s == [] <==> r.name.None?
    ensures r.name.None? ==> r.close.None?
    ensures r.name.Some? ==> '-' !in r.name.value
  {
    if s == [] then ParsedAction(None, None)
    else
      var (h, t) := SplitAtDash(s);
      ParsedAction(Some(h), t)
  }

  /** Writes an action parameter back from its two parts. */
  function Unparse(p: ParsedAction): string
  {
    (if p.name.Some? then p.name.value else []) + (if p.close.Some? then "-" + p.close.value else [])
  }

  /** Parsing loses nothing: the parts put back together give the parameter. */
  lemma UnparseParse(s: string)
    ensures Unparse(ParseAction(s)) == s
  {
  }

  /** A dash-free name followed by a dash and any flag parses into that name
      and that flag. */
  lemma {:induction false} ParseWithFlag(name: string, flag: string)
    requires '-' !in name
    ensures ParseAction(name + "-" + flag) == ParsedAction(Some(name), Some(flag))
  {
    SplitWithFlag(name, flag);
  }

  lemma {:induction false} SplitWithFlag(name: string, flag: string)
    requires '-' !in name
    ensures SplitAtDash(name + "-" + flag) == (name, Some(flag))
  {
    var s := name + "-" + flag;
    if name != [] {
      assert s[1..] == name[1..] + "-" + flag;
      SplitWithFlag(name[1..], flag);
      assert [name[0]] + name[1..] == name;
    }
  }

  /** A non-empty dash-free parameter is a bare handler name with no close
      flag. */
  lemma ParseWithoutFlag(name: string)
    requires name != [] && '-' !in name
    ensures ParseAction(name) == ParsedAction(Some(name), None)
  {
  }

  lemma EditCloseExamples()
    ensures ParseAction("edit-close") == ParsedAction(Some("edit"), Some("close"))
    ensures ParseAction("edit") == ParsedAction(Some("edit"), None)
  {
    ParseWithFlag("edit", "close");
    ParseWithoutFlag("edit");
  }

  /** `respond_to? "post_#{name}"` among the handlers of this model. */
  function HandlerFor(name: Option<string>): (h: Option<Handler>)
    ensures h.Some? ==> name == Some(HandlerName(h.value))
  {
    match name
    case Some("edit") => Some(Edit)
    case Some("upload") => Some(Upload)
    case Some("attributes") => Some(Attributes)
    case _ => None
  }

  function HandlerName(h: Handler): string
  {
    match h
    case Edit => "edit"
    case Upload => "upload"
    case Attributes => "attributes"
  }

  /** Every handler is reached by its own name, with or without close. */
  lemma HandlerForName(h: Handler, close: Option<string>)
    ensures var p := ParseAction(Unparse(ParsedAction(Some(HandlerName(h)), close)));
      HandlerFor(p.name) == Some(h) && p.close == close
  {
    var name := HandlerName(h);
    if close.Some? {
      assert Unparse(ParsedAction(Some(name), close)) == name + "-" + close.value;
      ParseWithFlag(name, close.value);
    } else {
      assert Unparse(ParsedAction(Some(name), close)) == name;
      ParseWithoutFlag(name);
    }
  }
}
