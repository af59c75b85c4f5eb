/** The edit-submission handlers of the application controller. A request
    reaches `post '/(:path)'`, whose action parameter selects post_edit,
    post_upload or post_attributes; each stages its change on the page, runs
    the shared `check`, and only then saves the page and commits. */
module Application {
  import opened Optional
  import opened RubyText
  import opened Splice
  import opened LineEndings
  import opened Messages
  import opened Actions
  import opened ReservedPath
  import opened Validation

  /** The page a handler works on. The page store behind it is not part of
      this model: whether the page counts as modified is given to each
      handler as the answer of `page.modified?`. */
  class Page {
    const path: string
    var content: string
    const version: string
    const isNew: bool

    constructor (path: string, content: string, version: string, isNew: bool)
      ensures this.path == path && this.content == content
      ensures this.version == version && this.isNew == isNew
    {
      this.path := path;
      this.content := content;
      this.version := version;
      this.isNew := isNew;
    }
  }

  /** The request parameters the handlers read, after `to_i` on the numeric
      ones. content and comment are the two the handlers change. */
  class Params {
    var content: Option<string>
    var comment: Option<string>
    const pos: Option<nat>
    const len: nat
    const version: Option<string>
    const file: Option<string>
    const action: string

    constructor (content: Option<string>, comment: Option<string>, pos: Option<nat>, len: nat,
                 version: Option<string>, file: Option<string>, action: string)
      ensures this.content == content && this.comment == comment
      ensures this.pos == pos && this.len == len && this.version == version
      ensures this.file == file && this.action == action
    {
      this.content := content;
      this.comment := comment;
      this.pos := pos;
      this.len := len;
      this.version := version;
      this.file := file;
      this.action := action;
    }
  }

  /** A call the handlers make into the page store. */
  datatype Event = PageSaved(content: string) | PageCommitted(message: string)

  /** The page store as the handlers use it: the calls to `page.save` and
      `Page.commit`, in order. */
  class Repository {
    var log: seq<Event>

    constructor ()
      ensures log == []
    {
      log := [];
    }

    method Save(content: string)
      modifies this
      ensures log == old(log) + [PageSaved(content)]
    {
      log := log + [PageSaved(content)];
    }

    method Commit(message: string)
      modifies this
      ensures log == old(log) + [PageCommitted(message)]
    {
      log := log + [PageCommitted(message)];
    }
  }

  /** The localised base texts of the three commit messages. */
  datatype Texts = Texts(pageEdited: string, pageUploaded: string, attributesEdited: string)

  /** Why a request stops with an exception before any validation. */
  datatype Failure = NoContent | NoFile | InvalidAction | Reserved

  /** How a request ends. */
  datatype Outcome =
    | Failed(failure: Failure)
    | Redirected
    | Rejected(errors: seq<Error>)
    | Committed(message: string)

  /** The outcome a handler's decision leads to, with the message it commits
      on success. */
  function Conclude(d: Decision, message: string): (o: Outcome)
    ensures o.Committed? <==> d == Save
    ensures o.Committed? ==> o.message == message
    ensures o.Rejected? <==> d.Reject?
    ensures d == Leave ==> o == Redirected
    ensures d.Reject? ==> o == Rejected(d.errors)
  {
    match d
    case Leave => Redirected
    case Reject(errs) => Rejected(errs)
    case Save => Committed(message)
  }

  class Controller {
    var page: Page
    var close: Option<string>
    const params: Params
    const repo: Repository

    constructor (page: Page, params: Params, repo: Repository)
      ensures this.page == page && this.params == params && this.repo == repo
      ensures close == None
    {
      this.page := page;
      this.params := params;
      this.repo := repo;
      close := None;
    }

    /** The `check` block: collects the version conflict, then the missing
        change. */
    method Check(modified: bool) returns (errors: seq<Error>)
      ensures errors == Errors(page.isNew, page.version, params.version, modified)
    {
      errors := [];
      if !page.isNew && params.version != Some(page.version) {
        errors := errors + [VersionConflict];
      }
      if !modified {
        errors := errors + [NoChanges];
      }
    }

    /** post_edit. modified is the answer of `page.modified?` once the new
        content is assigned. */
    method PostEdit(edited: string, modified: bool) returns (outcome: Outcome)
      modifies page, params, repo
      ensures old(params.content).None? ==>
        outcome == Failed(NoContent) && unchanged(page, params, repo)
      ensures old(params.content).Some? ==>
        var submitted := Normalize(old(params.content).value);
        && params.content == Some(submitted)
        && page.content == NewContent(old(page.content), params.pos, params.len, submitted)
        && outcome == Conclude(Decide(close.Some?, page.isNew, page.version, params.version, modified),
                               CommitMessage(edited, old(params.comment)))
      ensures outcome.Committed? ==>
        && repo.log == old(repo.log) + [PageSaved(page.content), PageCommitted(outcome.message)]
        && params.comment == None
      ensures !outcome.Committed? ==>
        repo.log == old(repo.log) && params.comment == old(params.comment)
    {
      if params.content.None? {
        return Failed(NoContent);
      }
      params.content := Some(Normalize(params.content.value));
      var message := edited;
      if !Blank(params.comment) {
        message := message + Separator + params.comment.value;
      }
      page.content := NewContent(page.content, params.pos, params.len, params.content.value);
      if close.Some? && !modified {
        return Redirected;
      }
      var errors := Check(modified);
      if errors != [] {
        return Rejected(errors);
      }
      repo.Save(page.content);
      repo.Commit(message);
      params.comment := None;
      outcome := Committed(message);
    }

    /** post_upload. The uploaded file's contents are given as read; the
        handler has no early exit on close. */
    method PostUpload(uploaded: string, modified: bool) returns (outcome: Outcome)
      modifies page, repo
      ensures params.file.None? ==> outcome == Failed(NoFile) && unchanged(page, repo)
      ensures params.file.Some? ==>
        && page.content == params.file.value
        && outcome == Conclude(Decide(false, page.isNew, page.version, params.version, modified), uploaded)
      ensures outcome.Committed? ==>
        repo.log == old(repo.log) + [PageSaved(page.content), PageCommitted(uploaded)]
      ensures !outcome.Committed? ==> repo.log == old(repo.log)
    {
      if params.file.None? {
        return Failed(NoFile);
      }
      page.content := params.file.value;
      var errors := Check(modified);
      if errors != [] {
        return Rejected(errors);
      }
      repo.Save(page.content);
      repo.Commit(uploaded);
      outcome := Committed(uploaded);
    }

    /** post_attributes. The attribute update itself belongs to the page
        store; what it leaves behind is the answer of `page.modified?`. */
    method PostAttributes(attributesEdited: string, modified: bool) returns (outcome: Outcome)
      modifies repo
      ensures outcome == Conclude(Decide(close.Some?, page.isNew, page.version, params.version, modified),
                                  attributesEdited)
      ensures outcome.Committed? ==>
        repo.log == old(repo.log) + [PageSaved(page.content), PageCommitted(attributesEdited)]
      ensures !outcome.Committed? ==> repo.log == old(repo.log)
    {
      if close.Some? && !modified {
        return Redirected;
      }
      var errors := Check(modified);
      if errors != [] {
        return Rejected(errors);
      }
      repo.Save(page.content);
      repo.Commit(attributesEdited);
      outcome := Committed(attributesEdited);
    }

    /** `post '/(:path)'`: parse the action, select its handler, reject a
        reserved path, then run the handler on the page found (or created)
        for the path. routeMatch is the route-table half of
        `reserved_path?`. */
    method PostPage(found: Page, routeMatch: bool, texts: Texts, modified: bool)
      returns (outcome: Outcome)
      modifies this, found, params, repo
      ensures close == ParseAction(params.action).close
      ensures HandlerFor(ParseAction(params.action).name).None? ==>
        outcome == Failed(InvalidAction) && unchanged(found, params, repo)
      ensures HandlerFor(ParseAction(params.action).name).Some? ==> page == found
      ensures HandlerFor(ParseAction(params.action).name).Some? && IsReserved(found.path, routeMatch) ==>
        outcome == Failed(Reserved) && unchanged(found, params, repo)
      ensures outcome.Committed? ==>
        && HandlerFor(ParseAction(params.action).name).Some?
        && !IsReserved(found.path, routeMatch)
        && modified && !Conflict(found.isNew, found.version, params.version)
        && repo.log == old(repo.log) + [PageSaved(found.content), PageCommitted(outcome.message)]
      ensures !outcome.Committed? ==> repo.log == old(repo.log)
      ensures outcome.Redirected? ==> close.Some? && !modified
      ensures var h := HandlerFor(ParseAction(params.action).name);
        (close.Some? && !modified && !IsReserved(found.path, routeMatch)
         && (h == Some(Attributes) || (h == Some(Edit) && old(params.content).Some?)))
        ==> outcome == Redirected
      ensures HandlerFor(ParseAction(params.action).name) == Some(Edit) && !IsReserved(found.path, routeMatch) ==>
        && (old(params.content).None? ==> outcome == Failed(NoContent) && unchanged(found, params))
        && (old(params.content).Some? ==>
              var submitted := Normalize(old(params.content).value);
              && params.content == Some(submitted)
              && found.content == NewContent(old(found.content), params.pos, params.len, submitted)
              && outcome == Conclude(Decide(close.Some?, found.isNew, found.version, params.version, modified),
                                     CommitMessage(texts.pageEdited, old(params.comment)))
              && params.comment == (if outcome.Committed? then None else old(params.comment)))
      ensures HandlerFor(ParseAction(params.action).name) == Some(Upload) && !IsReserved(found.path, routeMatch) ==>
        && unchanged(params)
        && (params.file.None? ==> outcome == Failed(NoFile) && unchanged(found))
        && (params.file.Some? ==>
              && found.content == params.file.value
              && outcome == Conclude(Decide(false, found.isNew, found.version, params.version, modified),
                                     texts.pageUploaded))
      ensures HandlerFor(ParseAction(params.action).name) == Some(Attributes) && !IsReserved(found.path, routeMatch) ==>
        && unchanged(found, params)
        && outcome == Conclude(Decide(close.Some?, found.isNew, found.version, params.version, modified),
                               texts.attributesEdited)
    {
      var parsed := ParseAction(params.action);
      close := parsed.close;
      var handler := HandlerFor(parsed.name);
      if handler.None? {
        return Failed(InvalidAction);
      }
      page := found;
      if IsReserved(page.path, routeMatch) {
        return Failed(Reserved);
      }
      match handler.value
      case Edit =>
        outcome := PostEdit(texts.pageEdited, modified);
      case Upload =>
        outcome := PostUpload(texts.pageUploaded, modified);
      case Attributes =>
        outcome := PostAttributes(texts.attributesEdited, modified);
    }
  }
}
