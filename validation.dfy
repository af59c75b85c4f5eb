/** The pre-save validation shared by post_edit, post_upload and
    post_attributes, and what a handler does with its result. */
module Validation {
  import opened Optional

  /** The two errors a `check` block can collect. */
  datatype Error = VersionConflict | NoChanges

  /** `!page.new? && page.version.to_s != params[:version]`: an existing page
      whose version is not the one the editor started from. A missing
      version parameter (nil) never equals the page's version string. */
  predicate Conflict(isNew: bool, version: string, submitted: Option<string>): (b: bool)
    ensures isNew ==> !b
    ensures submitted == Some(version) ==> !b
    ensures !isNew && submitted.None? ==> b
  {
    !isNew && submitted != Some(version)
  }

  /** The list a `check` block builds, in the order it pushes. */
  function Errors(isNew: bool, version: string, submitted: Option<string>, modified: bool): (errs: seq<Error>)
    ensures VersionConflict in errs <==> Conflict(isNew, version, submitted)
    ensures NoChanges in errs <==> !modified
    ensures |errs| <= 2
    ensures |errs| == 2 ==> errs == [VersionConflict, NoChanges]
  {
    (if Conflict(isNew, version, submitted) then [VersionConflict] else [])
    + (if !modified then [NoChanges] else [])
  }

  /** What a handler does once the change is staged: leave at once, abort in
      `check` with the collected errors, or save and commit. */
  datatype Decision = Leave | Reject(errors: seq<Error>) | Save

  /** closeExit holds when the handler has the early exit
      `redirect ... if @close && !page.modified?` and close was requested. */
  function Decide(closeExit: bool, isNew: bool, version: string, submitted: Option<string>, modified: bool): (d: Decision)
    ensures d == Save <==> modified && !Conflict(isNew, version, submitted)
    ensures d == Leave <==> closeExit && !modified
    ensures d.Reject? ==> d.errors != [] && d.errors == Errors(isNew, version, submitted, modified)
  {
    if closeExit && !modified then Leave
    else
      var errs := Errors(isNew, version, submitted, modified);
      if errs != [] then Reject(errs) else Save
  }

  /** Saving and committing happen exactly when the collected error list is
      empty, with or without the early exit. */
  lemma SaveIffNoErrors(closeExit: bool, isNew: bool, version: string, submitted: Option<string>, modified: bool)
    ensures Decide(closeExit, isNew, version, submitted, modified) == Save
            <==> Errors(isNew, version, submitted, modified) == []
  {
    var errs := Errors(isNew, version, submitted, modified);
    if errs != [] {
      assert errs[0] in errs;
    }
  }
}
