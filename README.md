# Olelo edit submission, modelled in Dafny

Olelo is a wiki. When a page is edited, uploaded or has its attributes changed, the
request arrives at `post '/(:path)'` in `lib/olelo/application.rb`. The action parameter
(`edit`, `upload`, `attributes`, optionally followed by `-close`) selects a handler. The
handler stages the change on the page and runs a `check` block that collects a version
conflict and a "no changes" error. Only if that list is empty does it save the page and
commit it to the store with a message.

This project models that pipeline:

- `ruby_text.dfy` (`RubyText`): the Ruby string operations the handlers rely on.
  `s[0, n]` is `Take`, `[s[k .. -1]].join` is `DropFrom` and `blank?` is `Blank`.
  `Contains` (substring occurrence) is not called by the handlers. It only states what
  line-ending normalisation leaves behind.
- `splice.dfy` (`Splice`): the new content of post_edit. It is
  `content[0, pos] + submitted + content[pos+len .. -1]` when a position is given, and
  the submitted text otherwise.
- `line_endings.dfy` (`LineEndings`): `gsub!("\r\n", "\n")` on the submitted text.
- `commit_message.dfy` (`Messages`): the "page edited" message with an optional
  `" - comment"` suffix.
- `actions.dfy` (`Actions`): `params[:action].to_s.split('-', 2)` and the handler it
  selects.
- `reserved_path.dfy` (`ReservedPath`): the `/static` prefix half of `reserved_path?`.
- `validation.dfy` (`Validation`): the shared `check` rule and the decision between
  leaving early, rejecting and saving.
- `application.dfy` (`Application`): the controller as a class. Its handlers are methods
  that change the page, the request parameters and a `Repository`. The `Repository`
  records the calls to `page.save` and `Page.commit` in order.

Behaviour of the code that the model follows:

- Partial edits get no clamping beyond what Ruby slicing does. A position past the
  end appends. A range past the end removes nothing beyond the end. A patch of offset 5
  and length 3 with `"XYZ"` turns `"Hello World"` into `"HelloXYZrld"`, not
  `"HelloXYZ World"` (`Splice.HelloWorldPatch`).
- Line-ending normalisation is a single left-to-right pass. `"\r\r\n"` becomes `"\r\n"`,
  and only a second pass turns it into `"\n"`. So normalised text can still hold a CR LF,
  and the pass is idempotent only on input without CR CR LF. The model proves both exact
  conditions (`NormalizeLeavesCrlfIff`, `NormalizeIdempotentIff`) and the counterexample
  (`NormalizeOncePassWitness`).
- The `/static` test compares characters, not path segments. `static_files` and
  `staticky` are reserved as well as `static/...` (`StaticNameIsReserved`).
- `"edit-"` gives an empty close flag. An empty string is truthy in Ruby, so the request
  is treated as close. An empty action parameter splits into no fields, so the action is
  nil and no handler matches.
- A missing `version` parameter never equals the page's version string. So every edit of
  an existing page without one is a version conflict.

## Model

| member | source | states |
|---|---|---|
| RubyText.Take | lib/olelo/application.rb:181 | `content[0, pos]` has length min(pos, \|content\|) and is a prefix of the content |
| RubyText.DropFrom | lib/olelo/application.rb:183 | `content[k .. -1]` joined has length max(0, \|content\|-k): the suffix from k, or empty once k is past the end |
| RubyText.TakeDropFrom | lib/olelo/application.rb:181-183 | the first k characters followed by the characters from k on are the whole content |
| Splice.SpliceRange | lib/olelo/application.rb:181-183 | `[content[0, pos], submitted, content[pos+len .. -1]].join` has length min(pos,\|c\|) + \|s\| + max(0, \|c\|-pos-len) and starts with the old prefix followed by the submitted text (its full layout is `SpliceLayout`) |
| Splice.Removed | lib/olelo/application.rb:181-183 | the replaced range runs from min(pos,\|c\|) to min(pos+len,\|c\|) |
| Splice.NewContent | lib/olelo/application.rb:180-186 | without a position the new content is exactly the submitted text; with one its length is min(pos,\|c\|) + \|s\| + max(0, \|c\|-pos-len) |
| Splice.SpliceParts | lib/olelo/application.rb:180-183 | the splice is the old content up to min(pos,\|c\|), the submitted text, and the old content from min(pos+len,\|c\|) |
| Splice.SpliceLayout | lib/olelo/application.rb:180-183 | the spliced content is the old prefix of length min(pos,\|c\|), then the submitted text, then the old content from pos+len (empty past the end), with the stated length |
| Splice.InsertKeepsContent | lib/olelo/application.rb:181-183 | with len 0 the splice is a pure insertion: removing the submitted text from the result gives back the old content |
| Splice.SplicePastEndAppends | lib/olelo/application.rb:181-183 | a position at or past the end yields the old content followed by the submitted text |
| Splice.SpliceUndo | lib/olelo/application.rb:180-183 | splicing the removed text back at the clamped position restores the old content |
| Splice.SpliceSameTextIsIdentity | lib/olelo/application.rb:180-183 | submitting the text a range already holds leaves the content unchanged |
| Splice.HelloWorldPatch | lib/olelo/application.rb:181-183 | offset 5, length 3, "XYZ" over "Hello World" gives "HelloXYZrld" |
| LineEndings.Normalize | lib/olelo/application.rb:176 | normalisation never lengthens the text and leaves text without CR unchanged |
| LineEndings.ToCrlf | lib/olelo/application.rb:176 | the LF to CR LF conversion (the partner of normalisation) is never shorter than its input and never starts with a bare LF |
| LineEndings.NormalizeHead | lib/olelo/application.rb:176 | the first normalised character is LF for a leading CR LF, else the first input character |
| LineEndings.NormalizeToCrlf | lib/olelo/application.rb:176 | normalisation undoes LF to CR LF conversion for every text |
| LineEndings.NormalizeFixedIff | lib/olelo/application.rb:176 | normalisation leaves a text unchanged if and only if it holds no CR LF |
| LineEndings.NormalizeLeavesCrlfIff | lib/olelo/application.rb:176 | the normalised text holds a CR LF if and only if the input held CR CR LF |
| LineEndings.NormalizeIdempotentIff | lib/olelo/application.rb:176 | normalising twice equals normalising once if and only if the input holds no CR CR LF |
| LineEndings.NormalizeOncePassWitness | lib/olelo/application.rb:176 | "\r\r\n" normalises to "\r\n" and then to "\n" |
| Messages.CommitMessage | lib/olelo/application.rb:177-178 | the message starts with the base text, differs from it if and only if the comment is non-blank, and then continues with " - " and the comment |
| Messages.CommentOf | lib/olelo/application.rb:178 | a comment read back from a message is exactly what follows base + " - " |
| Messages.CommentRoundTrip | lib/olelo/application.rb:177-178 | the comment is recovered from the message when non-blank; a blank or missing one leaves no trace |
| Actions.SplitAtDash | lib/olelo/application.rb:238 | the part before the first dash holds no dash, and head + "-" + rest (or the head alone) is the input |
| Actions.ParseAction | lib/olelo/application.rb:238 | the action is nil exactly for the empty parameter (and then so is close); a parsed action holds no dash |
| Actions.UnparseParse | lib/olelo/application.rb:238 | action and close flag put back together give the parameter |
| Actions.SplitWithFlag | lib/olelo/application.rb:238 | a dash-free name, a dash and a flag split into that name and flag |
| Actions.ParseWithFlag | lib/olelo/application.rb:238 | a dash-free name, a dash and a flag parse into that action and that close flag |
| Actions.ParseWithoutFlag | lib/olelo/application.rb:238 | a non-empty dash-free parameter is the action with no close flag |
| Actions.EditCloseExamples | lib/olelo/application.rb:238 | "edit-close" gives ("edit", "close") and "edit" gives ("edit", nil) |
| Actions.HandlerFor | lib/olelo/application.rb:239-247 | a handler is selected only by its own name |
| Actions.HandlerForName | lib/olelo/application.rb:238-244 | every handler is reached by its name, with the close flag preserved |
| ReservedPath.StaticReserved | lib/olelo/application.rb:19-20 | "/" + path starts with "/static" if and only if the cleaned path starts with "static" |
| ReservedPath.IsReserved | lib/olelo/application.rb:18-26 | a path is reserved if and only if it starts with "static" or the route-table test says so |
| ReservedPath.StaticNameIsReserved | lib/olelo/application.rb:19-20 | every path beginning with "static" is reserved |
| Validation.Conflict | lib/olelo/application.rb:189 | the version-conflict condition, identical at lines 202 and 213: never for a new page, never when the submitted version equals the page's, always for an existing page when no version was submitted |
| Validation.Errors | lib/olelo/application.rb:188-191 | a version conflict is collected if and only if the page is not new and its version differs from the submitted one; "no changes" if and only if the page is unmodified; conflict first, at most two |
| Validation.Decide | lib/olelo/application.rb:187-194 | save if and only if modified and no conflict; leave early if and only if close is requested and the page is unmodified; otherwise reject with the collected errors |
| Validation.SaveIffNoErrors | lib/olelo/application.rb:188-194 | saving happens if and only if the collected error list is empty |
| Application.Conclude | lib/olelo/application.rb:187-194 | leaving early gives a redirect, a rejection carries exactly the decision's errors, and a request commits if and only if the decision is to save, then with the composed message |
| Application.Repository.Save | lib/olelo/application.rb:192 | `page.save` appends the saved content to the store's log |
| Application.Repository.Commit | lib/olelo/application.rb:194 | `Page.commit` appends the message to the store's log |
| Application.Controller.Check | lib/olelo/application.rb:188-191 | the `check` block pushes exactly the errors of `Validation.Errors`, in that order |
| Application.Controller.PostEdit | lib/olelo/application.rb:174-196 | no content fails and changes nothing; otherwise the content parameter is normalised, the page gets the spliced or whole new content, and the request leaves, is rejected or commits as `Decide` says; only a commit appends save then commit to the log and deletes the comment |
| Application.Controller.PostUpload | lib/olelo/application.rb:198-207 | no file fails and changes nothing; otherwise the page gets the file's contents, is rejected or committed as `Decide` says (no early exit), and only a commit appends save then commit |
| Application.Controller.PostAttributes | lib/olelo/application.rb:209-218 | leaves, is rejected or commits as `Decide` says; only a commit appends save then commit |
| Application.Controller.PostPage | lib/olelo/application.rb:237-257 | the close flag is the parsed one; an unknown action or a reserved path fails with nothing changed; otherwise the selected handler's effect on the found page: for edit the normalised content parameter, the spliced or whole new content and the outcome `Decide` gives with the composed message; for upload the file's contents and `Decide` without early exit; for attributes `Decide` with the page untouched; so a modified, conflict-free request commits; a commit appends save then commit; a close request on an unmodified page leaves without saving |

## Left out

- HTTP routing, sessions, login, sign-up, logout, profile, move, delete, the menu hook, error handlers, flash messages, redirect targets and rendering (lib/olelo/application.rb:28-172, 220-235, 250-267). These are transport and presentation. The model keeps only how a request ends (`Outcome`) and the close flag.
- The page store (`Page.find`, `Page.new`, `transaction`, `save`, `commit`, `modified?`, `update_attributes`, versions and history). Its source is not part of this model. The page a request works on is given, `modified?` is an input to each handler, and the store is a log of the save and commit calls.
- The route-table half of `reserved_path?` (lib/olelo/application.rb:21-25) and `String#cleanpath`. The route-table answer is an input (`routeMatch`), and page paths are taken as already clean.
- Reading the uploaded tempfile (lib/olelo/application.rb:200) is file I/O. The file's contents are a parameter.
- Localised message texts (`.t`). The three base texts are parameters (`Texts`).
- Negative `pos` and `len` values (`to_i` of a negative number). Ruby's indexing from the end is not modelled. Position and length are natural numbers, and a missing `len` is 0.
- Handlers that plugins may add as further `post_<action>` methods. Only edit, upload and attributes are selectable.
- `Blank`: `blank?` is not among the files modelled. The model treats nil and strings of ASCII white space (space, tab, LF, VT, FF, CR) as blank.
- LineEndings.Normalize: the claims that normalised text never holds CR LF and that normalising twice equals normalising once do not hold for the single-pass code. The model proves the exact conditions instead.
- plugins/aspect/source.rb only wraps `escape_html` for display. It is not part of this model.
