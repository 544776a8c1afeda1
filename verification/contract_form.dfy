/**
 * The contract input form: pasted text, or a file read into the text box (plain text) or
 * kept as an attachment (anything else). Text and attachment are never both present, and
 * submission requires either an attachment or at least 50 characters of trimmed text.
 */
module ContractForm {
  import opened Wrappers
  import opened Text
  import opened Types

  datatype Form = Form(text: string, fileName: Option<string>, attachment: Option<Attachment>)

  /** A chosen file's name and MIME type (`file.type`, possibly empty). */
  datatype SelectedFile = SelectedFile(name: string, mimeType: string)

  /**
   * What the user does. `FileLoaded` is the reader's `onload` for the chosen file, with
   * `result` the file's text or, for a binary file, its data URL.
   */
  datatype Action =
    | TextEdited(value: string)
    | FileLoaded(file: SelectedFile, result: string)
    | FileCleared

  /** The minimum trimmed length of pasted text, in UTF-16 code units. */
  const MinTextLength: nat := 50

  const Initial: Form := Form("", None, None)

  /** The form never holds text and an attachment at once. */
  predicate Exclusive(f: Form) {
    f.attachment.Some? ==> f.text == ""
  }

  /** Text files are read as text; anything else as a data URL. */
  predicate IsTextFile(file: SelectedFile) {
    file.mimeType == "text/plain" || EndsWith(file.name, ".txt") || EndsWith(file.name, ".md")
  }

  /** A data URL always has a comma between its header and its payload. */
  predicate WellFormed(a: Action) {
    a.FileLoaded? && !IsTextFile(a.file) ==> ',' in a.result
  }

  /**
   * `result.split(',')[1]`: the segment after the first comma, up to the next comma or the
   * end of the data URL.
   */
  function DataUrlPayload(dataUrl: string): (r: string)
    requires ',' in dataUrl
    ensures ',' !in r
    ensures var i := IndexOfChar(dataUrl, ',').value;
      && i + 1 + |r| <= |dataUrl|
      && dataUrl[i + 1..i + 1 + |r|] == r
      && (i + 1 + |r| == |dataUrl| || dataUrl[i + 1 + |r|] == ',')
  {
    var i := IndexOfChar(dataUrl, ',').value;
    var rest := dataUrl[i + 1..];
    match IndexOfChar(rest, ',')
    case None => rest
    case Some(j) => rest[..j]
  }

  /** One transition of the form. */
  function Step(f: Form, a: Action): (r: Form)
    requires WellFormed(a)
    ensures Exclusive(r)
    ensures r.attachment.Some? ==> r.fileName.Some?
  {
    match a
    case TextEdited(value) =>
      if f.attachment.Some? then Form(value, None, None) else f.(text := value)
    case FileLoaded(file, result) =>
      if IsTextFile(file) then Form(result, Some(file.name), None)
      else Form("", Some(file.name), Some(Attachment(file.mimeType, DataUrlPayload(result))))
    case FileCleared => Form("", None, None)
  }

  /** The form after a sequence of actions. */
  function Run(f: Form, actions: seq<Action>): Form
    requires forall k :: 0 <= k < |actions| ==> WellFormed(actions[k])
    decreases |actions|
  {
    if actions == [] then f else Run(Step(f, actions[0]), actions[1..])
  }

  /** Whatever the user does, a form that keeps text and attachment apart goes on doing so. */
  lemma {:induction false} RunKeepsExclusive(f: Form, actions: seq<Action>)
    requires Exclusive(f)
    requires forall k :: 0 <= k < |actions| ==> WellFormed(actions[k])
    ensures Exclusive(Run(f, actions))
    decreases |actions|
  {
    if actions != [] {
      RunKeepsExclusive(Step(f, actions[0]), actions[1..]);
    }
  }

  /** The text an action leaves in the form, whatever the form held before. */
  function TextAfter(a: Action): string {
    match a
    case TextEdited(value) => value
    case FileLoaded(file, result) => if IsTextFile(file) then result else ""
    case FileCleared => ""
  }

  /** The attachment an action leaves in the form: only a binary file load sets one. */
  function AttachmentAfter(a: Action): Option<Attachment>
    requires WellFormed(a)
  {
    if a.FileLoaded? && !IsTextFile(a.file) then Some(Attachment(a.file.mimeType, DataUrlPayload(a.result)))
    else None
  }

  /**
   * Every action overwrites both the text and the attachment, so after a non-empty run they
   * are decided by the last action alone.
   */
  lemma {:induction false} RunIsDecidedByLastAction(f: Form, actions: seq<Action>)
    requires actions != []
    requires forall k :: 0 <= k < |actions| ==> WellFormed(actions[k])
    ensures Run(f, actions).text == TextAfter(actions[|actions| - 1])
    ensures Run(f, actions).attachment == AttachmentAfter(actions[|actions| - 1])
    decreases |actions|
  {
    if |actions| > 1 {
      RunIsDecidedByLastAction(Step(f, actions[0]), actions[1..]);
      assert actions[1..][|actions[1..]| - 1] == actions[|actions| - 1];
    }
  }

  /** Editing the text sets it, drops any attachment and, with it, the file name. */
  lemma TextEditClearsAttachment(f: Form, value: string)
    ensures var r := Step(f, TextEdited(value));
      && r.text == value && r.attachment.None?
      && (f.attachment.Some? ==> r.fileName.None?)
      && (f.attachment.None? ==> r.fileName == f.fileName)
  {
  }

  /** Loading a file: a text file fills the text box, anything else becomes the attachment. */
  lemma FileLoadOutcome(f: Form, file: SelectedFile, result: string)
    requires WellFormed(FileLoaded(file, result))
    ensures var r := Step(f, FileLoaded(file, result));
      && r.fileName == Some(file.name)
      && (IsTextFile(file) ==> r.text == result && r.attachment.None?)
      && (!IsTextFile(file) ==> r.text == "" && r.attachment == Some(Attachment(file.mimeType, DataUrlPayload(result))))
  {
  }

  /** Clearing the file empties the whole form: attachment, file name and text. */
  lemma ClearResetsForm(f: Form)
    ensures Step(f, FileCleared) == Initial
  {
  }

  /** Trimmed length of the text as the submit gate measures it. */
  function TrimmedLength(text: string): nat {
    Utf16Length(Trim(text))
  }

  /**
   * `handleSubmit`: the content handed to `onAnalyze`, if any. An attachment wins whatever
   * the text; otherwise the untrimmed text goes out when its trimmed length reaches 50.
   */
  function Submission(f: Form): (r: Option<Content>)
    ensures f.attachment.Some? ==> r == Some(FileContent(f.attachment.value))
    ensures f.attachment.None? ==> (r.Some? <==> Utf16Length(Trim(f.text)) >= 50)
    ensures f.attachment.None? && r.Some? ==> r.value == TextContent(f.text)
  {
    if f.attachment.Some? then Some(FileContent(f.attachment.value))
    else if TrimmedLength(f.text) >= MinTextLength then Some(TextContent(f.text))
    else None
  }

  /** `isSubmitDisabled`. */
  predicate SubmitDisabled(f: Form, isLoading: bool) {
    isLoading || (f.attachment.None? && TrimmedLength(f.text) < MinTextLength)
  }

  /** Text that is nothing but white space is never submitted, however long it is. */
  lemma BlankTextIsNotSubmitted(f: Form)
    requires f.attachment.None? && AllSpace(f.text)
    ensures Submission(f).None?
  {
    TrimEmptyIffAllSpace(f.text);
  }

  /** Trimming the text first does not change whether it is submitted. */
  lemma GateIgnoresSurroundingSpace(f: Form)
    ensures Submission(f.(text := Trim(f.text))).Some? <==> Submission(f).Some?
  {
    TrimIdempotent(f.text);
  }

  /** The button is enabled exactly when not loading and a submission would go out. */
  lemma SubmitGateMatchesHandler(f: Form, isLoading: bool)
    ensures !SubmitDisabled(f, isLoading) <==> !isLoading && Submission(f).Some?
  {
  }
}
