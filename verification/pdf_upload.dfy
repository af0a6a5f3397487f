/** The single-tender upload page (`app/upload/page.tsx`): one PDF file,
    recognised by its MIME type, or a pasted text. */
module PdfUpload {
  import opened Wrappers
  import opened Text
  import opened Forms

  datatype State = State(mode: Mode, file: Option<FileInfo>, text: string)

  function Initial(): State {
    State(FileMode, None, "")
  }

  /** `handleDrop` and `handleFileSelect`: only the first file of the batch
      is looked at; a PDF replaces the current file, anything else (or no
      file) leaves the state as it was and raises the alert, the second
      component. */
  function ChooseFiles(st: State, batch: seq<FileInfo>): (r: (State, bool))
    ensures !r.1 <==> |batch| > 0 && batch[0].mimeType == PdfMime
    ensures !r.1 ==> r.0 == st.(file := Some(batch[0]))
    ensures r.1 ==> r.0 == st
  {
    if |batch| > 0 && batch[0].mimeType == PdfMime then (st.(file := Some(batch[0])), false)
    else (st, true)
  }

  /** A PDF later in the batch does not rescue a non-PDF first file. */
  lemma FirstFileDecides(st: State, other: FileInfo, pdf: FileInfo)
    requires other.mimeType != PdfMime && pdf.mimeType == PdfMime
    ensures ChooseFiles(st, [other, pdf]) == (st, true)
    ensures ChooseFiles(st, [pdf, other]) == (st.(file := Some(pdf)), false)
  {
  }

  /** `removeFile`. */
  function RemoveFile(st: State): (r: State)
    ensures r.file.None? && r.mode == st.mode && r.text == st.text
  {
    st.(file := None)
  }

  /** The file held, if any, is a PDF. */
  ghost predicate HoldsPdf(st: State) {
    st.file.Some? ==> st.file.value.mimeType == PdfMime
  }

  lemma ChooseFilesKeepsPdf(st: State, batch: seq<FileInfo>)
    requires HoldsPdf(st)
    ensures HoldsPdf(ChooseFiles(st, batch).0) && HoldsPdf(RemoveFile(st))
  {
  }

  /** `isFormValid`. */
  function IsFormValid(st: State): (r: bool)
    ensures r <==> (st.mode == FileMode && st.file.Some?) || (st.mode == TextMode && !IsBlank(st.text))
    ensures r <==> !Submit(st).Rejected?
  {
    ContentValid(Some(st.mode), st.file.Some?, st.text)
  }

  /** What `handleSubmit` sends: the file, the text as typed, or nothing
      (with the alert). */
  datatype Outcome = SendFile(file: FileInfo) | SendText(content: string) | Rejected

  function Submit(st: State): Outcome {
    if st.mode == FileMode && st.file.Some? then SendFile(st.file.value)
    else if st.mode == TextMode && Trim(st.text) != [] then SendText(st.text)
    else Rejected
  }

  lemma SubmitRejectsExactlyInvalid(st: State)
    ensures Submit(st) == Rejected <==> !IsFormValid(st)
    ensures Submit(st).SendFile? ==> Some(Submit(st).file) == st.file
    ensures Submit(st).SendText? ==> Submit(st).content == st.text
  {
  }
}
