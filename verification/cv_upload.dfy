/** The CV upload page (`app/upload-cv/page.tsx`): several PDF or Word
    files, or a pasted text. */
module CvUpload {
  import opened Wrappers
  import opened Text
  import opened Seqs
  import opened Forms

  const WordMime: string := "application/msword"
  const DocxMime: string := "application/vnd.openxmlformats-officedocument.wordprocessingml.document"

  /** The three MIME types the page accepts; the name is not looked at. */
  predicate IsCvFile(f: FileInfo) {
    f.mimeType == PdfMime || f.mimeType == WordMime || f.mimeType == DocxMime
  }

  datatype State = State(mode: Mode, files: seq<FileInfo>, text: string)

  function Initial(): State {
    State(FileMode, [], "")
  }

  /** `handleDrop` and `handleFileSelect` (the same code): the accepted files
      of the batch are appended in order; a batch without any leaves the list
      as it was and raises the alert, the second component. */
  function AddFiles(st: State, batch: seq<FileInfo>): (r: (State, bool))
    ensures r.1 <==> forall i :: 0 <= i < |batch| ==> !IsCvFile(batch[i])
    ensures r.1 ==> r.0 == st
    ensures !r.1 ==> r.0.mode == st.mode && r.0.text == st.text
                     && |r.0.files| > |st.files| && r.0.files[..|st.files|] == st.files
                     && Subsequence(r.0.files[|st.files|..], batch)
    ensures forall i :: |st.files| <= i < |r.0.files| ==> IsCvFile(r.0.files[i])
    ensures forall i :: 0 <= i < |batch| && IsCvFile(batch[i]) ==> batch[i] in r.0.files[|st.files|..]
    ensures |r.0.files| == |st.files| + Count(batch, IsCvFile)
    ensures forall f :: multiset(r.0.files)[f] == multiset(st.files)[f] + (if IsCvFile(f) then multiset(batch)[f] else 0)
  {
    var valid := Filter(batch, IsCvFile);
    FilterMembers(batch, IsCvFile);
    FilterMultiplicity(batch, IsCvFile);
    if |valid| > 0 then
      assert (st.files + valid)[|st.files|..] == valid;
      (st.(files := st.files + valid), false)
    else
      assert forall f :: IsCvFile(f) ==> multiset(batch)[f] == 0 by {
        forall f | IsCvFile(f) ensures multiset(batch)[f] == 0 {
          assert multiset(valid)[f] == 0;
        }
      }
      (st, true)
  }

  /** `removeFile(index)`. */
  function RemoveFile(st: State, index: int): (r: State)
    ensures 0 <= index < |st.files| ==> r.files == st.files[..index] + st.files[index + 1..]
    ensures !(0 <= index < |st.files|) ==> r == st
    ensures r.mode == st.mode && r.text == st.text
  {
    st.(files := RemoveAt(st.files, index))
  }

  /** Every listed file has one of the accepted types. */
  ghost predicate OnlyCvFiles(st: State) {
    forall i :: 0 <= i < |st.files| ==> IsCvFile(st.files[i])
  }

  lemma AddFilesKeepsOnlyCvFiles(st: State, batch: seq<FileInfo>)
    requires OnlyCvFiles(st)
    ensures OnlyCvFiles(AddFiles(st, batch).0)
  {
  }

  lemma RemoveFileKeepsOnlyCvFiles(st: State, index: int)
    requires OnlyCvFiles(st)
    ensures OnlyCvFiles(RemoveFile(st, index))
  {
    if 0 <= index < |st.files| {
      var r := RemoveFile(st, index);
      forall i | 0 <= i < |r.files| ensures IsCvFile(r.files[i]) {
        if i < index { assert r.files[i] == st.files[i]; } else { assert r.files[i] == st.files[i + 1]; }
      }
    }
  }

  /** `isFormValid`. */
  function IsFormValid(st: State): (r: bool)
    ensures r <==> (st.mode == FileMode && st.files != []) || (st.mode == TextMode && !IsBlank(st.text))
    ensures r <==> !Submit(st).Rejected?
  {
    ContentValid(Some(st.mode), st.files != [], st.text)
  }

  /** What `handleSubmit` announces: how many CVs, the text as typed
      (untrimmed), or the rejection alert. */
  datatype Outcome = UploadedFiles(count: nat) | UploadedText(content: string) | Rejected

  function Submit(st: State): Outcome {
    if st.mode == FileMode && |st.files| > 0 then UploadedFiles(|st.files|)
    else if st.mode == TextMode && Trim(st.text) != [] then UploadedText(st.text)
    else Rejected
  }

  /** The submit handler rejects exactly the forms the button calls invalid,
      and a text it accepts is passed on untrimmed. */
  lemma SubmitRejectsExactlyInvalid(st: State)
    ensures Submit(st) == Rejected <==> !IsFormValid(st)
    ensures Submit(st).UploadedFiles? ==> Submit(st).count == |st.files| > 0
    ensures Submit(st).UploadedText? ==> Submit(st).content == st.text
  {
  }

  /** An accepted batch in file mode always makes the form valid. */
  lemma AcceptedBatchEnablesSubmit(st: State, batch: seq<FileInfo>)
    requires st.mode == FileMode && !AddFiles(st, batch).1
    ensures IsFormValid(AddFiles(st, batch).0)
  {
  }
}
