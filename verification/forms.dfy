/** What the upload forms share: the input mode, the browser `File`
    attributes they read, and the "something to send" test. */
module Forms {
  import opened Wrappers
  import opened Text

  /** `'file' | 'text'`. */
  datatype Mode = FileMode | TextMode

  /** The attributes of a browser `File` the forms look at. */
  datatype FileInfo = FileInfo(name: string, size: nat, mimeType: string)

  /** The MIME type the PDF-only pickers accept. */
  const PdfMime: string := "application/pdf"

  /** `(mode === 'file' && <file present>) || (mode === 'text' && text.trim())`. */
  predicate ContentValid(mode: Option<Mode>, hasFile: bool, text: string) {
    (mode == Some(FileMode) && hasFile) || (mode == Some(TextMode) && Trim(text) != [])
  }
}
