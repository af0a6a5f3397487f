/** Step 1 of the wizards (`Step1UploadForm`): choose file or text mode,
    provide the tender, and send it to the analysis endpoint. The wizard is
    told the step is valid only once an analysis has come back. */
module UploadStep {
  import opened Wrappers
  import opened Text
  import opened Api
  import opened Forms
  import FileUpload

  /** `currentMiniStep`: 1 (choose a mode) or 2 (provide the content). */
  datatype MiniStep = ChooseMode | Provide

  datatype State = State(
    miniStep: MiniStep,
    mode: Option<Mode>,
    file: Option<FileInfo>,
    text: string,
    error: Option<string>,
    completed: bool)

  /** The state the component mounts with. */
  function Initial(): State {
    State(ChooseMode, None, None, "", None, false)
  }

  /** `isDataValid`: a file in file mode, or text with a non-space character
      in text mode; with no mode chosen yet nothing is valid. */
  function IsDataValid(st: State): (r: bool)
    ensures r <==> (st.mode == Some(FileMode) && st.file.Some?)
                   || (st.mode == Some(TextMode) && !IsBlank(st.text))
    ensures st.mode.None? ==> !r
  {
    ContentValid(st.mode, st.file.Some?, st.text)
  }

  /** What the step reports to the wizard: `analysisCompleted`, not
      `isDataValid`. */
  function ReportedValidity(st: State): bool {
    st.completed
  }

  /** Having data to send does not make the step valid for the wizard. */
  lemma ValidDataIsNotEnough(st: State)
    requires st.mode == Some(TextMode) && !IsBlank(st.text) && !st.completed
    ensures IsDataValid(st) && !ReportedValidity(st)
  {
  }

  /** `handleModeSelection(mode)`. */
  function SelectMode(st: State, mode: Mode): (r: State)
    ensures r.mode == Some(mode) && r.miniStep == Provide && r.error.None? && !ReportedValidity(r)
    ensures r.file == st.file && r.text == st.text
  {
    st.(mode := Some(mode), miniStep := Provide, error := None, completed := false)
  }

  /** `handleBackToModeSelection`: every field back to its initial value. */
  function BackToModeSelection(st: State): (r: State)
    ensures r == Initial()
    ensures !IsDataValid(r) && !ReportedValidity(r)
  {
    State(ChooseMode, None, None, "", None, false)
  }

  /** The embedded drop zone (`acceptedTypes={['.pdf']}`, `maxSize={25}`)
      writes `selectedFile` only through its callback. */
  function DropFiles(st: State, files: seq<FileInfo>): (r: State)
    ensures r.(file := st.file) == st
    ensures r.file != st.file ==> |files| > 0 && r.file == Some(files[0])
                                  && FileUpload.Validate(files[0], [".pdf"], 25.0) == FileUpload.Accepted
    ensures |files| > 0 && FileUpload.Validate(files[0], [".pdf"], 25.0) == FileUpload.Accepted ==>
              r == st.(file := Some(files[0]))
  {
    match FileUpload.HandleFiles(files, [".pdf"], 25.0)
    case Called(f) => st.(file := f)
    case NotCalled => st
  }

  /** The analysis request the component builds, mirroring its if / else if /
      throw chain: the file in file mode, the trimmed text in text mode. */
  datatype AnalyzeRequest = AnalyzeFile(file: FileInfo) | AnalyzeText(content: string)

  function Dispatch(st: State): (r: Result<AnalyzeRequest>)
    ensures r.Success? <==> IsDataValid(st)
    ensures r.Failure? ==> r.message == "Aucune donnée valide à analyser"
  {
    if st.mode == Some(FileMode) && st.file.Some? then Success(AnalyzeFile(st.file.value))
    else if st.mode == Some(TextMode) && Trim(st.text) != [] then Success(AnalyzeText(Trim(st.text)))
    else Failure("Aucune donnée valide à analyser")
  }

  /** The throwing branch is unreachable once the data is valid, and the
      text sent is the trimmed text, which is never blank. */
  lemma DispatchOfValidData(st: State)
    requires IsDataValid(st)
    ensures Dispatch(st).Success?
    ensures st.mode == Some(TextMode) ==>
              Dispatch(st).value == AnalyzeText(Trim(st.text)) && !IsBlank(Dispatch(st).value.content)
    ensures st.mode == Some(FileMode) ==> Dispatch(st).value == AnalyzeFile(st.file.value)
  {
    if st.mode == Some(TextMode) {
      TrimIdempotent(st.text);
    }
  }

  /** `handleSubmitAnalysis` once the analysis endpoint answered `reply`:
      the new state and what `onAnalysisComplete` received, if anything.
      Invalid data or a request in flight make it a no-op. */
  function Submit(st: State, isLoading: bool, reply: Result<JobAnalysisResponse>): (r: (State, Option<JobAnalysisResponse>))
    ensures !IsDataValid(st) || isLoading ==> r == (st, None)
    ensures IsDataValid(st) && !isLoading && reply.Success? ==>
              r.0 == st.(error := None, completed := true) && r.1 == Some(reply.value)
    ensures IsDataValid(st) && !isLoading && reply.Failure? ==>
              r.0 == st.(error := Some(reply.message), completed := false) && r.1.None?
  {
    if !IsDataValid(st) || isLoading then (st, None)
    else
      DispatchOfValidData(st);
      match (Dispatch(st), reply)
      case (Failure(thrown), _) => (st.(error := Some(thrown), completed := false), None)
      case (Success(_), Success(result)) => (st.(error := None, completed := true), Some(result))
      case (Success(_), Failure(msg)) => (st.(error := Some(msg), completed := false), None)
  }
}
