/** The reusable drop zone (`FileUpload`): a file is handed to the parent
    only if its extension is accepted and it is not larger than the limit. */
module FileUpload {
  import opened Wrappers
  import opened Text
  import opened Forms

  /** The prop defaults: `['.pdf']` and 25 MB. */
  const DefaultAcceptedTypes: seq<string> := [".pdf"]
  const DefaultMaxSize: real := 25.0

  /** Bytes in the megabyte of `file.size / 1024 / 1024`. */
  const BytesPerMegabyte: nat := 1048576

  /** `name.split('.').pop()`: the part after the last dot, or the whole
      name when it has no dot. */
  function LastSegment(name: string): (r: string)
    ensures |r| <= |name|
    ensures forall i :: 0 <= i < |r| ==> r[i] == name[|name| - |r| + i] && r[i] != '.'
    ensures |r| < |name| ==> name[|name| - |r| - 1] == '.'
    decreases |name|
  {
    if |name| == 0 || name[|name| - 1] == '.' then []
    else
      var init := name[..|name| - 1];
      var prev := LastSegment(init);
      var r := prev + [name[|name| - 1]];
      assert forall i :: 0 <= i < |prev| ==> r[i] == prev[i] == init[|init| - |prev| + i];
      r
  }

  /** `'.' + name.split('.').pop()?.toLowerCase()`. */
  function Extension(name: string): string {
    "." + ToLower(LastSegment(name))
  }

  /** What `validateFile` decided; the two rejections raise different alerts. */
  datatype Verdict = Accepted | WrongType | TooLarge

  /** `validateFile`: the type test comes first, then the size test
      `size / 1024 / 1024 > maxSize`. */
  function Validate(file: FileInfo, acceptedTypes: seq<string>, maxSize: real): (r: Verdict)
    ensures r == WrongType <==> Extension(file.name) !in acceptedTypes
    ensures r == TooLarge <==>
              Extension(file.name) in acceptedTypes && file.size as real > maxSize * BytesPerMegabyte as real
    ensures r == Accepted <==>
              Extension(file.name) in acceptedTypes && file.size as real <= maxSize * BytesPerMegabyte as real
  {
    if Extension(file.name) !in acceptedTypes then WrongType
    else if file.size as real / 1024.0 / 1024.0 > maxSize then TooLarge
    else Accepted
  }

  /** Whether and with what `onFileSelect` was called. */
  datatype Callback = NotCalled | Called(file: Option<FileInfo>)

  /** `handleDrop` and `handleFileSelect`: only the first file is looked at,
      and it reaches the parent only when it validates. */
  function HandleFiles(files: seq<FileInfo>, acceptedTypes: seq<string>, maxSize: real): (r: Callback)
    ensures r.Called? <==> |files| > 0 && Validate(files[0], acceptedTypes, maxSize) == Accepted
    ensures r.Called? ==> r.file == Some(files[0])
  {
    if |files| > 0 && Validate(files[0], acceptedTypes, maxSize) == Accepted then Called(Some(files[0]))
    else NotCalled
  }

  /** `removeFile`: the parent is told there is no file any more. */
  function RemoveFile(): (r: Callback)
    ensures r.Called? && r.file.None?
  {
    Called(None)
  }

  /** A name without a dot is its own extension, lower-cased. */
  lemma NoDotExtension(name: string)
    requires forall i :: 0 <= i < |name| ==> name[i] != '.'
    ensures Extension(name) == "." + ToLower(name)
  {
    var r := LastSegment(name);
    assert |r| == |name|;
    assert r == name;
  }

  /** Only the name is lower-cased: an accepted type spelled with an upper
      case letter, such as ".PDF", matches no file at all. */
  lemma UpperCaseTypeNeverMatches(file: FileInfo, t: string, k: nat)
    requires k < |t| && 'A' <= t[k] <= 'Z'
    ensures Extension(file.name) != t
  {
  }

  /** With the defaults, a ".PDF" file of exactly 25 MB is accepted and one
      byte more is refused. */
  lemma DefaultLimitIsInclusive(name: string)
    requires LastSegment(name) == "PDF"
    ensures Validate(FileInfo(name, 25 * BytesPerMegabyte, ""), DefaultAcceptedTypes, DefaultMaxSize) == Accepted
    ensures Validate(FileInfo(name, 25 * BytesPerMegabyte + 1, ""), DefaultAcceptedTypes, DefaultMaxSize) == TooLarge
  {
    var l := ToLower("PDF");
    assert l[0] == 'p' && l[1] == 'd' && l[2] == 'f';
    assert l == "pdf";
    assert Extension(name) == ".pdf";
  }
}
