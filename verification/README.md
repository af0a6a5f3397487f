# Tender analysis front end: state logic in Dafny

This project models the deterministic state logic of a Next.js/React front end. The application:

- analyses a call for tenders (an *appel d'offres*);
- generates one job sheet (*fiche de poste*) per detected position;
- lets the user edit, save or delete those sheets;
- matches saved offers against CVs.

The backend does all parsing, extraction and scoring, so what is modelled is the logic inside the React handlers. Each handler is lifted out as a pure `state -> state` function. Each remote call it awaits becomes a `Result<T>` parameter (`Success(value)` or `Failure(message)`), and the handler is one atomic transition once that call has answered.

Modules, one per component, plus shared helpers:

| module | component |
|---|---|
| `Wrappers`, `Text`, `Seqs`, `Selection`, `StringOrder` | `Option`/`Result`; `trim`, `toLowerCase`, `includes`; `filter` and removal by index; list and `Set` toggles; the default `Array.prototype.sort` order on strings |
| `Api`, `Forms` | record shapes of the API layer; the file/text mode, browser file attributes and the "something to send" test |
| `Wizard` | `MultiStepForm` |
| `JobSheets` | the sheet curation shared by the full wizard's step 2 and the simplified page |
| `JobSelectionStep`, `SimplifiedStep` | `Step2JobSelection` and the simplified page's `Step2SimplifiedSelection` and step wiring |
| `Matching` | `Step3MatchingForm` |
| `UploadStep`, `FileUpload` | `Step1UploadForm` and the `FileUpload` drop zone |
| `JobEdit`, `JobBoard` | `JobEditModal` and the standalone `appel-offres` page |
| `CvUpload`, `PdfUpload` | the `upload-cv` and `upload` pages |

Where the code and its description disagree, the model follows the code:

- Deleting a sheet removes it from the list. The `deleted` status exists in the type but no handler ever sets it.
- Generation produces one sheet per entry of the returned `fiches` map. It does not produce one sheet per selected title.
- Details are fetched once per scored pair, not once per distinct id.
- The store reply's `success` flag is never read. A store call that returns at all marks the sheet saved.
- The number of displayed matches is bounded by |CVs| × |offers| only if the backend scores each pair of the selections at most once. `Matching.ResultsWithinComparisons` takes this as a precondition.

JavaScript semantics made explicit:

- An id is "missing" when it is absent or the empty string (JavaScript falsiness). See `Api.HasId`.
- `x ?? true` defaults only an absent flag.
- `Array.prototype.sort` with a comparator is stable. It is modelled as an insertion that places a new element before the first element that does not score strictly higher.
- `file.size / 1024 / 1024 > maxSize` is computed on reals, which is exact for the sizes concerned.
- A sheet id `sheet-${index}-${Date.now()}` becomes `SheetId(index, stamp(index))`. The clock `stamp` is a parameter read once per entry, as `Date.now()` is evaluated inside the `map`.

## Model

| member | source | states |
|---|---|---|
| Wizard.IsCurrentStepValid | src/components/forms/MultiStepForm.tsx:55-57 | a step is invalid exactly when it exists and its flag is explicitly false; a missing flag counts as valid |
| Wizard.GoToNext | src/components/forms/MultiStepForm.tsx:24-28 | moves exactly one step forward unless on the last step, where nothing changes; keeps the index in range and the form data as is |
| Wizard.GoToPrevious | src/components/forms/MultiStepForm.tsx:30-34 | moves exactly one step back unless at step 0, where nothing changes; keeps the index in range |
| Wizard.GoToStep | src/components/forms/MultiStepForm.tsx:36-40 | sets the index to k exactly when 0 <= k < number of steps, otherwise changes nothing |
| Wizard.UpdateFormData | src/components/forms/MultiStepForm.tsx:42-47 | writes the entry keyed by the current step's id and keeps every other key; no result when there is no current step (the source would throw) |
| Wizard.ClickNext | src/components/forms/MultiStepForm.tsx:122-135 | the Next button does nothing on an invalid step or on the last step, and on a valid step before the last advances by exactly one and changes nothing else |
| Wizard.OneButtonActs | src/components/forms/MultiStepForm.tsx:122-148 | on a valid step of a non-empty wizard exactly one footer button acts: Terminer on the last step, Suivant on every other |
| Wizard.ClickComplete | src/components/forms/MultiStepForm.tsx:49-59 | the form data reaches `onComplete` exactly when the current step is the last one and valid |
| Wizard.RunStaysInRange | src/components/forms/MultiStepForm.tsx:21-40 | from the initial index 0, no sequence of Next, Previous and jumps leaves the range of step indices |
| Wizard.RunPreservesInRange | src/components/forms/MultiStepForm.tsx:24-40 | every navigation action, hence every sequence of them, preserves the index range |
| Wizard.PreviousUndoesNext | src/components/forms/MultiStepForm.tsx:24-34 | Previous restores the state that Next left whenever Next moved |
| Wizard.JumpSkipsInvalidStep | src/components/forms/MultiStepForm.tsx:74 | a progress-circle click ignores validity: Next is blocked on an invalid step while the jump to the following step succeeds |
| Selection.Toggle | src/components/steps/Step2JobSelection.tsx:244-252 | flips membership of the toggled value only; a removal gives an ordered sub-list that drops every copy of the value and keeps every copy of every other value; an addition appends at the end; no duplicate is introduced |
| Selection.ToggleAbsentTwice | src/components/steps/Step2JobSelection.tsx:244-252 | adding then removing a value gives back the original list |
| Selection.ToggleSet | src/app/appel-offres/page.tsx:114-124 | on a `Set`, flips membership of one id and keeps every other id |
| Selection.ToggleSetTwice | src/app/appel-offres/page.tsx:114-124 | toggling the same id twice restores the set |
| Selection.ToggleAgreesWithSet | src/app/appel-offres/page.tsx:114-124 | the list toggle and the set toggle agree on the members they leave |
| JobSelectionStep.ToggleJob | src/components/steps/Step2JobSelection.tsx:244-252 | `handleJobToggle` flips one title; a removal keeps the other titles in order with all their copies, an addition appends the title at the end; every other field is kept and no duplicate is introduced |
| JobSelectionStep.SelectAll | src/components/steps/Step2JobSelection.tsx:616 | "select all" makes the selection a copy of the analysed positions, in order and with repetitions; nothing else changes |
| JobSelectionStep.SelectAllSendsPositions | src/components/steps/Step2JobSelection.tsx:255-268 | after "select all" the counter shows as many titles as were analysed, and generation sends exactly the analysed positions as `job_positions` (no request without a usable id or with no positions) |
| JobSelectionStep.DeselectAll | src/components/steps/Step2JobSelection.tsx:622 | "deselect all" leaves no title selected, nothing else changes |
| JobSelectionStep.GenerateRequestOf | src/components/steps/Step2JobSelection.tsx:255-275 | no generate request without a usable submission id or a selected title; otherwise the request carries exactly the selected titles |
| JobSelectionStep.Generate | src/components/steps/Step2JobSelection.tsx:255-296 | a guarded-out call changes nothing; success installs the converted sheets and moves to mini-step 2; failure only records the message, keeping the mini-step and the sheets |
| JobSelectionStep.GenerateGivesPendingSheets | src/components/steps/Step2JobSelection.tsx:277-285 | a successful generation gives one pending sheet per returned entry with distinct ids, and the curation screen shows it as not yet valid |
| JobSelectionStep.SaveEdit | src/components/steps/Step2JobSelection.tsx:308-315 | the sheet with the edited id becomes the edited sheet and every other sheet stays; length, order and ids are kept |
| JobSelectionStep.ConfirmAction | src/components/steps/Step2JobSelection.tsx:323-360 | the confirmation follows the shared logic for both the list and the store request; Save with a sheet and a usable id sends that id with the sheet's description; Delete sends nothing; a failed store call leaves the whole step state unchanged |
| JobSelectionStep.ValidityRule | src/components/steps/Step2JobSelection.tsx:215-217 | valid in mini-step 1 exactly with a selected title, and in mini-step 2 exactly with a sheet and an empty pending list |
| JobSelectionStep.BackToSelection | src/components/steps/Step2JobSelection.tsx:363-367 | back to mini-step 1 with no sheet and no error; the selection, and hence the step's validity, is kept |
| JobSelectionStep.AllDeletedIsInvalid | src/components/steps/Step2JobSelection.tsx:215-217 | once every sheet is deleted, the title picker is shown again but the step stays invalid |
| JobSheets.FromFiches | src/components/steps/Step2JobSelection.tsx:277-282 | one sheet per map entry, in entry order, with that entry's name and description, status pending, and distinct ids |
| JobSheets.ReplaceById | src/app/appel-offres-simplifie/page.tsx:306-313 | the sheets with the updated id become the update and the others stay; length and ids are kept |
| JobSheets.RemoveById | src/components/steps/Step2JobSelection.tsx:327-330 | keeps exactly the sheets with another id, in their order, each as often as it occurred; its length is the number of sheets with another id |
| JobSheets.MarkSaved | src/components/steps/Step2JobSelection.tsx:344-348 | only the status of the sheets with that id changes, to saved; every other field is kept |
| JobSheets.Confirm | src/app/appel-offres-simplifie/page.tsx:321-358 | no target or no usable id means no change; Delete removes locally and sends no request; Save sends the sheet's description and marks it saved only when the store call returned, leaving the list as is on failure |
| JobSheets.EditedSheet | src/app/appel-offres-simplifie/page.tsx:39-50 | the edit modal's save keeps the sheet's id and status and trims both fields; without a sheet nothing is saved |
| JobSheets.EnabledEditIsNonBlank | src/app/appel-offres-simplifie/page.tsx:116 | a save through the enabled button stores two non-blank, already trimmed fields |
| JobSheets.PendingSavedPartition | src/app/appel-offres-simplifie/page.tsx:416-418 | the pending and saved lists are disjoint, cover exactly the visible sheets, and their sizes add up to the visible count |
| JobSheets.SplitCount | src/components/steps/Step2JobSelection.tsx:385-388 | on a list without deleted sheets, the pending and saved counts add up to the list's length |
| JobSheets.StatusOnlyAdvances | src/app/appel-offres-simplifie/page.tsx:483-494 | through any edit or confirmation the page offers, a saved sheet stays exactly as it was, no sheet becomes pending, none becomes deleted, ids stay distinct and the list never grows |
| JobSheets.SubsequenceKeepsDistinctIds | src/components/steps/Step2JobSelection.tsx:329 | filtering sheets out of a list with distinct ids leaves distinct ids |
| JobSheets.SessionOnlyAdvances | src/components/steps/Step2JobSelection.tsx:308-359 | over any sequence of offered edits and confirmations, ids stay distinct, no sheet is marked deleted, the list never grows, saved sheets are kept as they were and no sheet returns to pending |
| JobSheets.GeneratedSession | src/components/steps/Step2JobSelection.tsx:277-359 | starting from the generated list, whatever the user does, ids stay distinct, there are never more sheets than generated entries, and every pending sheet carries the id of a generated entry |
| JobSheets.EditAdvances | src/app/appel-offres-simplifie/page.tsx:306-313 | an offered edit of a sheet that is not saved keeps the saved sheets and adds no pending or deleted one |
| JobSheets.ReplaceKeepsSaved | src/app/appel-offres-simplifie/page.tsx:306-313 | replacing an unsaved sheet by one with its id and status leaves every saved sheet in the list |
| JobSheets.ReplaceKeepsPending | src/app/appel-offres-simplifie/page.tsx:306-313 | the same replacement introduces no deleted sheet and no new pending sheet |
| JobSheets.SaveAdvances | src/app/appel-offres-simplifie/page.tsx:342-346 | marking a sheet saved keeps the saved sheets and adds no pending or deleted one |
| JobSheets.DeleteAdvances | src/app/appel-offres-simplifie/page.tsx:325-328 | removing a sheet adds no pending or deleted one |
| JobSheets.DeleteRemovesOne | src/components/steps/Step2JobSelection.tsx:327-330 | with distinct ids, deleting a sheet removes exactly that position and keeps the rest in order |
| JobSheets.TwoPositionsScenario | src/components/steps/Step2JobSelection.tsx:215-217 | two generated positions: not valid at first, still not valid after deleting one, valid once the other is saved |
| SimplifiedStep.AutoGenerateRequestOf | src/app/appel-offres-simplifie/page.tsx:251-266 | no request without analysis data, a usable id or a positions field, nor after a successful generation; otherwise all detected positions, unfiltered |
| SimplifiedStep.AutoGenerate | src/app/appel-offres-simplifie/page.tsx:251-298 | success installs one sheet per entry and sets the generated flag; failure records the message and leaves the flag false |
| SimplifiedStep.RetryAfterFailureOnly | src/app/appel-offres-simplifie/page.tsx:406 | after a failure the retry sends the same request again; after a success no request is ever sent again |
| SimplifiedStep.GeneratedSheetsArePending | src/app/appel-offres-simplifie/page.tsx:275-283 | a successful generation gives only pending sheets with distinct ids, so the step is invalid until each one is processed |
| SimplifiedStep.SaveEdit | src/app/appel-offres-simplifie/page.tsx:306-313 | the sheet with the edited id becomes the edited sheet and every other sheet stays; length, ids and the generated flag are kept |
| SimplifiedStep.ConfirmAction | src/app/appel-offres-simplifie/page.tsx:321-358 | the shared confirmation on the analysis's id, for both the list and the store request; Save with a sheet and a usable id sends that id with the sheet's description; a failed store call leaves the step unchanged |
| SimplifiedStep.ValidityRule | src/app/appel-offres-simplifie/page.tsx:217 | valid exactly with a sheet and an empty pending list |
| SimplifiedStep.InitialFlagsAllowSkippingToEnd | src/app/appel-offres-simplifie/page.tsx:580-632 | with the initial flags false, false, true, Next is blocked on step 1 while a click on the third circle reaches the last step, whose Terminer already hands out the (empty) form data |
| Matching.ToggleCv | src/components/steps/Step3MatchingForm.tsx:446-452 | flips one CV id: a removal keeps the other ids in order with all their copies, an addition appends at the end; nothing else changes |
| Matching.ToggleOffer | src/components/steps/Step3MatchingForm.tsx:454-460 | flips one offer id: a removal keeps the other ids in order with all their copies, an addition appends at the end; nothing else changes |
| Matching.Enrich | src/components/steps/Step3MatchingForm.tsx:414-429 | every kept result carries its pair's ids and score plus the details both endpoints returned; kept plus failed equals the reply's length |
| Matching.EnrichKeepsFetched | src/components/steps/Step3MatchingForm.tsx:414-429 | every scored pair whose two details are fetched appears among the enriched results |
| Matching.FetchedPosition | src/components/steps/Step3MatchingForm.tsx:414-429 | gives the position where such a pair lands |
| Matching.EnrichAppend | src/components/steps/Step3MatchingForm.tsx:414-429 | enrichment works pair by pair: it distributes over concatenation |
| Matching.OneFailureDropsOnlyIt | src/components/steps/Step3MatchingForm.tsx:426-428 | a pair whose details cannot be fetched is dropped and every other pair keeps its place |
| Matching.Insert | src/components/steps/Step3MatchingForm.tsx:432 | inserting into a non-increasing list keeps it non-increasing and adds exactly the new element |
| Matching.SortBySimilarity | src/components/steps/Step3MatchingForm.tsx:432 | the result is a permutation of the input, non-increasing in similarity |
| Matching.MatchingRequestOf | src/components/steps/Step3MatchingForm.tsx:394-407 | no matching call with an empty CV or offer selection; otherwise the two selections as they are |
| Matching.PerformMatching | src/components/steps/Step3MatchingForm.tsx:393-443 | a guarded-out or failed call leaves the state as it was; otherwise the results are the enriched pairs sorted non-increasingly, one fewer per failed fetch |
| Matching.ResultsComeFromReply | src/components/steps/Step3MatchingForm.tsx:414-434 | every displayed result is a pair of the reply, with the details its two endpoints returned |
| Matching.ColorAndIconAgree | src/components/steps/Step3MatchingForm.tsx:463-475 | two scores get the same colour exactly when they get the same icon, exactly when they fall in the same band |
| Matching.BandMonotone | src/components/steps/Step3MatchingForm.tsx:463-475 | a higher score never falls in a worse band; the bands start at 0.8, 0.6 and 0.4 inclusive |
| Matching.OpenCvBrowser | src/components/steps/Step3MatchingForm.tsx:520-524 | CVs are fetched exactly when the list is empty; a failed call leaves the state as it was |
| Matching.OpenOfferBrowser | src/components/steps/Step3MatchingForm.tsx:376-390 | offers are fetched exactly when a usable id exists and the list is empty; a failed call leaves the state as it was |
| Matching.CvBrowserFetchesOnce | src/components/steps/Step3MatchingForm.tsx:520-524 | after a call that returned CVs, reopening makes no call and changes nothing; after a failure, reopening calls again |
| Matching.OfferBrowserFetchesOnce | src/components/steps/Step3MatchingForm.tsx:569-572 | the same for the offers of one submission |
| Matching.ComparisonCount | src/components/steps/Step3MatchingForm.tsx:612 | the figure shown is the number of (CV, offer) pairs of the two selections |
| Matching.Pairs | src/components/steps/Step3MatchingForm.tsx:612 | lists |CVs| × |offers| (CV, offer) pairs |
| Matching.PairsComplete | src/components/steps/Step3MatchingForm.tsx:612 | every CV of the selection meets every offer of the selection in that list |
| Matching.ResultsWithinComparisons | src/components/steps/Step3MatchingForm.tsx:612 | when the backend scores pairs of the selections at most once each, the results never outnumber the comparisons displayed |
| UploadStep.IsDataValid | src/components/steps/Step1UploadForm.tsx:25-26 | valid exactly with a file in file mode or a non-blank text in text mode; never with no mode chosen |
| UploadStep.ValidDataIsNotEnough | src/components/steps/Step1UploadForm.tsx:29-33 | the wizard sees the analysis completion, not the data validity |
| UploadStep.SelectMode | src/components/steps/Step1UploadForm.tsx:36-41 | sets the mode, moves to mini-step 2, clears the error and the completion |
| UploadStep.BackToModeSelection | src/components/steps/Step1UploadForm.tsx:44-51 | returns to the complete initial state |
| UploadStep.DropFiles | src/components/steps/Step1UploadForm.tsx:211-215 | the embedded drop zone changes only the file; it installs the first file exactly when that file passes the PDF and 25 MB checks |
| UploadStep.Dispatch | src/components/steps/Step1UploadForm.tsx:63-71 | a request is built exactly when the data is valid; otherwise the error "Aucune donnée valide à analyser" |
| UploadStep.DispatchOfValidData | src/components/steps/Step1UploadForm.tsx:63-71 | with valid data the throwing branch is unreachable, and in text mode the text sent is the trimmed, non-blank text |
| UploadStep.Submit | src/components/steps/Step1UploadForm.tsx:54-91 | no-op on invalid data or while loading; success marks completion and hands the result over; failure records the message and clears completion |
| FileUpload.LastSegment | src/components/upload/FileUpload.tsx:43 | the part of the name after the last dot, with no dot in it, and the whole name when there is no dot |
| FileUpload.Validate | src/components/upload/FileUpload.tsx:41-57 | wrong type exactly when the extension is not accepted; otherwise too large exactly when size > maxSize × 1048576 bytes |
| FileUpload.HandleFiles | src/components/upload/FileUpload.tsx:59-77 | the parent is called exactly when there is a first file and it validates, and then with that file |
| FileUpload.RemoveFile | src/components/upload/FileUpload.tsx:79-84 | the parent is told there is no file |
| FileUpload.NoDotExtension | src/components/upload/FileUpload.tsx:43 | a name without a dot is its own extension, lower-cased |
| FileUpload.UpperCaseTypeNeverMatches | src/components/upload/FileUpload.tsx:43-44 | an accepted type with an upper-case letter matches no file, as only the name is lower-cased |
| FileUpload.DefaultLimitIsInclusive | src/components/upload/FileUpload.tsx:16-17 | with the defaults, a .PDF file of exactly 25 MB is accepted and one byte more is refused |
| JobEdit.ReceiveJobPost | src/components/modals/JobEditModal.tsx:31-35 | a given post replaces the form data wholesale; none leaves the form as it was |
| JobEdit.SetField | src/components/modals/JobEditModal.tsx:50-55 | the edited field reads back the typed value and every other field is unchanged |
| JobEdit.AddItem | src/components/modals/JobEditModal.tsx:57-65 | a non-blank input is appended trimmed and the input is cleared; a blank input changes nothing |
| JobEdit.AddItemKeepsClean | src/components/modals/JobEditModal.tsx:57-65 | whatever is typed, an item that is added is trimmed and non-empty |
| JobEdit.RemoveAtKeepsClean | src/components/modals/JobEditModal.tsx:67-72 | removing by index keeps the remaining items as they were |
| JobEdit.RemoveUndoesAdd | src/components/modals/JobEditModal.tsx:57-72 | removing the item just added gives back the list before the add |
| JobEdit.AddRequirement | src/components/modals/JobEditModal.tsx:57-65 | the add rule applied to the requirements; skills and other fields are unchanged |
| JobEdit.AddSkill | src/components/modals/JobEditModal.tsx:74-82 | the add rule applied to the skills; requirements and other fields are unchanged |
| JobEdit.RemoveRequirement | src/components/modals/JobEditModal.tsx:67-72 | removes exactly index i and keeps the others in order; an index out of range changes nothing |
| JobEdit.RemoveSkill | src/components/modals/JobEditModal.tsx:84-89 | the same on the skills |
| JobEdit.ApplyKeepsIdAndCleanLists | src/components/modals/JobEditModal.tsx:50-89 | no single edit changes the id or puts a blank or untrimmed item in a list |
| JobEdit.SessionKeepsIdAndCleanLists | src/components/modals/JobEditModal.tsx:50-95 | what `onSave` receives after any edit session has the id it came in with and clean lists, if they were clean |
| JobBoard.ModeDecidesWhatCounts | src/app/appel-offres/page.tsx:17-22 | the page's `isValid` is the single-tender page's rule: a typed text counts only while text mode is selected and is kept across mode switches |
| JobBoard.SelectJob | src/app/appel-offres/page.tsx:114-124 | toggles one id in the selected set and keeps the rest |
| JobBoard.SelectAll | src/app/appel-offres/page.tsx:139-141 | the selection becomes exactly the set of the posts' ids |
| JobBoard.DeselectAll | src/app/appel-offres/page.tsx:143-145 | the selection becomes empty |
| JobBoard.SaveJob | src/app/appel-offres/page.tsx:131-137 | replaces only the posts with the saved id, in place |
| JobBoard.SaveKeepsIds | src/app/appel-offres/page.tsx:131-137 | saving never changes the ids on the board, and saving an unchanged post changes nothing |
| JobBoard.FilteredJobs | src/app/appel-offres/page.tsx:148-154 | an empty filter shows all posts; otherwise exactly the posts with a skill containing the filter, ignoring case, in order, each as often as it is on the board |
| JobBoard.SkillLessPostShowsOnlyUnfiltered | src/app/appel-offres/page.tsx:148-154 | a post without skills is shown exactly when no filter is set |
| JobBoard.PickedSkillShowsItsPosts | src/app/appel-offres/page.tsx:148-154 | filtering on a skill of a post always shows that post |
| JobBoard.AllSkills | src/app/appel-offres/page.tsx:157-159 | strictly sorted, hence duplicate-free, with exactly the skills of the posts as members |
| JobBoard.FlatSkills | src/app/appel-offres/page.tsx:158 | the flattened skill list has exactly the posts' skills as members |
| JobBoard.AllSkillsIsTheSortedListing | src/app/appel-offres/page.tsx:157-159 | any strictly sorted list of exactly those skills is the skill list |
| StringOrder.BelowIrreflexive | src/app/appel-offres/page.tsx:159 | no string sorts before itself |
| StringOrder.BelowTransitive | src/app/appel-offres/page.tsx:159 | the sort order is transitive |
| StringOrder.BelowTotal | src/app/appel-offres/page.tsx:159 | any two different strings are ordered one way or the other |
| StringOrder.InsertUnique | src/app/appel-offres/page.tsx:157-159 | inserting into a strictly sorted list keeps it strictly sorted and adds exactly the new member |
| StringOrder.StrictlySortedUnique | src/app/appel-offres/page.tsx:157-159 | a set of strings has only one strictly sorted listing |
| StringOrder.SortedUnique | src/app/appel-offres/page.tsx:157-159 | the distinct members of a list, strictly sorted |
| CvUpload.AddFiles | src/app/upload-cv/page.tsx:32-64 | the accepted files of a batch are appended after the existing ones in order, each occurrence kept, so the list grows by the number of accepted files; a batch without one changes nothing and raises the alert |
| CvUpload.AddFilesKeepsOnlyCvFiles | src/app/upload-cv/page.tsx:38-42 | the list only ever holds PDF, DOC or DOCX files |
| CvUpload.RemoveFile | src/app/upload-cv/page.tsx:66-68 | removes exactly index i and keeps the order of the rest |
| CvUpload.RemoveFileKeepsOnlyCvFiles | src/app/upload-cv/page.tsx:66-68 | removal keeps the list free of other file types |
| CvUpload.IsFormValid | src/app/upload-cv/page.tsx:70-87 | valid exactly with at least one file in file mode or a non-blank text in text mode, which is exactly when the submit handler does not reject |
| CvUpload.SubmitRejectsExactlyInvalid | src/app/upload-cv/page.tsx:70-82 | the submit handler rejects exactly the invalid forms, announces the file count, and passes an accepted text on untrimmed |
| CvUpload.AcceptedBatchEnablesSubmit | src/app/upload-cv/page.tsx:44-48 | an accepted batch in file mode always makes the form valid |
| PdfUpload.ChooseFiles | src/app/upload/page.tsx:32-54 | only the first file is considered; it replaces the selection exactly when it is a PDF; otherwise nothing changes and the alert is raised |
| PdfUpload.FirstFileDecides | src/app/upload/page.tsx:36-44 | a PDF later in the batch does not make up for a first file that is not a PDF |
| PdfUpload.RemoveFile | src/app/upload/page.tsx:56-61 | clears the selection and nothing else |
| PdfUpload.ChooseFilesKeepsPdf | src/app/upload/page.tsx:47-61 | the file held, if any, is always a PDF |
| PdfUpload.IsFormValid | src/app/upload/page.tsx:63-78 | valid exactly with a file in file mode or a non-blank text in text mode, which is exactly when the submit handler does not reject |
| PdfUpload.SubmitRejectsExactlyInvalid | src/app/upload/page.tsx:63-73 | the submit branches mirror `isFormValid` and pass the file or the untrimmed text on |
| Text.Trim | src/components/steps/Step1UploadForm.tsx:26 | the result is empty exactly when the input is blank, and otherwise neither starts nor ends with a space |
| Text.TrimIsSlice | src/components/steps/Step1UploadForm.tsx:26 | the result is the slice of the input that starts after its leading white space and is followed only by white space |
| Text.TrimIdempotent | src/components/steps/Step1UploadForm.tsx:68 | trimming twice is trimming once |
| Text.ToLower | src/components/upload/FileUpload.tsx:43 | the same length, lower-cased character by character, with no upper-case letter left |
| Text.ContainsAt | src/app/appel-offres/page.tsx:151 | a substring found at a position is contained |
| Text.ContainsFound | src/app/appel-offres/page.tsx:151 | a contained substring starts at some position of the string (the converse of `ContainsAt`) |
| Seqs.Filter | src/app/upload-cv/page.tsx:38-42 | an ordered sub-list whose members all satisfy the predicate, as long as the number of positions that satisfy it |
| Seqs.FilterMultiplicity | src/app/upload-cv/page.tsx:38-42 | each satisfying value is kept as often as it occurs, and no other value is kept |
| Seqs.FilterMembers | src/app/upload-cv/page.tsx:38-42 | a value is kept exactly when it is in the list and satisfies the predicate |
| Seqs.FilterDropsOne | src/components/steps/Step2JobSelection.tsx:329 | filtering out the one failing element removes exactly that position |
| Seqs.RemoveAt | src/components/modals/JobEditModal.tsx:67-72 | `filter((_, j) => j !== i)` removes exactly index i, and an index out of range changes nothing |

## Left out

- Rendering: JSX, styling, animations, drag-over and hover flags, modal open and close flags, toasts, `alert` texts, `console` logging, and loading spinners. The loading flag appears only as the `isLoading` parameter of `UploadStep.Submit`.
- The HTTP layer of `src/app/api/config.ts`: axios, `FormData` and the base URL. The record shapes become datatypes. Every endpoint becomes a `Result` parameter, and the detail endpoints become functions from id to `Result`. As a result the outcome of a detail fetch depends only on the id: the source fetches the details anew for every pair (`src/components/steps/Step3MatchingForm.tsx:416-419`), so one pair can fail while another pair with the same CV or offer succeeds, which the model cannot express.
- Concurrency: the `Promise.all` pair of detail fetches, overlapping requests, and the `setTimeout` before the edit modal closes. Each handler is one atomic transition.
- `Date.now()` in sheet ids: it is an opaque per-entry `stamp` parameter. Ids are distinct within a batch because of the index.
- Floating-point display: `Math.round(similarity * 100)`, the MB labels, and the selection percentage bar of the `appel-offres` page, which divides by zero with no post. Similarities are `real` and are only compared.
- Unicode in `trim` and `toLowerCase`. Trimming strips the ASCII white space, no-break space, byte-order mark and line/paragraph separators. Lower-casing maps only `A`–`Z`.
- StringOrder.Below: compares Dafny `char`s where JavaScript's default sort compares UTF-16 code units. The two orders differ only for characters outside the Basic Multilingual Plane.
- Matching.SortBySimilarity: stability is built into `Insert` but is not stated as a property. Only sortedness and the permutation are proved.
- `Object.entries` order: the reply's map is a list of (name, description) pairs in the order the browser enumerates them.
- The remaining navigation of the wizards: the `onNextStep` callback, the `useEffect` relays of validity flags to the parent, and how the parent stores the analysis result.
- The `JobCard` component and the home page (presentational), and the mock job posts (fixture data).
