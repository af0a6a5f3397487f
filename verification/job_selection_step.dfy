/** Step 2 of the full wizard (`Step2JobSelection`): pick job titles among
    the analysed positions (mini-step 1), generate a sheet per returned entry,
    then edit, save or delete the sheets (mini-step 2). */
module JobSelectionStep {
  import opened Wrappers
  import opened Seqs
  import opened Api
  import opened Selection
  import opened JobSheets

  /** `currentMiniStep`: 1 (choose titles) or 2 (curate sheets). */
  datatype MiniStep = Choose | Curate

  datatype State = State(
    miniStep: MiniStep,
    selectedJobs: seq<string>,
    error: Option<string>,
    sheets: seq<JobSheet>)

  function Initial(): State {
    State(Choose, [], None, [])
  }

  /** The validity reported to the wizard: a non-empty selection in
      mini-step 1, every sheet processed in mini-step 2. */
  predicate IsValid(st: State) {
    if st.miniStep == Choose then |st.selectedJobs| > 0 else AllProcessed(st.sheets)
  }

  /** The curation screen is rendered only in mini-step 2 with at least one
      sheet; otherwise the title picker is shown. */
  predicate ShowsCuration(st: State) {
    st.miniStep == Curate && |st.sheets| > 0
  }

  /** `handleJobToggle(title)`: flips `title` in the selection; every other
      title and every other field is kept. */
  function ToggleJob(st: State, title: string): (r: State)
    ensures title in r.selectedJobs <==> title !in st.selectedJobs
    ensures forall t :: t != title ==> (t in r.selectedJobs <==> t in st.selectedJobs)
    ensures NoDup(st.selectedJobs) ==> NoDup(r.selectedJobs)
    ensures title in st.selectedJobs ==> Subsequence(r.selectedJobs, st.selectedJobs)
    ensures title in st.selectedJobs ==> forall y :: y != title ==> multiset(r.selectedJobs)[y] == multiset(st.selectedJobs)[y]
    ensures title !in st.selectedJobs ==> r.selectedJobs == st.selectedJobs + [title]
    ensures r.(selectedJobs := st.selectedJobs) == st
  {
    st.(selectedJobs := Toggle(st.selectedJobs, title))
  }

  /** "Tout sélectionner" copies the analysed positions; "Tout désélectionner"
      empties the selection. */
  function SelectAll(st: State, positions: seq<string>): (r: State)
    ensures r.selectedJobs == positions
    ensures Elements(r.selectedJobs) == Elements(positions)
    ensures r.(selectedJobs := st.selectedJobs) == st
  {
    st.(selectedJobs := positions)
  }

  function DeselectAll(st: State): (r: State)
    ensures forall t :: t !in r.selectedJobs
    ensures r.(selectedJobs := st.selectedJobs) == st
  {
    st.(selectedJobs := [])
  }

  /** The request `handleGenerateSheets` sends: none without a submission id
      or without a selected title, otherwise exactly the selected titles. */
  function GenerateRequestOf(st: State, submissionId: Option<string>): (r: Option<GenerateRequest>)
    ensures r.None? <==> !HasId(submissionId) || |st.selectedJobs| == 0
    ensures r.Some? ==> r.value.submissionId == submissionId.value && r.value.positions == st.selectedJobs
  {
    if !HasId(submissionId) || |st.selectedJobs| == 0 then None
    else Some(GenerateRequest(submissionId.value, st.selectedJobs))
  }

  /** After "Tout sélectionner" the counter shows as many titles as were
      analysed, and generation sends exactly the analysed positions, in
      their order and with their repetitions. */
  lemma SelectAllSendsPositions(st: State, positions: seq<string>, submissionId: Option<string>)
    ensures |SelectAll(st, positions).selectedJobs| == |positions|
    ensures GenerateRequestOf(SelectAll(st, positions), submissionId) ==
              if !HasId(submissionId) || |positions| == 0 then None
              else Some(GenerateRequest(submissionId.value, positions))
  {
  }

  /** `handleGenerateSheets` once the generate call answered `reply`
      (`stamp(i)` is the `Date.now()` read for the id of entry `i`). */
  function Generate(st: State, submissionId: Option<string>, reply: Result<Fiches>, stamp: nat -> nat): (r: State)
    ensures GenerateRequestOf(st, submissionId).None? ==> r == st
    ensures GenerateRequestOf(st, submissionId).Some? && reply.Success? ==>
              && r.sheets == FromFiches(reply.value, stamp)
              && r.miniStep == Curate && r.error == None
              && r.selectedJobs == st.selectedJobs
    ensures GenerateRequestOf(st, submissionId).Some? && reply.Failure? ==>
              r == st.(error := Some(reply.message))
  {
    if GenerateRequestOf(st, submissionId).None? then st
    else
      match reply
      case Success(fiches) => st.(sheets := FromFiches(fiches, stamp), miniStep := Curate, error := None)
      case Failure(msg) => st.(error := Some(msg))
  }

  /** A successful generation yields one pending sheet per returned entry. */
  lemma GenerateGivesPendingSheets(st: State, submissionId: Option<string>, fiches: Fiches, stamp: nat -> nat)
    requires GenerateRequestOf(st, submissionId).Some?
    ensures var r := Generate(st, submissionId, Success(fiches), stamp);
            && |r.sheets| == |fiches|
            && DistinctIds(r.sheets)
            && (forall i :: 0 <= i < |r.sheets| ==> r.sheets[i].status == Pending)
            && (|fiches| > 0 ==> ShowsCuration(r) && !IsValid(r))
  {
    var r := Generate(st, submissionId, Success(fiches), stamp);
    if |fiches| > 0 {
      assert r.sheets[0].status == Pending;
    }
  }

  /** `handleSaveEdit(updated)`. */
  function SaveEdit(st: State, updated: JobSheet): (r: State)
    ensures |r.sheets| == |st.sheets|
    ensures forall i :: 0 <= i < |r.sheets| ==> r.sheets[i].id == st.sheets[i].id
    ensures forall i :: 0 <= i < |r.sheets| && st.sheets[i].id != updated.id ==> r.sheets[i] == st.sheets[i]
    ensures forall i :: 0 <= i < |r.sheets| && st.sheets[i].id == updated.id ==> r.sheets[i] == updated
    ensures r.(sheets := st.sheets) == st
  {
    st.(sheets := ReplaceById(st.sheets, updated))
  }

  /** `handleConfirmAction(action)` on the sheet the modal was opened for. */
  function ConfirmAction(st: State, target: Option<JobSheet>, submissionId: Option<string>,
                         action: Action, store: Result<StoreResponse>): (r: (State, Option<StoreRequest>))
    ensures action == Delete ==> r.1.None?
    ensures action == Save && store.Failure? ==> r.0 == st
    ensures r.0.(sheets := st.sheets) == st
    ensures r.0.sheets == Confirm(st.sheets, target, submissionId, action, store).sheets
    ensures r.1 == Confirm(st.sheets, target, submissionId, action, store).request
    ensures action == Save && target.Some? && HasId(submissionId) ==>
              r.1 == Some(StoreRequest(submissionId.value, target.value.description))
  {
    var c := Confirm(st.sheets, target, submissionId, action, store);
    (st.(sheets := c.sheets), c.request)
  }

  /** `handleBackToSelection`: back to the picker with no sheet and no
      error; the selection is kept. */
  function BackToSelection(st: State): (r: State)
    ensures r.miniStep == Choose && r.sheets == [] && r.error == None
    ensures r.selectedJobs == st.selectedJobs
    ensures IsValid(r) <==> |st.selectedJobs| > 0
  {
    State(Choose, st.selectedJobs, None, [])
  }

  /** `isValid`: in mini-step 1 some title is selected; in mini-step 2 there
      is a sheet and the pending counter of the curation screen reads 0. */
  lemma ValidityRule(st: State)
    ensures st.miniStep == Choose ==> (IsValid(st) <==> |st.selectedJobs| > 0)
    ensures st.miniStep == Curate ==> (IsValid(st) <==> |st.sheets| > 0 && PendingOf(st.sheets) == [])
  {
    AllProcessedIffNonePending(st.sheets);
  }

  /** Deleting every sheet leaves mini-step 2 with no sheet: the picker is
      shown again but the step stays invalid whatever is selected. */
  lemma AllDeletedIsInvalid(st: State)
    requires st.miniStep == Curate && st.sheets == []
    ensures !ShowsCuration(st) && !IsValid(st)
  {
  }
}
