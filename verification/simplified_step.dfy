/** The simplified tender page (`appel-offres-simplifie`): its step 2
    generates a sheet for every detected position at once and then offers the
    same curation as the full wizard; the page wires three wizard steps whose
    validity flags start as false, false, true. */
module SimplifiedStep {
  import opened Wrappers
  import opened Api
  import opened JobSheets
  import Wizard

  /** `jobSheets`, `hasGenerated` and `error` of `Step2SimplifiedSelection`. */
  datatype State = State(sheets: seq<JobSheet>, hasGenerated: bool, error: Option<string>)

  function Initial(): State {
    State([], false, None)
  }

  /** Every sheet processed, and at least one sheet. */
  predicate IsValid(st: State) {
    AllProcessed(st.sheets)
  }

  /** The request `handleAutoGenerateSheets` sends: none without analysis
      data, a usable submission id or a positions field, or once a generation
      succeeded; otherwise all detected positions, unfiltered. */
  function AutoGenerateRequestOf(st: State, analysis: Option<JobAnalysisResponse>): (r: Option<GenerateRequest>)
    ensures r.None? <==> analysis.None? || analysis.value.submissionId == ""
                         || analysis.value.positions.None? || st.hasGenerated
    ensures r.Some? ==> r.value == GenerateRequest(analysis.value.submissionId, analysis.value.positions.value)
  {
    if analysis.None? || analysis.value.submissionId == "" || analysis.value.positions.None? || st.hasGenerated then None
    else Some(GenerateRequest(analysis.value.submissionId, analysis.value.positions.value))
  }

  /** `handleAutoGenerateSheets` once the generate call answered `reply`. */
  function AutoGenerate(st: State, analysis: Option<JobAnalysisResponse>, reply: Result<Fiches>, stamp: nat -> nat): (r: State)
    ensures AutoGenerateRequestOf(st, analysis).None? ==> r == st
    ensures AutoGenerateRequestOf(st, analysis).Some? && reply.Success? ==>
              r == State(FromFiches(reply.value, stamp), true, None)
    ensures AutoGenerateRequestOf(st, analysis).Some? && reply.Failure? ==>
              r == st.(error := Some(reply.message)) && !r.hasGenerated
  {
    if AutoGenerateRequestOf(st, analysis).None? then st
    else
      match reply
      case Success(fiches) => State(FromFiches(fiches, stamp), true, None)
      case Failure(msg) => st.(error := Some(msg))
  }

  /** After a failed generation the "Réessayer" button sends the same request
      again; after a successful one no request is ever sent again. */
  lemma RetryAfterFailureOnly(st: State, analysis: Option<JobAnalysisResponse>, reply: Result<Fiches>, stamp: nat -> nat)
    requires AutoGenerateRequestOf(st, analysis).Some?
    ensures var r := AutoGenerate(st, analysis, reply, stamp);
            && (reply.Failure? ==> AutoGenerateRequestOf(r, analysis) == AutoGenerateRequestOf(st, analysis))
            && (reply.Success? ==> AutoGenerateRequestOf(r, analysis).None?)
  {
  }

  /** A successful generation gives one pending sheet per entry, so the step
      is invalid until each is saved or deleted (and invalid for an empty
      reply). */
  lemma GeneratedSheetsArePending(st: State, analysis: Option<JobAnalysisResponse>, fiches: Fiches, stamp: nat -> nat)
    requires AutoGenerateRequestOf(st, analysis).Some?
    ensures var r := AutoGenerate(st, analysis, Success(fiches), stamp);
            && |r.sheets| == |fiches| && DistinctIds(r.sheets)
            && (forall i :: 0 <= i < |r.sheets| ==> r.sheets[i].status == Pending)
            && !IsValid(r)
  {
    var r := AutoGenerate(st, analysis, Success(fiches), stamp);
    if |fiches| > 0 {
      assert r.sheets[0].status == Pending;
    }
  }

  /** `handleSaveEdit(updated)`. */
  function SaveEdit(st: State, updated: JobSheet): (r: State)
    ensures |r.sheets| == |st.sheets|
    ensures forall i :: 0 <= i < |r.sheets| ==> r.sheets[i].id == st.sheets[i].id
    ensures forall i :: 0 <= i < |r.sheets| && st.sheets[i].id != updated.id ==> r.sheets[i] == st.sheets[i]
    ensures forall i :: 0 <= i < |r.sheets| && st.sheets[i].id == updated.id ==> r.sheets[i] == updated
    ensures r.(sheets := st.sheets) == st
  {
    st.(sheets := ReplaceById(st.sheets, updated))
  }

  /** `handleConfirmAction(action)`: the shared confirmation logic. */
  function ConfirmAction(st: State, target: Option<JobSheet>, analysis: Option<JobAnalysisResponse>,
                         action: Action, store: Result<StoreResponse>): (r: (State, Option<StoreRequest>))
    ensures action == Delete ==> r.1.None?
    ensures action == Save && store.Failure? ==> r.0 == st
    ensures r.0.(sheets := st.sheets) == st
    ensures r.0.sheets == Confirm(st.sheets, target, IdOf(analysis), action, store).sheets
    ensures r.1 == Confirm(st.sheets, target, IdOf(analysis), action, store).request
    ensures action == Save && target.Some? && analysis.Some? && HasId(Some(analysis.value.submissionId)) ==>
              r.1 == Some(StoreRequest(analysis.value.submissionId, target.value.description))
  {
    var c := Confirm(st.sheets, target, IdOf(analysis), action, store);
    (st.(sheets := c.sheets), c.request)
  }

  /** `analysisData?.id_appel_candidature`. */
  function IdOf(analysis: Option<JobAnalysisResponse>): Option<string> {
    if analysis.Some? then Some(analysis.value.submissionId) else None
  }

  /** The page's three wizard steps and their validity flags. */
  function PageSteps(step1Valid: bool, step2Valid: bool, step3Valid: bool): seq<Wizard.Step> {
    [ Wizard.Step("upload", "Analyse de l'Appel d'Offres", Some(step1Valid)),
      Wizard.Step("selection", "Gestion Simplifiée", Some(step2Valid)),
      Wizard.Step("matching", "Matching Automatique", Some(step3Valid)) ]
  }

  /** The flags start as `false`, `false`, `true`: Next is blocked on the
      first step, yet a click on the third progress circle reaches the last
      step, whose "Terminer" button is already enabled. */
  lemma InitialFlagsAllowSkippingToEnd<D>()
    ensures var steps := PageSteps(false, false, true);
            var s0 := Wizard.Initial<D>();
            var s2 := Wizard.GoToStep(steps, s0, 2);
            && Wizard.ClickNext(steps, s0) == s0
            && Wizard.IsLastStep(steps, s2)
            && Wizard.ClickComplete(steps, s2) == Some(map[])
  {
  }

  /** `isValid`: there is a sheet and the pending counter reads 0. */
  lemma ValidityRule(st: State)
    ensures IsValid(st) <==> |st.sheets| > 0 && PendingOf(st.sheets) == []
  {
    AllProcessedIffNonePending(st.sheets);
  }
}
