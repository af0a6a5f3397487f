/** Record shapes exchanged with the backend. The HTTP transport itself
    (base URL, JSON and form encodings) is not modelled: each endpoint is a
    `Result` handed to the handler that awaits it. */
module Api {
  import opened Wrappers

  /** Reply of `/job/analyze`. `positions` is `None` when the reply carries no
      `result.job_positions` field. */
  datatype JobAnalysisResponse = JobAnalysisResponse(
    submissionId: string,
    positions: Option<seq<string>>,
    commentary: string,
    error: bool)

  /** Body of `/job/generate`. */
  datatype GenerateRequest = GenerateRequest(submissionId: string, positions: seq<string>)

  /** The `fiches` object of the `/job/generate` reply, as the (name,
      description) pairs `Object.entries` enumerates. */
  type Fiches = seq<(string, string)>

  /** Body of `/job/store-offre`. */
  datatype StoreRequest = StoreRequest(submissionId: string, description: string)

  /** Reply of `/job/store-offre`. */
  datatype StoreResponse = StoreResponse(success: bool, message: string)

  /** One element of `/job/offre/appel/{id}`. */
  datatype SavedJobOffer = SavedJobOffer(offerId: string, title: string, description: string)

  /** One element of `/cv/short`. */
  datatype CvShort = CvShort(
    cvId: string, surname: string, firstName: string, email: string, phone: string,
    studyFields: seq<string>, skills: seq<string>)

  /** Body of `/similarity/match-cvs-offres`. */
  datatype MatchingRequest = MatchingRequest(cvIds: seq<string>, offerIds: seq<string>)

  /** One element of the matching reply; the score is only ever compared. */
  datatype MatchingResult = MatchingResult(cvId: string, offerId: string, similarity: real)

  /** Reply of `/cv/short/{id}`. */
  datatype CvDetails = CvDetails(
    surname: string, firstName: string, email: string, phone: string,
    studyFields: seq<string>, skills: seq<string>)

  /** Reply of `/job/offre/{id}`. */
  datatype OfferDetails = OfferDetails(title: string, description: string, contractType: string)

  /** A JavaScript id is usable only when it is truthy: present and not "". */
  predicate HasId(id: Option<string>) {
    id.Some? && id.value != ""
  }
}
