/** Step 3 of the full wizard (`Step3MatchingForm`): choose CVs and saved
    offers, ask the backend for similarity scores, enrich every scored pair
    with the CV and offer details (dropping the pairs whose details cannot be
    fetched), sort by decreasing similarity, and colour each score. */
module Matching {
  import opened Wrappers
  import opened Seqs
  import opened Api
  import opened Selection

  /** A scored pair with the details fetched for it. */
  datatype Enriched = Enriched(
    cvId: string, offerId: string, similarity: real,
    cvDetails: CvDetails, offerDetails: OfferDetails)

  datatype State = State(
    cvs: seq<CvShort>,
    offers: seq<SavedJobOffer>,
    selectedCvs: seq<string>,
    selectedOffers: seq<string>,
    results: seq<Enriched>)

  function Initial(): State {
    State([], [], [], [], [])
  }

  /** `toggleCvSelection(id)`: flips one CV id; nothing else changes. */
  function ToggleCv(st: State, id: string): (r: State)
    ensures id in r.selectedCvs <==> id !in st.selectedCvs
    ensures forall c :: c != id ==> (c in r.selectedCvs <==> c in st.selectedCvs)
    ensures NoDup(st.selectedCvs) ==> NoDup(r.selectedCvs)
    ensures id in st.selectedCvs ==> Subsequence(r.selectedCvs, st.selectedCvs)
    ensures id in st.selectedCvs ==> forall y :: y != id ==> multiset(r.selectedCvs)[y] == multiset(st.selectedCvs)[y]
    ensures id !in st.selectedCvs ==> r.selectedCvs == st.selectedCvs + [id]
    ensures r.(selectedCvs := st.selectedCvs) == st
  {
    st.(selectedCvs := Toggle(st.selectedCvs, id))
  }

  /** `toggleOfferSelection(id)`: flips one offer id; nothing else changes. */
  function ToggleOffer(st: State, id: string): (r: State)
    ensures id in r.selectedOffers <==> id !in st.selectedOffers
    ensures forall o :: o != id ==> (o in r.selectedOffers <==> o in st.selectedOffers)
    ensures NoDup(st.selectedOffers) ==> NoDup(r.selectedOffers)
    ensures id in st.selectedOffers ==> Subsequence(r.selectedOffers, st.selectedOffers)
    ensures id in st.selectedOffers ==> forall y :: y != id ==> multiset(r.selectedOffers)[y] == multiset(st.selectedOffers)[y]
    ensures id !in st.selectedOffers ==> r.selectedOffers == st.selectedOffers + [id]
    ensures r.(selectedOffers := st.selectedOffers) == st
  {
    st.(selectedOffers := Toggle(st.selectedOffers, id))
  }

  // ---------------------------------------------------------------------
  // Enrichment

  /** Both detail fetches of a scored pair succeed. */
  predicate Fetched(m: MatchingResult, cv: string -> Result<CvDetails>, offer: string -> Result<OfferDetails>) {
    cv(m.cvId).Success? && offer(m.offerId).Success?
  }

  /** The number of scored pairs whose details could not be fetched. */
  function Failures(raw: seq<MatchingResult>, cv: string -> Result<CvDetails>,
                    offer: string -> Result<OfferDetails>): nat
    decreases |raw|
  {
    if |raw| == 0 then 0
    else (if Fetched(raw[0], cv, offer) then 0 else 1) + Failures(raw[1..], cv, offer)
  }

  /** The scored pair an enriched result came from. */
  function Score(e: Enriched): MatchingResult {
    MatchingResult(e.cvId, e.offerId, e.similarity)
  }

  /** The `for ... of` loop of `performMatching`: for each scored pair in
      turn, fetch both details and keep the pair with them; a failed fetch
      drops that pair only. */
  function Enrich(raw: seq<MatchingResult>, cv: string -> Result<CvDetails>,
                  offer: string -> Result<OfferDetails>): (r: seq<Enriched>)
    ensures |r| + Failures(raw, cv, offer) == |raw|
    ensures forall i :: 0 <= i < |r| ==>
              && Score(r[i]) in raw
              && cv(r[i].cvId) == Success(r[i].cvDetails)
              && offer(r[i].offerId) == Success(r[i].offerDetails)
    decreases |raw|
  {
    if |raw| == 0 then []
    else
      var m := raw[0];
      var rest := Enrich(raw[1..], cv, offer);
      if Fetched(m, cv, offer) then
        var e := Enriched(m.cvId, m.offerId, m.similarity, cv(m.cvId).value, offer(m.offerId).value);
        var r := [e] + rest;
        assert forall i :: 1 <= i < |r| ==> r[i] == rest[i - 1];
        assert Score(r[0]) == raw[0];
        r
      else rest
  }

  /** Every pair whose two details are fetched is kept. */
  lemma EnrichKeepsFetched(raw: seq<MatchingResult>, cv: string -> Result<CvDetails>,
                           offer: string -> Result<OfferDetails>, i: nat)
    requires i < |raw| && Fetched(raw[i], cv, offer)
    ensures exists k :: 0 <= k < |Enrich(raw, cv, offer)| && Score(Enrich(raw, cv, offer)[k]) == raw[i]
  {
    var k := FetchedPosition(raw, cv, offer, i);
  }

  /** Where a fetched pair lands in the enriched list. */
  lemma {:induction false} FetchedPosition(raw: seq<MatchingResult>, cv: string -> Result<CvDetails>,
                                           offer: string -> Result<OfferDetails>, i: nat) returns (k: nat)
    requires i < |raw| && Fetched(raw[i], cv, offer)
    ensures k < |Enrich(raw, cv, offer)| && Score(Enrich(raw, cv, offer)[k]) == raw[i]
    decreases i
  {
    var r := Enrich(raw, cv, offer);
    var rest := Enrich(raw[1..], cv, offer);
    if i == 0 {
      k := 0;
      assert Score(r[0]) == raw[0];
    } else {
      var j := FetchedPosition(raw[1..], cv, offer, i - 1);
      assert Score(rest[j]) == raw[i];
      if Fetched(raw[0], cv, offer) {
        assert r[1..] == rest;
        k := j + 1;
      } else {
        assert r == rest;
        k := j;
      }
    }
  }

  /** Enrichment works pair by pair. */
  lemma {:induction false} EnrichAppend(a: seq<MatchingResult>, b: seq<MatchingResult>,
                                        cv: string -> Result<CvDetails>, offer: string -> Result<OfferDetails>)
    ensures Enrich(a + b, cv, offer) == Enrich(a, cv, offer) + Enrich(b, cv, offer)
    decreases |a|
  {
    if |a| == 0 {
      assert a + b == b;
    } else {
      assert (a + b)[1..] == a[1..] + b;
      EnrichAppend(a[1..], b, cv, offer);
    }
  }

  /** A pair whose details cannot be fetched is absent from the enriched list
      and every other pair keeps its place. */
  lemma OneFailureDropsOnlyIt(a: seq<MatchingResult>, m: MatchingResult, b: seq<MatchingResult>,
                              cv: string -> Result<CvDetails>, offer: string -> Result<OfferDetails>)
    requires !Fetched(m, cv, offer)
    ensures Enrich(a + [m] + b, cv, offer) == Enrich(a, cv, offer) + Enrich(b, cv, offer)
  {
    EnrichAppend(a + [m], b, cv, offer);
    EnrichAppend(a, [m], cv, offer);
  }

  // ---------------------------------------------------------------------
  // Sorting

  /** Non-increasing similarity. */
  ghost predicate SortedDesc(s: seq<Enriched>) {
    forall i, j :: 0 <= i < j < |s| ==> s[i].similarity >= s[j].similarity
  }

  /** Putting a head no lower than the first element keeps the order. */
  lemma SortedCons(h: Enriched, t: seq<Enriched>)
    requires SortedDesc(t)
    requires |t| == 0 || h.similarity >= t[0].similarity
    ensures SortedDesc([h] + t)
  {
    var r := [h] + t;
    forall i, j | 0 <= i < j < |r| ensures r[i].similarity >= r[j].similarity {
      if i == 0 {
        assert r[j] == t[j - 1];
        if j > 1 {
          assert t[0].similarity >= t[j - 1].similarity;
        }
      } else {
        assert r[i] == t[i - 1] && r[j] == t[j - 1];
      }
    }
  }

  /** Inserts `x` before the first element that does not score strictly
      higher, so equal scores keep their input order. */
  function Insert(x: Enriched, s: seq<Enriched>): (r: seq<Enriched>)
    requires SortedDesc(s)
    ensures SortedDesc(r)
    ensures multiset(r) == multiset(s) + multiset{x}
    ensures |r| == |s| + 1
    ensures r[0] == x || (|s| > 0 && r[0] == s[0])
    decreases |s|
  {
    if |s| == 0 then [x]
    else if s[0].similarity > x.similarity then
      var rest := Insert(x, s[1..]);
      HeadTailMultiset(s);
      assert multiset([s[0]] + rest) == multiset{s[0]} + multiset(rest);
      assert |s| > 1 ==> s[0].similarity >= s[1].similarity;
      SortedCons(s[0], rest);
      [s[0]] + rest
    else
      SortedCons(x, s);
      [x] + s
  }

  /** `enrichedResults.sort((a, b) => b.similarity - a.similarity)`, a
      stable sort: a permutation of its input, non-increasing in score. */
  function SortBySimilarity(s: seq<Enriched>): (r: seq<Enriched>)
    ensures SortedDesc(r)
    ensures multiset(r) == multiset(s)
    ensures |r| == |s|
    decreases |s|
  {
    if |s| == 0 then []
    else
      var t := SortBySimilarity(s[1..]);
      var r := Insert(s[0], t);
      HeadTailMultiset(s);
      r
  }

  /** A non-empty list holds its head once more than its tail. */
  lemma HeadTailMultiset<T>(s: seq<T>)
    requires |s| > 0
    ensures multiset(s) == multiset{s[0]} + multiset(s[1..])
  {
    assert s == [s[0]] + s[1..];
  }

  // ---------------------------------------------------------------------
  // performMatching

  /** The request `performMatching` sends: none unless both selections are
      non-empty, otherwise the two selections as they are. */
  function MatchingRequestOf(st: State): (r: Option<MatchingRequest>)
    ensures r.None? <==> |st.selectedCvs| == 0 || |st.selectedOffers| == 0
    ensures r.Some? ==> r.value.cvIds == st.selectedCvs && r.value.offerIds == st.selectedOffers
  {
    if |st.selectedCvs| == 0 || |st.selectedOffers| == 0 then None
    else Some(MatchingRequest(st.selectedCvs, st.selectedOffers))
  }

  /** `performMatching` once the matching call answered `reply` and the
      detail endpoints answer `cv` and `offer`. */
  function PerformMatching(st: State, reply: Result<seq<MatchingResult>>,
                           cv: string -> Result<CvDetails>, offer: string -> Result<OfferDetails>): (r: State)
    ensures MatchingRequestOf(st).None? ==> r == st
    ensures reply.Failure? ==> r == st
    ensures r.(results := st.results) == st
    ensures MatchingRequestOf(st).Some? && reply.Success? ==>
              && SortedDesc(r.results)
              && multiset(r.results) == multiset(Enrich(reply.value, cv, offer))
              && |r.results| + Failures(reply.value, cv, offer) == |reply.value|
  {
    if MatchingRequestOf(st).None? then st
    else
      match reply
      case Failure(_) => st
      case Success(raw) => st.(results := SortBySimilarity(Enrich(raw, cv, offer)))
  }

  /** Every displayed result is a scored pair of the reply, with the details
      its two endpoints returned. */
  lemma ResultsComeFromReply(st: State, raw: seq<MatchingResult>,
                             cv: string -> Result<CvDetails>, offer: string -> Result<OfferDetails>)
    requires MatchingRequestOf(st).Some?
    ensures var r := PerformMatching(st, Success(raw), cv, offer).results;
            forall i :: 0 <= i < |r| ==>
              Score(r[i]) in raw && cv(r[i].cvId) == Success(r[i].cvDetails)
              && offer(r[i].offerId) == Success(r[i].offerDetails)
  {
    var e := Enrich(raw, cv, offer);
    var r := PerformMatching(st, Success(raw), cv, offer).results;
    forall i | 0 <= i < |r|
      ensures Score(r[i]) in raw && cv(r[i].cvId) == Success(r[i].cvDetails)
              && offer(r[i].offerId) == Success(r[i].offerDetails)
    {
      assert r[i] in multiset(r);
      assert r[i] in multiset(e);
      var k :| 0 <= k < |e| && e[k] == r[i];
    }
  }

  // ---------------------------------------------------------------------
  // Score colouring

  /** The four score bands, best first. */
  datatype Band = Excellent | Good | Fair | Weak

  function BandOf(similarity: real): Band {
    if similarity >= 0.8 then Excellent
    else if similarity >= 0.6 then Good
    else if similarity >= 0.4 then Fair
    else Weak
  }

  function Rank(b: Band): nat {
    match b
    case Weak => 0
    case Fair => 1
    case Good => 2
    case Excellent => 3
  }

  /** `getSimilarityColor`. */
  function SimilarityColor(similarity: real): string {
    if similarity >= 0.8 then "text-green-600 bg-green-100"
    else if similarity >= 0.6 then "text-yellow-600 bg-yellow-100"
    else if similarity >= 0.4 then "text-orange-600 bg-orange-100"
    else "text-red-600 bg-red-100"
  }

  /** `getSimilarityIcon`. */
  function SimilarityIcon(similarity: real): string {
    if similarity >= 0.8 then "\U{1F525}"
    else if similarity >= 0.6 then "\U{2B50}"
    else if similarity >= 0.4 then "\U{1F44D}"
    else "\U{1F914}"
  }

  /** Colour and icon pick the same band: two scores get the same colour
      exactly when they get the same icon, and both are fixed by the band. */
  lemma ColorAndIconAgree(a: real, b: real)
    ensures SimilarityColor(a) == SimilarityColor(b) <==> BandOf(a) == BandOf(b)
    ensures SimilarityIcon(a) == SimilarityIcon(b) <==> BandOf(a) == BandOf(b)
  {
  }

  /** A higher score never falls in a worse band; the bands start at 0.8,
      0.6 and 0.4 inclusive. */
  lemma BandMonotone(a: real, b: real)
    requires a <= b
    ensures Rank(BandOf(a)) <= Rank(BandOf(b))
    ensures BandOf(0.8) == Excellent && BandOf(0.6) == Good && BandOf(0.4) == Fair
  {
  }

  // ---------------------------------------------------------------------
  // Lazy loading

  /** Opening the CV browser: `/cv/short` is called only while the CV list is
      empty; a failed call leaves the list empty. Returns the state and
      whether the call was made. */
  function OpenCvBrowser(st: State, reply: Result<seq<CvShort>>): (r: (State, bool))
    ensures r.1 <==> |st.cvs| == 0
    ensures !r.1 || reply.Failure? ==> r.0 == st
    ensures r.1 && reply.Success? ==> r.0 == st.(cvs := reply.value)
  {
    if |st.cvs| == 0 then
      match reply
      case Success(cvs) => (st.(cvs := cvs), true)
      case Failure(_) => (st, true)
    else (st, false)
  }

  /** Opening the offer browser: the button is disabled without a usable
      submission id, `loadOffers` returns early without one, and the offers
      are fetched only while their list is empty. Returns the state and the
      id the offers were requested for. */
  function OpenOfferBrowser(st: State, submissionId: Option<string>, reply: Result<seq<SavedJobOffer>>): (r: (State, Option<string>))
    ensures r.1.Some? <==> HasId(submissionId) && |st.offers| == 0
    ensures r.1.Some? ==> r.1 == submissionId
    ensures r.1.None? || reply.Failure? ==> r.0 == st
    ensures r.1.Some? && reply.Success? ==> r.0 == st.(offers := reply.value)
  {
    if !HasId(submissionId) || |st.offers| > 0 then (st, None)
    else
      match reply
      case Success(offers) => (st.(offers := offers), submissionId)
      case Failure(_) => (st, submissionId)
  }

  /** The CV list is fetched once: after a call that returned CVs, opening
      the browser again makes no call and changes nothing; after a failed
      call, opening it again retries. */
  lemma CvBrowserFetchesOnce(st: State, reply: Result<seq<CvShort>>, again: Result<seq<CvShort>>)
    requires |st.cvs| == 0
    ensures reply.Success? && |reply.value| > 0 ==>
              OpenCvBrowser(OpenCvBrowser(st, reply).0, again) == (OpenCvBrowser(st, reply).0, false)
    ensures reply.Failure? ==> OpenCvBrowser(OpenCvBrowser(st, reply).0, again).1
  {
  }

  /** The same for the offers of one submission. */
  lemma OfferBrowserFetchesOnce(st: State, submissionId: Option<string>,
                                reply: Result<seq<SavedJobOffer>>, again: Result<seq<SavedJobOffer>>)
    requires HasId(submissionId) && |st.offers| == 0
    ensures reply.Success? && |reply.value| > 0 ==>
              var s1 := OpenOfferBrowser(st, submissionId, reply).0;
              OpenOfferBrowser(s1, submissionId, again) == (s1, None)
    ensures reply.Failure? ==> OpenOfferBrowser(OpenOfferBrowser(st, submissionId, reply).0, submissionId, again).1 == submissionId
  {
  }

  // ---------------------------------------------------------------------
  // Comparison count

  /** The "Comparaisons" figure: `selectedCvs.length * selectedOffers.length`. */
  function ComparisonCount(st: State): (n: nat)
    ensures n == |Pairs(st.selectedCvs, st.selectedOffers)|
  {
    |st.selectedCvs| * |st.selectedOffers|
  }

  /** Every (CV, offer) pair of the two selections, CV-major. */
  function Pairs(cvs: seq<string>, offers: seq<string>): (r: seq<(string, string)>)
    ensures |r| == |cvs| * |offers|
    decreases |cvs|
  {
    if |cvs| == 0 then []
    else seq(|offers|, j requires 0 <= j < |offers| => (cvs[0], offers[j])) + Pairs(cvs[1..], offers)
  }

  /** Each CV of the selection meets each offer of the selection in `Pairs`. */
  lemma {:induction false} PairsComplete(cvs: seq<string>, offers: seq<string>, c: string, o: string)
    requires c in cvs && o in offers
    ensures (c, o) in Pairs(cvs, offers)
    decreases |cvs|
  {
    var row := seq(|offers|, j requires 0 <= j < |offers| => (cvs[0], offers[j]));
    assert Pairs(cvs, offers) == row + Pairs(cvs[1..], offers);
    if c == cvs[0] {
      var j :| 0 <= j < |offers| && offers[j] == o;
      assert row[j] == (c, o);
    } else {
      PairsComplete(cvs[1..], offers, c, o);
    }
  }

  /** The (CV, offer) pairs a reply scored. */
  function PairsOf(raw: seq<MatchingResult>): seq<(string, string)> {
    seq(|raw|, i requires 0 <= i < |raw| => (raw[i].cvId, raw[i].offerId))
  }

  /** When the backend scores each pair of the two selections at most once,
      the displayed results never outnumber the comparisons announced. */
  lemma ResultsWithinComparisons(st: State, raw: seq<MatchingResult>,
                                 cv: string -> Result<CvDetails>, offer: string -> Result<OfferDetails>)
    requires MatchingRequestOf(st).Some?
    requires NoDup(PairsOf(raw))
    requires forall i :: 0 <= i < |raw| ==> raw[i].cvId in st.selectedCvs && raw[i].offerId in st.selectedOffers
    ensures |PerformMatching(st, Success(raw), cv, offer).results| <= ComparisonCount(st)
  {
    var all := Pairs(st.selectedCvs, st.selectedOffers);
    var ps := PairsOf(raw);
    forall i | 0 <= i < |ps| ensures ps[i] in all {
      PairsComplete(st.selectedCvs, st.selectedOffers, raw[i].cvId, raw[i].offerId);
    }
    DistinctWithinBound(ps, all);
  }
}
