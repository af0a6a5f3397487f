/** The standalone tender page (`app/appel-offres/page.tsx`): its own
    upload step, and a board of job posts with selection, editing, a skill
    filter and the list of skills the filter offers. */
module JobBoard {
  import opened Wrappers
  import opened Text
  import opened Seqs
  import opened Forms
  import Selection
  import StringOrder
  import JobEdit
  import PdfUpload

  /** The page's own upload step holds what the single-tender upload page
      holds (a mode that starts on file, a file, a text), and its `isValid`
      is the same rule as that page's `isFormValid`. */
  type UploadForm = PdfUpload.State

  /** Switching mode keeps what was entered in the other mode. */
  function SetMode(f: UploadForm, mode: Mode): (r: UploadForm)
    ensures r.mode == mode && r.file == f.file && r.text == f.text
    ensures mode == f.mode ==> r == f
  {
    f.(mode := mode)
  }

  /** A text typed in text mode stops counting once the user switches back
      to a file mode without a file, and counts again on the way back. */
  lemma ModeDecidesWhatCounts(f: UploadForm)
    requires f.file.None? && !IsBlank(f.text)
    ensures !PdfUpload.IsFormValid(SetMode(f, FileMode))
    ensures PdfUpload.IsFormValid(SetMode(SetMode(f, FileMode), TextMode))
  {
  }

  type JobPost = JobEdit.JobPost

  datatype Board = Board(jobs: seq<JobPost>, selected: set<string>, filter: string)

  /** `handleJobSelect(jobId)`. */
  function SelectJob(b: Board, jobId: string): (r: Board)
    ensures jobId in r.selected <==> jobId !in b.selected
    ensures forall id :: id != jobId ==> (id in r.selected <==> id in b.selected)
    ensures r.jobs == b.jobs && r.filter == b.filter
  {
    b.(selected := Selection.ToggleSet(b.selected, jobId))
  }

  function Ids(jobs: seq<JobPost>): (r: seq<string>)
    ensures |r| == |jobs| && forall i :: 0 <= i < |jobs| ==> r[i] == jobs[i].id
  {
    seq(|jobs|, i requires 0 <= i < |jobs| => jobs[i].id)
  }

  /** `selectAllJobs`: exactly the ids of the posts, filtered or not. */
  function SelectAll(b: Board): (r: Board)
    ensures forall id :: id in r.selected <==> exists i :: 0 <= i < |b.jobs| && b.jobs[i].id == id
    ensures r.jobs == b.jobs && r.filter == b.filter
  {
    b.(selected := Elements(Ids(b.jobs)))
  }

  function DeselectAll(b: Board): (r: Board)
    ensures r.selected == {} && r.jobs == b.jobs && r.filter == b.filter
  {
    b.(selected := {})
  }

  /** `handleJobSave(updated)`: every post with the updated post's id is
      replaced by it, in place; the others stay. */
  function SaveJob(b: Board, updated: JobPost): (r: Board)
    ensures |r.jobs| == |b.jobs|
    ensures forall i :: 0 <= i < |b.jobs| ==>
              r.jobs[i] == (if b.jobs[i].id == updated.id then updated else b.jobs[i])
    ensures r.selected == b.selected && r.filter == b.filter
  {
    b.(jobs := seq(|b.jobs|, i requires 0 <= i < |b.jobs| =>
                     if b.jobs[i].id == updated.id then updated else b.jobs[i]))
  }

  /** Saving never changes which ids are on the board, so the selection
      still names the same posts; saving a post unchanged is a no-op. */
  lemma SaveKeepsIds(b: Board, updated: JobPost)
    ensures Ids(SaveJob(b, updated).jobs) == Ids(b.jobs)
    ensures (forall i :: 0 <= i < |b.jobs| && b.jobs[i].id == updated.id ==> b.jobs[i] == updated)
            ==> SaveJob(b, updated) == b
  {
  }

  /** Some skill of the post contains `needle`, both lower-cased. */
  predicate HasSkillLike(job: JobPost, needle: string) {
    exists k :: 0 <= k < |job.skills| && Contains(ToLower(job.skills[k]), ToLower(needle))
  }

  function SkillLike(needle: string): JobPost -> bool {
    job => HasSkillLike(job, needle)
  }

  /** `filteredJobs`: every post under an empty filter; otherwise the posts
      with a skill containing the filter, ignoring case, in board order. */
  function FilteredJobs(b: Board): (r: seq<JobPost>)
    ensures b.filter == [] ==> r == b.jobs
    ensures b.filter != [] ==>
              Subsequence(r, b.jobs)
              && (forall i :: 0 <= i < |r| ==> HasSkillLike(r[i], b.filter))
              && (forall i :: 0 <= i < |b.jobs| && HasSkillLike(b.jobs[i], b.filter) ==> b.jobs[i] in r)
              && |r| == Count(b.jobs, SkillLike(b.filter))
    ensures b.filter != [] ==>
              forall j :: multiset(r)[j] == if HasSkillLike(j, b.filter) then multiset(b.jobs)[j] else 0
  {
    if b.filter == [] then b.jobs
    else
      FilterMembers(b.jobs, SkillLike(b.filter));
      FilterMultiplicity(b.jobs, SkillLike(b.filter));
      Filter(b.jobs, SkillLike(b.filter))
  }

  /** A post without skills shows only while no filter is set. */
  lemma SkillLessPostShowsOnlyUnfiltered(b: Board, i: nat)
    requires i < |b.jobs| && b.jobs[i].skills == []
    ensures b.jobs[i] in FilteredJobs(b) <==> b.filter == []
  {
  }

  /** `allSkills`: each skill of any post once, in sort order. */
  function AllSkills(jobs: seq<JobPost>): (r: seq<string>)
    ensures StringOrder.StrictlySorted(r)
    ensures forall s :: s in r <==> exists i, k :: 0 <= i < |jobs| && 0 <= k < |jobs[i].skills| && jobs[i].skills[k] == s
  {
    var flat := FlatSkills(jobs);
    var r := StringOrder.SortedUnique(flat);
    ElementsMembers(r);
    ElementsMembers(flat);
    r
  }

  /** `jobPosts.flatMap(job => job.skills)`. */
  function FlatSkills(jobs: seq<JobPost>): (r: seq<string>)
    ensures forall s :: s in r <==> exists i, k :: 0 <= i < |jobs| && 0 <= k < |jobs[i].skills| && jobs[i].skills[k] == s
    decreases |jobs|
  {
    if jobs == [] then []
    else
      var rest := FlatSkills(jobs[1..]);
      assert forall s :: s in rest <==> exists i, k :: 1 <= i < |jobs| && 0 <= k < |jobs[i].skills| && jobs[i].skills[k] == s by {
        forall s | s in rest ensures exists i, k :: 1 <= i < |jobs| && 0 <= k < |jobs[i].skills| && jobs[i].skills[k] == s {
          var i, k :| 0 <= i < |jobs[1..]| && 0 <= k < |jobs[1..][i].skills| && jobs[1..][i].skills[k] == s;
          assert jobs[i + 1].skills[k] == s;
        }
        forall s, i, k | 1 <= i < |jobs| && 0 <= k < |jobs[i].skills| && jobs[i].skills[k] == s ensures s in rest {
          assert jobs[1..][i - 1].skills[k] == s;
        }
      }
      jobs[0].skills + rest
  }

  /** The skill list is the one sorted, repetition-free listing of the
      board's skills: any other such listing is the same list. */
  lemma AllSkillsIsTheSortedListing(jobs: seq<JobPost>, other: seq<string>)
    requires StringOrder.StrictlySorted(other)
    requires forall s :: s in other <==> exists i, k :: 0 <= i < |jobs| && 0 <= k < |jobs[i].skills| && jobs[i].skills[k] == s
    ensures other == AllSkills(jobs)
  {
    var r := AllSkills(jobs);
    ElementsMembers(r);
    ElementsMembers(other);
    assert Elements(r) == Elements(other);
    StringOrder.StrictlySortedUnique(other, r);
  }

  /** Picking a skill from the list never empties the board: every post
      holding that skill is shown. */
  lemma PickedSkillShowsItsPosts(b: Board, i: nat, k: nat)
    requires i < |b.jobs| && k < |b.jobs[i].skills| && b.filter == b.jobs[i].skills[k]
    ensures b.jobs[i] in FilteredJobs(b)
  {
    var s := ToLower(b.filter);
    ContainsAt(s, s, 0);
    assert HasSkillLike(b.jobs[i], b.filter);
  }
}
